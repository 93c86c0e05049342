/** Two sequence helpers the chunker, the summariser and the truncation share. */
module Seqs {

  function Min(a: nat, b: nat): (m: nat)
    ensures m <= a && m <= b && (m == a || m == b)
  {
    if a <= b then a else b
  }

  /** The in-order concatenation of a list of sequences: of token chunks, of strings. */
  function Flatten<T>(ss: seq<seq<T>>): seq<T>
  {
    if |ss| == 0 then [] else ss[0] + Flatten(ss[1..])
  }

  lemma {:induction false} FlattenAppend<T>(ss: seq<seq<T>>, s: seq<T>)
    ensures Flatten(ss + [s]) == Flatten(ss) + s
  {
    if |ss| > 0 {
      assert (ss + [s])[1..] == ss[1..] + [s];
      FlattenAppend(ss[1..], s);
    } else {
      assert ss + [s] == [s];
    }
  }
}
