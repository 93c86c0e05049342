/** The token chunker inside `get_summary`: the token vector is drained from
    the front, at most `MaxChunk` tokens at a time, until it is empty. */
module Chunker {
  import opened Seqs

  /** A token id of the tokenizer; its meaning is left to `encode`/`decode`. */
  type Token = int

  /** The per-chunk budget, and also the single-shot budget, of `get_summary`. */
  const MaxChunk: nat := 2800

  /** The number of chunks a budget of `MaxChunk` needs for `n` tokens: ceil(n / MaxChunk). */
  function ChunkCount(n: nat): nat
  {
    (n + MaxChunk - 1) / MaxChunk
  }

  /** The greedy left-to-right split: each step takes `min(len, MaxChunk)` tokens off the front. */
  function Chunks(s: seq<Token>): (cs: seq<seq<Token>>)
    ensures |cs| == 0 <==> |s| == 0
    decreases |s|
  {
    if |s| == 0 then []
    else
      var d := Min(|s|, MaxChunk);
      [s[..d]] + Chunks(s[d..])
  }

  /** What a greedy split looks like: every chunk is non-empty and within budget,
      and every chunk but the last is exactly `MaxChunk` long. */
  ghost predicate GreedyShape(cs: seq<seq<Token>>)
  {
    forall i :: 0 <= i < |cs| ==>
      0 < |cs[i]| <= MaxChunk && (i < |cs| - 1 ==> |cs[i]| == MaxChunk)
  }

  /** One turn of the drain loop moves the front chunk of what is left to the chunks done. */
  lemma DrainStep(all: seq<Token>, done: seq<seq<Token>>, rest: seq<Token>)
    requires |rest| > 0 && done + Chunks(rest) == Chunks(all)
    ensures var d := Min(|rest|, MaxChunk);
            (done + [rest[..d]]) + Chunks(rest[d..]) == Chunks(all)
  {
    var d := Min(|rest|, MaxChunk);
    assert Chunks(rest) == [rest[..d]] + Chunks(rest[d..]);
    assert (done + [rest[..d]]) + Chunks(rest[d..]) == done + ([rest[..d]] + Chunks(rest[d..]));
  }

  /** No token is lost, reordered or duplicated: the chunks concatenate to the input. */
  lemma {:induction false} ChunksPartition(s: seq<Token>)
    ensures Flatten(Chunks(s)) == s
    decreases |s|
  {
    if |s| > 0 {
      var d := Min(|s|, MaxChunk);
      ChunksPartition(s[d..]);
      assert [s[..d]] + Chunks(s[d..]) == Chunks(s);
      assert s[..d] + s[d..] == s;
    }
  }

  /** Every chunk is non-empty and at most `MaxChunk` long; only the last may be shorter. */
  lemma {:induction false} ChunksShape(s: seq<Token>)
    ensures GreedyShape(Chunks(s))
    decreases |s|
  {
    if |s| > 0 {
      var d := Min(|s|, MaxChunk);
      var rest := Chunks(s[d..]);
      ChunksShape(s[d..]);
      assert Chunks(s) == [s[..d]] + rest;
      forall i | 0 <= i < |Chunks(s)|
        ensures 0 < |Chunks(s)[i]| <= MaxChunk
        ensures i < |Chunks(s)| - 1 ==> |Chunks(s)[i]| == MaxChunk
      {
        if i == 0 {
          assert |rest| > 0 ==> |s| > MaxChunk;
        } else {
          assert Chunks(s)[i] == rest[i - 1];
        }
      }
    }
  }

  /** The loop runs ceil(n / MaxChunk) times. */
  lemma {:induction false} ChunksCount(s: seq<Token>)
    ensures |Chunks(s)| == ChunkCount(|s|)
    decreases |s|
  {
    if |s| > MaxChunk {
      ChunksCount(s[MaxChunk..]);
      assert ChunkCount(|s|) == 1 + ChunkCount(|s| - MaxChunk);
    }
  }

  /** Chunk `i` is the window of tokens `[i * MaxChunk, min((i + 1) * MaxChunk, n))`. */
  lemma {:induction false} ChunkAt(s: seq<Token>, i: nat)
    requires i < |Chunks(s)|
    ensures i * MaxChunk < |s|
    ensures Chunks(s)[i] == s[i * MaxChunk .. Min((i + 1) * MaxChunk, |s|)]
    decreases |s|
  {
    var d := Min(|s|, MaxChunk);
    assert Chunks(s) == [s[..d]] + Chunks(s[d..]);
    if i > 0 {
      var rest := s[d..];
      ChunkAt(rest, i - 1);
      assert d == MaxChunk;
      assert Chunks(s)[i] == Chunks(rest)[i - 1];
      assert (i - 1) * MaxChunk + MaxChunk == i * MaxChunk;
      assert Min(i * MaxChunk, |rest|) + MaxChunk == Min((i + 1) * MaxChunk, |s|);
      assert rest[(i - 1) * MaxChunk .. Min(i * MaxChunk, |rest|)]
          == s[i * MaxChunk .. Min((i + 1) * MaxChunk, |s|)];
    }
  }

  /** The greedy split is the only partition of `s` with the greedy shape, so the
      two lemmas above characterise `Chunks` completely. */
  lemma {:induction false} ChunksUnique(s: seq<Token>, cs: seq<seq<Token>>)
    requires Flatten(cs) == s
    requires GreedyShape(cs)
    ensures cs == Chunks(s)
    decreases |cs|
  {
    if |cs| > 0 {
      var tail := cs[1..];
      assert s == cs[0] + Flatten(tail);
      if |tail| > 0 {
        assert |tail[0]| > 0;
        assert Flatten(tail) == tail[0] + Flatten(tail[1..]);
        assert |cs[0]| == MaxChunk;
      } else {
        assert s == cs[0];
      }
      var d := Min(|s|, MaxChunk);
      assert d == |cs[0]|;
      assert s[..d] == cs[0];
      assert s[d..] == Flatten(tail);
      assert GreedyShape(tail) by {
        forall i | 0 <= i < |tail|
          ensures 0 < |tail[i]| <= MaxChunk && (i < |tail| - 1 ==> |tail[i]| == MaxChunk)
        {
          assert tail[i] == cs[i + 1];
        }
      }
      ChunksUnique(s[d..], tail);
      assert cs == [cs[0]] + tail;
    }
  }
}
