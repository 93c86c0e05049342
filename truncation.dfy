/** The body preparation of `get_summary_truncated` (src/lib.rs): the input is
    split on ASCII whitespace, empty pieces are dropped, the first `MaxWords`
    words are kept and re-joined with single spaces. The summary is then one
    completion request over that body. */
module Truncation {
  import opened Wrappers
  import opened Seqs

  /** How many words of the input are kept. */
  const MaxWords: nat := 3000

  /** ASCII whitespace as Rust's `u8::is_ascii_whitespace` has it: space, tab,
      line feed, form feed and carriage return (not vertical tab). */
  predicate IsAsciiWhitespace(c: char)
  {
    c == ' ' || c == '\t' || c == '\n' || c == '\U{C}' || c == '\r'
  }

  /** A piece of `split_ascii_whitespace`: non-empty, with no whitespace in it. */
  ghost predicate IsWord(w: string)
  {
    |w| > 0 && forall i :: 0 <= i < |w| ==> !IsAsciiWhitespace(w[i])
  }

  ghost predicate AllWords(ws: seq<string>)
  {
    forall i :: 0 <= i < |ws| ==> IsWord(ws[i])
  }

  /** The longest prefix of `s` without whitespace. */
  function WordPrefix(s: string): (w: string)
    ensures |w| <= |s| && w == s[..|w|]
    ensures forall i :: 0 <= i < |w| ==> !IsAsciiWhitespace(w[i])
    ensures |w| == |s| || IsAsciiWhitespace(s[|w|])
  {
    if |s| == 0 || IsAsciiWhitespace(s[0]) then "" else [s[0]] + WordPrefix(s[1..])
  }

  /** `split_ascii_whitespace`: the maximal whitespace-free runs of `s`, in order. */
  function Words(s: string): (ws: seq<string>)
    ensures AllWords(ws)
    decreases |s|
  {
    if |s| == 0 then []
    else if IsAsciiWhitespace(s[0]) then Words(s[1..])
    else
      var w := WordPrefix(s);
      [w] + Words(s[|w|..])
  }

  /** `join(" ")`: the words in order with one space between neighbours. */
  function Join(ws: seq<string>): (r: string)
    ensures |ws| == 0 ==> r == ""
    ensures |ws| > 0 ==> |r| == |Flatten(ws)| + |ws| - 1
    ensures |ws| > 0 ==> r[..|ws[0]|] == ws[0]
  {
    if |ws| == 0 then ""
    else if |ws| == 1 then ws[0]
    else ws[0] + " " + Join(ws[1..])
  }

  /** Single-space normal form: the only whitespace is a single space strictly
      between two other characters, so none leads, none trails, none is doubled. */
  ghost predicate Normalized(s: string)
  {
    forall i :: 0 <= i < |s| && IsAsciiWhitespace(s[i]) ==>
      s[i] == ' ' && 0 < i < |s| - 1 && !IsAsciiWhitespace(s[i + 1])
  }

  /** The non-whitespace characters of `s`, in order. */
  function NonWhitespace(s: string): string
  {
    if |s| == 0 then ""
    else (if IsAsciiWhitespace(s[0]) then "" else [s[0]]) + NonWhitespace(s[1..])
  }

  /** `news_body`: the first `MaxWords` words of `inp`, joined by single spaces. */
  function NewsBody(inp: string): (body: string)
    ensures Words(body) == Words(inp)[..Min(MaxWords, |Words(inp)|)]
    ensures |Words(body)| <= MaxWords
    ensures Normalized(body)
  {
    var ws := Words(inp);
    var kept := ws[..Min(MaxWords, |ws|)];
    assert AllWords(kept) by {
      forall i | 0 <= i < |kept| ensures IsWord(kept[i]) {
        assert kept[i] == ws[i];
      }
    }
    WordsOfJoin(kept);
    JoinNormalized(kept);
    Join(kept)
  }

  /** The user message of the completion request: the body verbatim after a
      fixed lead, and a closing full stop. */
  function SummarizeQuestion(body: string): (q: string)
    ensures |q| == |body| + 17
    ensures q[..16] == "Summarize this: "
    ensures q[16..16 + |body|] == body
    ensures q[|q| - 1] == '.'
  {
    "Summarize this: " + body + "."
  }

  /** `get_summary_truncated`: one completion request (an oracle from the user
      message to the reply, `None` on failure) whose body holds exactly the first
      `MaxWords` words of the input, in single-space normal form. */
  function GetSummaryTruncated(inp: string, complete: string -> Option<string>): (r: Option<string>)
    ensures var body := NewsBody(inp);
      && r == complete(SummarizeQuestion(body))
      && Words(body) == Words(inp)[..Min(MaxWords, |Words(inp)|)]
      && |Words(body)| <= MaxWords
      && Normalized(body)
  {
    complete(SummarizeQuestion(NewsBody(inp)))
  }

  lemma {:induction false} WordPrefixOfWord(w: string, t: string)
    requires forall i :: 0 <= i < |w| ==> !IsAsciiWhitespace(w[i])
    requires |t| == 0 || IsAsciiWhitespace(t[0])
    ensures WordPrefix(w + t) == w
  {
    if |w| > 0 {
      assert (w + t)[1..] == w[1..] + t;
      WordPrefixOfWord(w[1..], t);
    } else {
      assert w + t == t;
    }
  }

  lemma WordsSkip(c: char, s: string)
    requires IsAsciiWhitespace(c)
    ensures Words([c] + s) == Words(s)
  {
    assert ([c] + s)[1..] == s;
  }

  /** Splitting a single-space join gives the words back. */
  lemma {:induction false} WordsOfJoin(ws: seq<string>)
    requires AllWords(ws)
    ensures Words(Join(ws)) == ws
  {
    if |ws| == 1 {
      WordPrefixOfWord(ws[0], "");
      assert ws[0] + "" == ws[0];
    } else if |ws| > 1 {
      var w, rest := ws[0], Join(ws[1..]);
      assert AllWords(ws[1..]) by {
        forall i | 0 <= i < |ws| - 1 ensures IsWord(ws[1..][i]) {
          assert ws[1..][i] == ws[i + 1];
        }
      }
      var s := w + " " + rest;
      assert s == w + (" " + rest);
      WordPrefixOfWord(w, " " + rest);
      assert s[|w|..] == " " + rest;
      WordsSkip(' ', rest);
      WordsOfJoin(ws[1..]);
      assert ws == [w] + ws[1..];
    }
  }

  /** A single-space join of words is in normal form, and starts with a word. */
  lemma {:induction false} JoinNormalized(ws: seq<string>)
    requires AllWords(ws)
    ensures Normalized(Join(ws))
    ensures |ws| > 0 ==> |Join(ws)| > 0 && !IsAsciiWhitespace(Join(ws)[0])
  {
    if |ws| == 1 {
      assert IsWord(ws[0]);
    } else if |ws| > 1 {
      var w, rest := ws[0], Join(ws[1..]);
      assert IsWord(w);
      assert AllWords(ws[1..]) by {
        forall i | 0 <= i < |ws| - 1 ensures IsWord(ws[1..][i]) {
          assert ws[1..][i] == ws[i + 1];
        }
      }
      JoinNormalized(ws[1..]);
      var s := w + " " + rest;
      assert Join(ws) == s;
      forall i | 0 <= i < |s| && IsAsciiWhitespace(s[i])
        ensures s[i] == ' ' && 0 < i < |s| - 1 && !IsAsciiWhitespace(s[i + 1])
      {
        if i == |w| {
          assert s[i + 1] == rest[0];
        } else if i > |w| {
          assert s[i] == rest[i - |w| - 1];
          if i + 1 < |s| {
            assert s[i + 1] == rest[i - |w|];
          }
        }
      }
      assert s[0] == w[0];
    }
  }

  /** Keeping the first `MaxWords` words twice is keeping them once. */
  lemma NewsBodyIdempotent(inp: string)
    ensures NewsBody(NewsBody(inp)) == NewsBody(inp)
  {
    var ws := Words(inp);
    var kept := ws[..Min(MaxWords, |ws|)];
    var body := NewsBody(inp);
    assert body == Join(kept);
    assert Words(body) == kept;
    assert kept[..Min(MaxWords, |kept|)] == kept;
  }

  lemma {:induction false} WordPrefixAppend(a: string, t: string)
    requires |t| > 0 && IsAsciiWhitespace(t[0])
    ensures WordPrefix(a + t) == WordPrefix(a)
  {
    if |a| > 0 && !IsAsciiWhitespace(a[0]) {
      assert (a + t)[1..] == a[1..] + t;
      WordPrefixAppend(a[1..], t);
    } else if |a| == 0 {
      assert a + t == t;
    }
  }

  /** A whitespace character separates words: the words on each side of it are
      found independently. */
  lemma {:induction false} WordsSplit(a: string, c: char, b: string)
    requires IsAsciiWhitespace(c)
    ensures Words(a + [c] + b) == Words(a) + Words(b)
    decreases |a|
  {
    var s := a + [c] + b;
    if |a| == 0 {
      assert s == [c] + b;
      WordsSkip(c, b);
    } else if IsAsciiWhitespace(a[0]) {
      assert s[1..] == a[1..] + [c] + b;
      WordsSplit(a[1..], c, b);
    } else {
      assert s == a + ([c] + b);
      WordPrefixAppend(a, [c] + b);
      var w := WordPrefix(a);
      assert s[0] == a[0];
      assert Words(s) == [w] + Words(s[|w|..]);
      assert Words(a) == [w] + Words(a[|w|..]);
      assert s[|w|..] == a[|w|..] + [c] + b;
      WordsSplit(a[|w|..], c, b);
    }
  }

  lemma {:induction false} NonWhitespaceAppend(a: string, b: string)
    ensures NonWhitespace(a + b) == NonWhitespace(a) + NonWhitespace(b)
  {
    if |a| > 0 {
      assert (a + b)[1..] == a[1..] + b;
      NonWhitespaceAppend(a[1..], b);
    } else {
      assert a + b == b;
    }
  }

  lemma {:induction false} NonWhitespaceOfWord(w: string)
    requires forall i :: 0 <= i < |w| ==> !IsAsciiWhitespace(w[i])
    ensures NonWhitespace(w) == w
  {
    if |w| > 0 {
      NonWhitespaceOfWord(w[1..]);
    }
  }

  /** No non-whitespace character is lost or duplicated by the split. */
  lemma {:induction false} WordsKeepEveryCharacter(s: string)
    ensures Flatten(Words(s)) == NonWhitespace(s)
    decreases |s|
  {
    if |s| > 0 {
      if IsAsciiWhitespace(s[0]) {
        WordsKeepEveryCharacter(s[1..]);
      } else {
        var w := WordPrefix(s);
        assert s == w + s[|w|..];
        NonWhitespaceAppend(w, s[|w|..]);
        NonWhitespaceOfWord(w);
        WordsKeepEveryCharacter(s[|w|..]);
        assert ([w] + Words(s[|w|..]))[1..] == Words(s[|w|..]);
      }
    }
  }
}
