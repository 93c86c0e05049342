/** `get_summary` (src/lib.rs): a text is tokenized; at most `MaxChunk` tokens
    are summarised in one completion request, while a longer text is split into
    chunks, each chunk is "mapped" through its own request, the successful
    outputs are concatenated, and one "reduce" request runs over that digest. */
module Summarizer {
  import opened Wrappers
  import opened Seqs
  import opened Chunker

  /** The three questions `get_summary` asks, by the text they carry. */
  datatype Question =
    | MapQ(textChunk: string)     // one decoded chunk of a long text
    | ReduceQ(mapOut: string)     // the concatenated map outputs
    | DirectQ(newsBody: string)   // the whole decoded text of a short one
  {
    /** The interpolated part: the chunk, the digest or the body. */
    function Payload(): string
    {
      match this
      case MapQ(t) => t
      case ReduceQ(m) => m
      case DirectQ(b) => b
    }

    /** The fixed text before the interpolated part. */
    function Lead(): string
    {
      match this
      case MapQ(_) => MapLead
      case ReduceQ(_) => ReduceLead
      case DirectQ(_) => DirectLead
    }

    /** The fixed text after it. */
    function Tail(): string
    {
      match this
      case MapQ(_) => MapTail
      case ReduceQ(_) => ReduceTail
      case DirectQ(_) => DirectTail
    }

    /** The user message sent to the completion service: the payload verbatim
        between the fixed lead and tail of its kind. */
    function Text(): string
    {
      Lead() + Payload() + Tail()
    }
  }

  // The fixed text around the interpolated part of each question. The completion
  // oracle is keyed on the question itself, so no contract depends on these
  // texts; they record what the service is sent.
  const MapLead: string := "This is a segment of the text from the news page: '"
  const MapTail: string := "'. It may contain irrelevant information due to ads or the publisher's intention to leverage this news' public attention to promote other agenda. Extract and summarize the key information that may be connected to the news from this segment."
  const ReduceLead: string := "Given the key information extracted from the news' body text: "
  const ReduceTail: string := ", focus on the core arguments and the conclusions drawn in the article. Create a brief and meaningful summary that captures its relevance and news-worthiness."
  const DirectLead: string := "Given the news body text: "
  const DirectTail: string := ", which may include some irrelevant information, identify the key arguments and the article's conclusion. From these important elements, construct a succinct summary that encapsulates its news value, disregarding any unnecessary details."

  /** Each user message is the lead of its kind, the payload verbatim, and the
      tail of its kind, in that order. */
  lemma TextLayout(q: Question)
    ensures |q.Text()| == |q.Lead()| + |q.Payload()| + |q.Tail()|
    ensures q.Text()[..|q.Lead()|] == q.Lead()
    ensures q.Text()[|q.Lead()|..|q.Lead()| + |q.Payload()|] == q.Payload()
    ensures q.Text()[|q.Lead()| + |q.Payload()|..] == q.Tail()
  {
    Framed(q.Lead(), q.Payload(), q.Tail());
  }

  /** The same layout for any three strings; stated apart so that the prompt
      texts stay out of the proof. */
  lemma Framed(l: string, p: string, t: string)
    ensures |l + p + t| == |l| + |p| + |t|
    ensures (l + p + t)[..|l|] == l
    ensures (l + p + t)[|l|..|l| + |p|] == p
    ensures (l + p + t)[|l| + |p|..] == t
  {
    assert (l + p + t)[..|l|] == l;
    assert (l + p + t)[|l|..|l| + |p|] == p;
    assert (l + p + t)[|l| + |p|..] == t;
  }

  /** The completion service, one request at a time: `complete(n, q)` is the reply
      (after the client's own retries) to the n-th request of this run (counting
      from 0), whose user message is `q.Text()`. `None` is a failed request. */
  type Completion = (nat, Question) -> Option<string>

  /** The map questions, one per chunk, in chunk order. */
  function MapQuestions(chunks: seq<seq<Token>>, decode: seq<Token> -> string): (qs: seq<Question>)
    ensures |qs| == |chunks|
  {
    seq(|chunks|, i requires 0 <= i < |chunks| => MapQ(decode(chunks[i])))
  }

  /** The replies to a run of requests numbered from 0. */
  function Replies(qs: seq<Question>, complete: Completion): (rs: seq<Option<string>>)
    ensures |rs| == |qs|
  {
    seq(|qs|, i requires 0 <= i < |qs| => complete(i, qs[i]))
  }


  /** The successful replies, in order: an independent view of the digest. */
  function Successes(rs: seq<Option<string>>): (ss: seq<string>)
    ensures |ss| <= |rs|
  {
    if |rs| == 0 then []
    else if rs[0].Some? then [rs[0].value] + Successes(rs[1..])
    else Successes(rs[1..])
  }

  /** What the map loop accumulates in `map_out`: each successful reply appended
      as it arrives, a failed one skipped. It is the in-order concatenation of the
      successful replies and of nothing else. */
  function Digest(rs: seq<Option<string>>): (mapOut: string)
    ensures mapOut == Flatten(Successes(rs))
  {
    if |rs| == 0 then ""
    else
      var init, last := rs[..|rs| - 1], rs[|rs| - 1];
      assert rs == init + [last];
      SuccessesAppend(init, last);
      if last.Some? then
        FlattenAppend(Successes(init), last.value);
        Digest(init) + last.value
      else
        assert Successes(init) + [] == Successes(init);
        Digest(init) + ""
  }

  /** The observable behaviour of one `get_summary` run: the questions it sends,
      in order, and the string it returns. */
  datatype Run = Run(questions: seq<Question>, summary: string)

  /** The specification of `get_summary` on an already tokenized text. */
  function SummaryRun(tokens: seq<Token>, decode: seq<Token> -> string, complete: Completion): (r: Run)
    ensures |r.questions| > 0
    // the result is the final request's reply, or "" when that request failed
    ensures r.summary == complete(|r.questions| - 1, r.questions[|r.questions| - 1]).GetOr("")
    // the map questions, one per chunk and whatever the replies, precede the reduce question
    ensures |tokens| > MaxChunk ==>
      var chunks := Chunks(tokens);
      |r.questions| == |chunks| + 1 &&
      r.questions[..|chunks|] == MapQuestions(chunks, decode) &&
      r.questions[|chunks|] == ReduceQ(Digest(Replies(MapQuestions(chunks, decode), complete)))
    ensures |tokens| <= MaxChunk ==> r.questions == [DirectQ(decode(tokens))]
  {
    if |tokens| > MaxChunk then
      var qs := MapQuestions(Chunks(tokens), decode);
      var q := ReduceQ(Digest(Replies(qs, complete)));
      assert (qs + [q])[..|qs|] == qs;
      Run(qs + [q], complete(|qs|, q).GetOr(""))
    else
      var q := DirectQ(decode(tokens));
      Run([q], complete(0, q).GetOr(""))
  }

  /** The number of completion requests: ceil(n / MaxChunk) map requests and one
      reduce request above the single-shot budget, exactly one request otherwise;
      so the map-reduce path is taken exactly when there are more than `MaxChunk` tokens. */
  lemma CallCount(tokens: seq<Token>, decode: seq<Token> -> string, complete: Completion)
    ensures var r := SummaryRun(tokens, decode, complete);
            |r.questions| == (if |tokens| > MaxChunk then ChunkCount(|tokens|) + 1 else 1) &&
            (|r.questions| > 1 <==> |tokens| > MaxChunk)
  {
    ChunksCount(tokens);
  }

  /** The map requests and the reduce request are all sent whatever the replies are:
      a failed map request stops neither the later ones nor the reduce request. */
  lemma FailuresDoNotStopTheRun(tokens: seq<Token>, decode: seq<Token> -> string, c1: Completion, c2: Completion)
    requires |tokens| > MaxChunk
    ensures var r1, r2 := SummaryRun(tokens, decode, c1), SummaryRun(tokens, decode, c2);
            |r1.questions| == |r2.questions| &&
            forall i :: 0 <= i < |r1.questions| - 1 ==> r1.questions[i] == r2.questions[i] == MapQ(decode(Chunks(tokens)[i]))
  {
    var r1, r2 := SummaryRun(tokens, decode, c1), SummaryRun(tokens, decode, c2);
    var qs := MapQuestions(Chunks(tokens), decode);
    forall i | 0 <= i < |r1.questions| - 1
      ensures r1.questions[i] == r2.questions[i] == MapQ(decode(Chunks(tokens)[i]))
    {
      assert r1.questions[i] == r1.questions[..|qs|][i];
      assert r2.questions[i] == r2.questions[..|qs|][i];
    }
  }

  lemma SuccessesAppend(rs: seq<Option<string>>, r: Option<string>)
    ensures Successes(rs + [r]) == Successes(rs) + (if r.Some? then [r.value] else [])
  {
    if |rs| > 0 {
      assert (rs + [r])[1..] == rs[1..] + [r];
    }
  }

  lemma {:induction false} SuccessesSplit(a: seq<Option<string>>, b: seq<Option<string>>)
    ensures Successes(a + b) == Successes(a) + Successes(b)
  {
    if |a| > 0 {
      assert (a + b)[1..] == a[1..] + b;
      SuccessesSplit(a[1..], b);
    } else {
      assert a + b == b;
    }
  }

  /** A failed map request contributes nothing to `map_out`. */
  lemma FailedReplyContributesNothing(rs: seq<Option<string>>, i: nat)
    requires i < |rs| && rs[i].None?
    ensures Digest(rs) == Digest(rs[..i] + rs[i + 1..])
  {
    var before, after := rs[..i], rs[i + 1..];
    var failed := [rs[i]];
    assert rs == before + (failed + after);
    assert Successes(failed) == [] by {
      assert failed[1..] == [];
    }
    SuccessesSplit(failed, after);
    SuccessesSplit(before, failed + after);
    SuccessesSplit(before, after);
    assert Successes(rs) == Successes(before + after);
  }

  /** One turn of the map loop adds one map question ... */
  lemma QuestionsStep(drained: seq<seq<Token>>, chunk: seq<Token>, decode: seq<Token> -> string)
    ensures MapQuestions(drained + [chunk], decode) == MapQuestions(drained, decode) + [MapQ(decode(chunk))]
  {
  }

  /** ... and its reply, if any, to the digest. */
  lemma DigestStep(qs: seq<Question>, q: Question, complete: Completion)
    ensures Digest(Replies(qs + [q], complete)) == Digest(Replies(qs, complete)) + complete(|qs|, q).GetOr("")
  {
    var rs := Replies(qs + [q], complete);
    assert rs[..|rs| - 1] == Replies(qs, complete);
  }

  /** The map phase of `get_summary`: drain `token_vec` from the front, at most
      `MaxChunk` tokens at a time, send one map request per chunk and append each
      successful reply to `map_out`. Returns the questions sent and `map_out`. */
  method MapPhase(feedTokens: seq<Token>, decode: seq<Token> -> string, complete: Completion)
    returns (questions: seq<Question>, mapOut: string)
    ensures questions == MapQuestions(Chunks(feedTokens), decode)
    ensures mapOut == Digest(Replies(questions, complete))
  {
    var tokenVec := feedTokens;
    mapOut := "";
    questions := [];
    ghost var drained: seq<seq<Token>> := [];
    while |tokenVec| != 0
      invariant drained + Chunks(tokenVec) == Chunks(feedTokens)
      invariant questions == MapQuestions(drained, decode)
      invariant mapOut == Digest(Replies(questions, complete))
      decreases |tokenVec|
    {
      DrainStep(feedTokens, drained, tokenVec);
      var drainTo := Min(|tokenVec|, MaxChunk);
      var tokenChunk := tokenVec[..drainTo];
      tokenVec := tokenVec[drainTo..];
      var mapQuestion := MapQ(decode(tokenChunk));
      var reply := complete(|questions|, mapQuestion);
      QuestionsStep(drained, tokenChunk, decode);
      DigestStep(questions, mapQuestion, complete);
      questions := questions + [mapQuestion];
      drained := drained + [tokenChunk];
      match reply {
        case Some(r) => mapOut := mapOut + r;
        case None =>
      }
    }
    assert drained + [] == drained;
  }

  /** `get_summary`: the map phase and one reduce request for a text of more than
      `MaxChunk` tokens, the single-shot request otherwise. Returns the summary
      (empty when the final request failed) and the questions sent, in order. */
  method GetSummary(inp: string, encode: string -> seq<Token>, decode: seq<Token> -> string,
                    complete: Completion)
    returns (summary: string, questions: seq<Question>)
    ensures Run(questions, summary) == SummaryRun(encode(inp), decode, complete)
  {
    var feedTokens := encode(inp);
    summary := "";
    if |feedTokens| > MaxChunk {
      var mapOut;
      questions, mapOut := MapPhase(feedTokens, decode, complete);
      var reduceQuestion := ReduceQ(mapOut);
      var reply := complete(|questions|, reduceQuestion);
      questions := questions + [reduceQuestion];
      match reply {
        case Some(r) => summary := r;
        case None =>
      }
    } else {
      var newsBody := decode(feedTokens);
      var question := DirectQ(newsBody);
      var reply := complete(0, question);
      questions := [question];
      match reply {
        case Some(r) => summary := r;
        case None =>
      }
    }
  }
}
