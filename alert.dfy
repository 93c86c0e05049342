/** The per-tick driver `callback` (src/lib.rs): one search request for the
    lookback window, then, hit by hit and in order, one content request and at
    most one message to the channel. */
module Alert {
  import opened Wrappers
  import opened Feed
  import opened Truncation

  /** A request to a collaborator, as the model observes it. */
  datatype Request =
    | SearchApi(url: string)          // the search request of the tick
    | SummaryServer(target: string)   // `obtain_summary_by_post`, the extractor on port 4000
    | TextServer(target: string)      // `obtain_text_by_post`, the extractor on port 3000
    | Completion(question: string)    // the completion request of `get_summary_truncated`

  /** The collaborators of one tick, each as the reply it gives to a request
      (`None` is a failed request). */
  datatype Services = Services(
    search: string -> Option<Search>,             // the search request, response parsed as `Search`
    fetchSummary: string -> Option<string>,       // `obtain_summary_by_post(u)`
    fetchText: string -> Option<string>,          // `obtain_text_by_post(post)`
    complete: string -> Option<string>)           // the completion of `get_summary_truncated`

  /** The `(<{u}|source>)` link of a hit with an external URL. */
  function SourceLink(u: string): (l: string)
    ensures |l| == |u| + 11 && l[..2] == "(<" && l[2..2 + |u|] == u && l[2 + |u|..] == "|source>)"
  {
    "(<" + u + "|source>)"
  }

  /** The head line of every message: the title in bold, then the post link. */
  function PostHeader(title: string, post: string): (h: string)
    ensures |h| == |title| + |post| + 14
    ensures h[..3] == "- *" && h[3..3 + |title|] == title
    ensures h[3 + |title|..6 + |title|] == "*\n<" && h[6 + |title|..6 + |title| + |post|] == post
    ensures h[6 + |title| + |post|..] == " | post>"
  {
    "- *" + title + "*\n<" + post + " | post>"
  }

  /** The message for a hit with an external URL: the head line, the source link
      right after it, ` by ` and the author on that line, and the extracted text
      verbatim on the next. */
  function LinkedMessage(title: string, post: string, u: string, author: string, text: string): (m: string)
    ensures var h, l := PostHeader(title, post), SourceLink(u);
      |h| + |l| <= |m| - |text| && m[..|h|] == h && m[|h|..|h| + |l|] == l &&
      m[|h| + |l|..|m| - |text|] == " by " + author + "\n"
    ensures |m| >= |text| && m[|m| - |text|..] == text
  {
    PostHeader(title, post) + SourceLink(u) + " by " + author + "\n" + text
  }

  /** The message for a hit without one: the head line, ` by ` and the author,
      and the summary verbatim on the next line. */
  function PlainMessage(title: string, post: string, author: string, summary: string): (m: string)
    ensures var h := PostHeader(title, post);
      |h| <= |m| - |summary| && m[..|h|] == h && m[|h|..|m| - |summary|] == " by " + author + "\n"
    ensures |m| >= |summary| && m[|m| - |summary|..] == summary
  {
    PostHeader(title, post) + " by " + author + "\n" + summary
  }

  /** What one hit leads to: the requests made for it and the message sent, if any. */
  datatype Step = Step(requests: seq<Request>, message: Option<string>)

  /** The handling of one hit. */
  function HitStep(hit: Hit, svc: Services): (r: Step)
    // with an external URL: only the port-4000 extractor, on that URL, with no fallback;
    // a message exactly when it succeeds, carrying its text and a source link
    ensures hit.url.Some? ==>
      var u := hit.url.value;
      r.requests == [SummaryServer(u)] &&
      (r.message.Some? <==> svc.fetchSummary(u).Some?) &&
      (r.message.Some? ==>
         r.message.value == LinkedMessage(hit.title, PostUrl(hit.objectId), u, hit.author, svc.fetchSummary(u).value))
    // without one: the port-3000 extractor on the post URL, then the truncated summary;
    // a message exactly when both succeed, carrying the summary
    ensures hit.url.None? ==>
      var post := PostUrl(hit.objectId);
      r.requests == [TextServer(post)] +
        (if svc.fetchText(post).Some?
         then [Completion(SummarizeQuestion(NewsBody(svc.fetchText(post).value)))] else []) &&
      (r.message.Some? <==>
         svc.fetchText(post).Some? && GetSummaryTruncated(svc.fetchText(post).value, svc.complete).Some?) &&
      (r.message.Some? ==>
         r.message.value == PlainMessage(hit.title, post, hit.author,
                                         GetSummaryTruncated(svc.fetchText(post).value, svc.complete).value))
  {
    var post := PostUrl(hit.objectId);
    match hit.url
    case Some(u) =>
      (match svc.fetchSummary(u)
       case Some(text) => Step([SummaryServer(u)], Some(LinkedMessage(hit.title, post, u, hit.author, text)))
       case None => Step([SummaryServer(u)], None))
    case None =>
      match svc.fetchText(post)
      case None => Step([TextServer(post)], None)
      case Some(text) =>
        var requests := [TextServer(post), Completion(SummarizeQuestion(NewsBody(text)))];
        match GetSummaryTruncated(text, svc.complete)
        case Some(summary) => Step(requests, Some(PlainMessage(hit.title, post, hit.author, summary)))
        case None => Step(requests, None)
  }

  function OptionToSeq(m: Option<string>): seq<string>
  {
    if m.Some? then [m.value] else []
  }

  /** What a hit's requests look like: one or two, none of them a search request. */
  ghost predicate FewRequests(st: Step)
  {
    1 <= |st.requests| <= 2 && forall j :: 0 <= j < |st.requests| ==> !st.requests[j].SearchApi?
  }

  /** The steps of a list of hits, one per hit, in hit order. */
  function Steps(hits: seq<Hit>, svc: Services): (ss: seq<Step>)
    ensures |ss| == |hits|
    ensures forall i :: 0 <= i < |hits| ==> ss[i] == HitStep(hits[i], svc)
    ensures forall i :: 0 <= i < |ss| ==> FewRequests(ss[i])
  {
    seq(|hits|, i requires 0 <= i < |hits| => HitStep(hits[i], svc))
  }

  /** The messages of a run of steps, in order. */
  function Messages(ss: seq<Step>): (r: seq<string>)
    ensures |r| <= |ss|
  {
    if |ss| == 0 then []
    else Messages(ss[..|ss| - 1]) + OptionToSeq(ss[|ss| - 1].message)
  }

  /** The requests of a run of steps, in order. */
  function Requests(ss: seq<Step>): seq<Request>
  {
    if |ss| == 0 then []
    else Requests(ss[..|ss| - 1]) + ss[|ss| - 1].requests
  }

  /** One or two requests per step, and no search request among them. */
  lemma {:induction false} RequestsBound(ss: seq<Step>)
    requires forall i :: 0 <= i < |ss| ==> FewRequests(ss[i])
    ensures |ss| <= |Requests(ss)| <= 2 * |ss|
    ensures forall j :: 0 <= j < |Requests(ss)| ==> !Requests(ss)[j].SearchApi?
  {
    if |ss| > 0 {
      var init := ss[..|ss| - 1];
      assert FewRequests(ss[|ss| - 1]);
      assert forall i :: 0 <= i < |init| ==> FewRequests(init[i]) by {
        forall i | 0 <= i < |init| ensures FewRequests(init[i]) {
          assert init[i] == ss[i];
        }
      }
      RequestsBound(init);
    }
  }

  /** The messages sent for a list of hits, in hit order; each hit gives at most one. */
  function TickMessages(hits: seq<Hit>, svc: Services): (r: seq<string>)
    ensures |r| <= |hits|
  {
    Messages(Steps(hits, svc))
  }

  /** The requests made for a list of hits, in hit order: one or two per hit, and
      never a second search request. */
  function TickRequests(hits: seq<Hit>, svc: Services): (r: seq<Request>)
    ensures |hits| <= |r| <= 2 * |hits|
    ensures forall j :: 0 <= j < |r| ==> !r[j].SearchApi?
  {
    RequestsBound(Steps(hits, svc));
    Requests(Steps(hits, svc))
  }

  /** The hits a tick works through: none when the search request or the parse fails. */
  function TickHits(query: string, nowSecs: nat, svc: Services): (r: seq<Hit>)
    requires LookbackSecs <= nowSecs < U64Limit
    ensures var reply := svc.search(SearchUrl(query, Watermark(nowSecs)));
      (reply.None? ==> r == []) && (reply.Some? ==> r == reply.value.hits)
  {
    match svc.search(SearchUrl(query, Watermark(nowSecs)))
    case Some(s) => s.hits
    case None => []
  }

  lemma StepsAppend(a: seq<Hit>, b: seq<Hit>, svc: Services)
    ensures Steps(a + b, svc) == Steps(a, svc) + Steps(b, svc)
  {
    var l, r := Steps(a + b, svc), Steps(a, svc) + Steps(b, svc);
    forall i | 0 <= i < |l| ensures l[i] == r[i] {
      if i < |a| {
        assert (a + b)[i] == a[i];
      } else {
        assert (a + b)[i] == b[i - |a|];
      }
    }
  }

  lemma {:induction false} MessagesAppend(a: seq<Step>, b: seq<Step>)
    ensures Messages(a + b) == Messages(a) + Messages(b)
    decreases |b|
  {
    if |b| == 0 {
      assert a + b == a;
    } else {
      var init := b[..|b| - 1];
      assert (a + b)[..|a + b| - 1] == a + init;
      assert (a + b)[|a + b| - 1] == b[|b| - 1];
      MessagesAppend(a, init);
    }
  }

  lemma {:induction false} RequestsAppend(a: seq<Step>, b: seq<Step>)
    ensures Requests(a + b) == Requests(a) + Requests(b)
    decreases |b|
  {
    if |b| == 0 {
      assert a + b == a;
    } else {
      var init := b[..|b| - 1];
      assert (a + b)[..|a + b| - 1] == a + init;
      assert (a + b)[|a + b| - 1] == b[|b| - 1];
      RequestsAppend(a, init);
    }
  }

  /** The messages of consecutive runs of hits follow one another, so every
      message stands in the order of its hit. */
  lemma MessagesInHitOrder(a: seq<Hit>, b: seq<Hit>, svc: Services)
    ensures TickMessages(a + b, svc) == TickMessages(a, svc) + TickMessages(b, svc)
  {
    StepsAppend(a, b, svc);
    MessagesAppend(Steps(a, svc), Steps(b, svc));
  }

  /** The same for the requests. */
  lemma RequestsInHitOrder(a: seq<Hit>, b: seq<Hit>, svc: Services)
    ensures TickRequests(a + b, svc) == TickRequests(a, svc) + TickRequests(b, svc)
  {
    StepsAppend(a, b, svc);
    RequestsAppend(Steps(a, svc), Steps(b, svc));
  }

  /** One hit alone: its message, if any, and its requests. */
  lemma TickOfOneHit(hit: Hit, svc: Services)
    ensures TickMessages([hit], svc) == OptionToSeq(HitStep(hit, svc).message)
    ensures TickRequests([hit], svc) == HitStep(hit, svc).requests
  {
    var ss := Steps([hit], svc);
    assert ss[..0] == [] && ss[0] == HitStep(hit, svc);
    assert Messages(ss) == Messages(ss[..0]) + OptionToSeq(ss[0].message);
    assert Requests(ss) == Requests(ss[..0]) + ss[0].requests;
  }

  /** The step of the loop: the prefix of steps grows by one. */
  lemma StepOfLoop(ss: seq<Step>, i: nat)
    requires i < |ss|
    ensures Messages(ss[..i + 1]) == Messages(ss[..i]) + OptionToSeq(ss[i].message)
    ensures Requests(ss[..i + 1]) == Requests(ss[..i]) + ss[i].requests
  {
    assert ss[..i + 1][..i] == ss[..i];
  }

  /** The body of the loop over hits in `callback`: the `match` on the hit's URL. */
  method HandleHit(hit: Hit, svc: Services) returns (stepRequests: seq<Request>, message: Option<string>)
    ensures Step(stepRequests, message) == HitStep(hit, svc)
  {
    var post := PostUrl(hit.objectId);
    message := None;
    match hit.url {
      case Some(u) =>
        stepRequests := [SummaryServer(u)];
        match svc.fetchSummary(u) {
          case Some(text) => message := Some(LinkedMessage(hit.title, post, u, hit.author, text));
          case None =>
        }
      case None =>
        stepRequests := [TextServer(post)];
        match svc.fetchText(post) {
          case Some(text) =>
            stepRequests := stepRequests + [Completion(SummarizeQuestion(NewsBody(text)))];
            match GetSummaryTruncated(text, svc.complete) {
              case Some(summary) => message := Some(PlainMessage(hit.title, post, hit.author, summary));
              case None =>
            }
          case None =>
        }
    }
  }

  /** The loop over hits in `callback`: every hit in order. Returns the messages
      sent and the requests made. */
  method HandleHits(hits: seq<Hit>, svc: Services) returns (sent: seq<string>, requests: seq<Request>)
    ensures sent == TickMessages(hits, svc)
    ensures requests == TickRequests(hits, svc)
  {
    sent, requests := [], [];
    ghost var steps := Steps(hits, svc);
    for i := 0 to |hits|
      invariant sent == Messages(steps[..i])
      invariant requests == Requests(steps[..i])
    {
      var stepRequests, message := HandleHit(hits[i], svc);
      assert Step(stepRequests, message) == steps[i];
      StepOfLoop(steps, i);
      sent := sent + OptionToSeq(message);
      requests := requests + stepRequests;
    }
    assert steps[..|hits|] == steps;
  }

  /** `callback` for a keyword at `nowSecs`: the search request for the lookback
      window, then every hit in order. Returns the messages sent to the channel
      and the requests made, in order. */
  method Callback(query: string, nowSecs: nat, svc: Services)
    returns (sent: seq<string>, requests: seq<Request>)
    requires LookbackSecs <= nowSecs < U64Limit
    ensures sent == TickMessages(TickHits(query, nowSecs, svc), svc)
    ensures requests == [SearchApi(SearchUrl(query, Watermark(nowSecs)))] + TickRequests(TickHits(query, nowSecs, svc), svc)
  {
    var dura := nowSecs - LookbackSecs;
    var url := SearchUrl(query, dura);
    var hits: seq<Hit> := [];
    match svc.search(url) {
      case Some(search) => hits := search.hits;
      case None =>
    }
    var hitRequests;
    sent, hitRequests := HandleHits(hits, svc);
    requests := [SearchApi(url)] + hitRequests;
  }
}
