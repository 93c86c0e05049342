# hacker-news-alert: a Dafny model of the polling and summarising core

`hacker-news-alert` is a scheduled job. Once an hour it asks the Hacker News
search API (Algolia) for stories about a keyword created in the last hour. For
each hit it fetches the article's text from one of two private extractors and
posts a message to a Slack channel. The text of a hit that has no external URL
is first cut down to its first 3000 words and summarised in one chat-completion
request. The same file also holds `get_summary`, a map-reduce summariser that is
not called from `callback`. It splits a token stream into chunks of at most 2800
tokens, sends one "map" request per chunk, concatenates the successful replies
and sends one "reduce" request over them.

This project models that core in Dafny 4.11 and proves its properties:

- `chunker.dfy` (`Chunker`): the greedy 2800-token split done by the drain loop
  of `get_summary`. It is a partition of the input, every chunk has the greedy
  shape, the chunk count is ceil(n/2800), chunk `i` is an explicit slice, and no
  other partition has that shape.
- `summarizer.dfy` (`Summarizer`): `get_summary` as methods with the drain loop
  (`MapPhase`, `GetSummary`), proved equal to the specification `SummaryRun`.
  The lemmas cover the number of requests, when the map-reduce path is taken,
  the digest being exactly the successful map replies, and failed requests
  stopping nothing.
- `truncation.dfy` (`Truncation`): `split_ascii_whitespace().take(3000).join(" ")`
  as pure functions. It proves the bound on words, which words are kept, the
  single-space normal form and idempotence. It also shows that `Words` loses no
  non-whitespace character, and that whitespace separates words independently
  on each side.
- `feed.dfy` (`Feed`): `Hit`/`Search`, the watermark `now - 3600`, the search
  URL with its strict `created_at_i>` filter, the decimal rendering of the
  watermark with its round trip, and the post URL.
- `alert.dfy` (`Alert`): `callback` as a method with a loop over the hits,
  proved equal to `TickMessages`/`TickRequests`. It shows each hit's branch,
  at most one message and one or two requests per hit, and messages and
  requests in hit order.
- `seqs.dfy` (`Seqs`): `Min` and the in-order concatenation `Flatten`.
- `wrappers.dfy` (`Wrappers`): the `Option` type.

The model contains no I/O. Each collaborator is a parameter:

- the tokenizer's `encode` and `decode`, as uninterpreted functions;
- the completion service, as the reply to each request. In `get_summary` this
  is a function of the request's position and question, so the number and order
  of requests can be seen. In `get_summary_truncated` it is a function of the
  user message;
- the search API, as the parsed `Search` it returns for a URL, or `None`;
- the two extractors, each as a function from URL to text, or `None`;
- the clock, as the `nowSecs` argument.

The request and message lists that the methods return stand for the
observable effects.

Some facts of the source that the model keeps:

- With an external URL, `callback` posts the port-4000 extractor's text
  unchanged and never falls back to the post page; the truncating summary is
  commented out on that path (src/lib.rs:51-59).
- A failed final request leaves `_summary` as `""` (src/lib.rs:189, 216-224,
  230-235).
- One constant, 2800, is both the single-shot and the per-chunk budget
  (src/lib.rs:191, 196).

## Model

| member | source | states |
|---|---|---|
| Chunker.Chunks | src/lib.rs:195-197 | the drain loop yields no chunk exactly when `token_vec` is empty |
| Chunker.ChunksPartition | src/lib.rs:195-197 | the chunks drained from `token_vec`, concatenated in order, are the original token sequence (nothing lost, reordered or duplicated) |
| Chunker.ChunksShape | src/lib.rs:195-197 | every chunk is non-empty and at most 2800 tokens long, and every chunk but the last is exactly 2800 |
| Chunker.ChunksCount | src/lib.rs:195-197 | the drain loop makes exactly ceil(n/2800) chunks |
| Chunker.ChunkAt | src/lib.rs:195-197 | chunk `i` is the token window `[2800*i, min(2800*(i+1), n))` |
| Chunker.ChunksUnique | src/lib.rs:195-197 | any partition of the tokens with the greedy shape is the drain loop's split |
| Chunker.DrainStep | src/lib.rs:195-197 | one `drain(0..min(len, 2800))` moves the front chunk of what is left onto the chunks done |
| Summarizer.MapPhase | src/lib.rs:192-212 | the drain loop sends one map question per chunk, in chunk order, and leaves `map_out` as the in-order digest of the replies |
| Summarizer.GetSummary | src/lib.rs:171-239 | the questions sent and the string returned are those of `SummaryRun` on `encode(inp)` |
| Summarizer.SummaryRun | src/lib.rs:188-238 | returns the final request's reply, or `""` if it failed. Above 2800 tokens: one map question per chunk, then a reduce question over the digest of the map replies. Otherwise: one direct question over `decode(tokens)` |
| Summarizer.CallCount | src/lib.rs:191-236 | ceil(n/2800)+1 completion requests above 2800 tokens, exactly 1 otherwise; more than one request iff there are more than 2800 tokens |
| Summarizer.FailuresDoNotStopTheRun | src/lib.rs:195-216 | whatever the replies, the same map questions (one per chunk) and the reduce request are sent |
| Summarizer.Digest | src/lib.rs:193-211 | `map_out` is the in-order concatenation of the successful map replies only |
| Summarizer.FailedReplyContributesNothing | src/lib.rs:205-211 | removing a failed map reply leaves `map_out` unchanged |
| Summarizer.TextLayout | src/lib.rs:203-228 | each question's user message holds its chunk, digest or body verbatim, between the fixed lead and the fixed tail of its kind |
| Truncation.WordPrefix | src/lib.rs:138 | the longest whitespace-free prefix of the input |
| Truncation.Words | src/lib.rs:137-138 | every piece of the ASCII-whitespace split is non-empty and holds no whitespace |
| Truncation.WordsSplit | src/lib.rs:138 | an ASCII whitespace character separates the words on its two sides |
| Truncation.WordsKeepEveryCharacter | src/lib.rs:138 | the words, concatenated, are exactly the input's non-whitespace characters in order |
| Truncation.Join | src/lib.rs:140-141 | the join starts with the first word and is as long as the words plus one space between each neighbouring pair |
| Truncation.WordsOfJoin | src/lib.rs:140-141 | splitting a single-space join of words gives those words back |
| Truncation.JoinNormalized | src/lib.rs:140-141 | a single-space join of words has no leading, trailing, doubled or non-space whitespace |
| Truncation.NewsBody | src/lib.rs:137-141 | the body's words are exactly the first min(3000, #words) words of the input, so at most 3000, in single-space normal form |
| Truncation.NewsBodyIdempotent | src/lib.rs:137-141 | truncating the body again leaves it unchanged |
| Truncation.SummarizeQuestion | src/lib.rs:152 | the user message is `Summarize this: `, the body verbatim, and a full stop |
| Truncation.GetSummaryTruncated | src/lib.rs:137-158 | the result is the reply to one completion request whose body holds exactly the input's first min(3000, #words) words, in single-space normal form; `None` when that request fails |
| Feed.Watermark | src/lib.rs:33-34 | `dura` is `now - 3600`; defined only when the `u64` subtraction does not underflow |
| Feed.WindowIsStrict | src/lib.rs:34-35 | a hit passes the `created_at_i>{dura}` filter iff it was created less than 3600 s before now (the boundary is excluded) |
| Feed.Decimal | src/lib.rs:35 | the `{dura}` rendering is a non-empty string of digits without a leading zero |
| Feed.DecimalRoundTrip | src/lib.rs:35 | reading the rendered digits back gives the number |
| Feed.SearchUrl | src/lib.rs:35 | the search URL is the fixed search prefix, the query verbatim, `&numericFilters=created_at_i>` and the decimal `dura`, in that order |
| Feed.SearchUrlCarriesWatermark | src/lib.rs:34-35 | the number after `created_at_i>` in the search URL is `now - 3600` |
| Feed.PostUrl | src/lib.rs:46 | the post URL is `https://news.ycombinator.com/item?id=` followed by the `objectID` |
| Feed.PostUrlInjective | src/lib.rs:46 | distinct `objectID`s give distinct post URLs |
| Alert.SourceLink | src/lib.rs:50 | the source link is `(<`, the hit's URL verbatim, then `\|source>)` |
| Alert.PostHeader | src/lib.rs:56 | the head line of both messages (also line 66) is `- *`, the title, `*`, a newline, `<`, the post URL and ` \| post>`, each piece at its stated offset |
| Alert.LinkedMessage | src/lib.rs:50-57 | the message for a hit with a URL starts with the head line (title and post URL), carries the source link right after it, then ` by `, the author and a newline, and ends with the extracted text, verbatim |
| Alert.PlainMessage | src/lib.rs:65-66 | the message for a hit without a URL starts with the head line (title and post URL), then ` by `, the author and a newline, and ends with the summary, verbatim |
| Alert.HitStep | src/lib.rs:46-71 | With a URL: only the port-4000 extractor is asked, on that URL, and a message is sent iff it succeeds. Without one: the port-3000 extractor is asked on the post URL, then, exactly when that succeeded, one completion request over the truncated text, and a message is sent iff both succeed |
| Alert.HandleHit | src/lib.rs:48-71 | the `match` on the hit's URL makes the requests and the message of `HitStep` |
| Alert.Steps | src/lib.rs:40-72 | one step per hit, in hit order, each with one or two requests and no search request |
| Alert.TickMessages | src/lib.rs:40-72 | a tick sends at most one message per hit |
| Alert.TickRequests | src/lib.rs:40-72 | a tick makes one or two requests per hit, and never a second search request |
| Alert.RequestsBound | src/lib.rs:40-72 | steps of one or two requests each give between one and two requests per step, none a search request |
| Alert.TickHits | src/lib.rs:38-40 | the hits are those of the parsed search reply, and none when the request or the parse fails |
| Alert.StepsAppend | src/lib.rs:40 | the steps of consecutive runs of hits follow each other |
| Alert.MessagesAppend | src/lib.rs:40-72 | the messages of consecutive runs of steps follow each other |
| Alert.RequestsAppend | src/lib.rs:40-72 | the requests of consecutive runs of steps follow each other |
| Alert.MessagesInHitOrder | src/lib.rs:40-72 | the messages of consecutive runs of hits follow each other, so messages are in hit order |
| Alert.RequestsInHitOrder | src/lib.rs:40-72 | the requests of consecutive runs of hits follow each other |
| Alert.TickOfOneHit | src/lib.rs:40-72 | a single hit contributes its own message (if any) and its own requests |
| Alert.StepOfLoop | src/lib.rs:40-72 | one more step appends that step's message (if any) and requests |
| Alert.HandleHits | src/lib.rs:40-72 | the loop over the hits sends the messages and makes the requests of `TickMessages`/`TickRequests` |
| Alert.Callback | src/lib.rs:28-75 | one search request for the window `now - 3600`. Then, for the parsed hits (none if the fetch or parse failed), the messages and requests of `TickMessages`/`TickRequests`, in hit order |

## Left out

- HTTP: the search request, `obtain_text_by_post`, `obtain_summary_by_post` and
  `get_text_private` (src/lib.rs:38, 93-131, 162-170) are network calls. The
  first three are each a parameter returning `Option`. `get_text_private` is not
  used by the core and is not modelled.
- Alert.Services: `fetchSummary`, `fetchText` and `complete` are functions, so
  within one tick two hits with the same URL, or with the same truncated body,
  get the same reply, whereas the source makes a separate network call for each
  hit. No proved property depends on this.
- The OpenAI client: model, system prompt, `restart`, `chat_id` and the retry
  count of 3 (src/lib.rs:134-135, 143-150, 172-186). A request's reply, after
  retries, is one oracle result.
- Summarizer.GetSummary: the completion oracle is keyed on the `Question` value.
  `Question.Text` renders the exact user message, but no contract depends on
  the fixed prompt texts, and that this rendering is injective is not proved:
  reasoning about the long prompt literals is too costly for the verifier.
- Summarizer.GetSummary: tiktoken's `encode_ordinary` and `decode` are
  uninterpreted function parameters, and nothing is assumed about
  `decode(encode(s))`. `decode(..).unwrap()` can panic, for example on a chunk
  that splits a multi-byte character. The model treats `decode` as total and
  does not model that panic.
- The debug sends to "ik8" in `get_summary` (src/lib.rs:201, 207) are not
  modelled.
- Each channel send of `callback` (src/lib.rs:58, 67) is an element of `sent`.
  Workspace and channel come from environment lookups (src/lib.rs:29-30) and are
  not modelled.
- `run`, `schedule_cron_job`, `dotenv` and the environment lookups
  (src/lib.rs:19-30) are scheduling and configuration glue.
- `SystemTime::now()` and the `duration_since(UNIX_EPOCH).unwrap()` panic
  (src/lib.rs:33-34): `nowSecs` is an argument.
- Feed.Watermark: requires `3600 <= nowSecs < 2^64`. Below 3600 the `u64`
  subtraction underflows: it panics in a debug build and wraps in a release
  build. Neither is modelled.
- `String::from_utf8_lossy` of the keyword and serde's parse of `Search`
  (src/lib.rs:32, 39) are library decoding. The query is a string, and the
  search oracle returns the parsed `Search` or `None`.
- The window filter is applied by the search API, not by `callback`.
  `Feed.InWindow` states its meaning, but the hits the oracle returns are not
  constrained by it.
- The async runtime: everything runs sequentially, as in the source.
