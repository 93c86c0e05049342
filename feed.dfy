/** The search side of `callback` (src/lib.rs): the records the search API
    returns, the poll watermark, the search URL carrying it, and the canonical
    discussion-post URL of a hit. */
module Feed {
  import opened Wrappers

  /** One search hit (`Hit`); `createdAt` is `created_at_i`, an `i64` of seconds. */
  datatype Hit = Hit(title: string, url: Option<string>, objectId: string, author: string, createdAt: int)

  /** The search response (`Search`). */
  datatype Search = Search(hits: seq<Hit>)

  /** The lookback window of one poll, in seconds. */
  const LookbackSecs: nat := 3600

  /** `u64` values are those below this bound. */
  const U64Limit: nat := 0x1_0000_0000_0000_0000

  /** `dura`: the watermark of a poll at `nowSecs` seconds since the epoch. The
      `u64` subtraction needs `nowSecs >= LookbackSecs`. */
  function Watermark(nowSecs: nat): (dura: nat)
    requires LookbackSecs <= nowSecs < U64Limit
    ensures dura < U64Limit
    ensures dura + LookbackSecs == nowSecs
  {
    nowSecs - LookbackSecs
  }

  /** The numeric filter `created_at_i>{dura}`: strictly after the watermark. */
  predicate InWindow(hit: Hit, dura: nat)
  {
    hit.createdAt > dura
  }

  /** The poll window is exactly the last `LookbackSecs` seconds, less its first
      instant: a hit created at the watermark itself is not in it. */
  lemma WindowIsStrict(hit: Hit, nowSecs: nat)
    requires LookbackSecs <= nowSecs < U64Limit
    ensures InWindow(hit, Watermark(nowSecs)) <==> nowSecs - hit.createdAt < LookbackSecs
  {
  }

  predicate IsDigit(c: char)
  {
    '0' <= c <= '9'
  }

  /** The decimal rendering `{dura}` of a number in `format!`. */
  function Decimal(n: nat): (s: string)
    ensures |s| > 0
    ensures forall i :: 0 <= i < |s| ==> IsDigit(s[i])
    ensures s[0] == '0' ==> n == 0
    decreases n
  {
    if n < 10 then [('0' as int + n) as char]
    else Decimal(n / 10) + [('0' as int + n % 10) as char]
  }

  function DigitsValue(s: string): nat
    requires forall i :: 0 <= i < |s| ==> IsDigit(s[i])
  {
    if |s| == 0 then 0
    else
      assert IsDigit(s[|s| - 1]);
      10 * DigitsValue(s[..|s| - 1]) + (s[|s| - 1] as int - '0' as int)
  }

  /** The number a decimal string stands for, as the search API reads it. */
  function ParseDecimal(s: string): Option<nat>
  {
    if |s| > 0 && forall i :: 0 <= i < |s| ==> IsDigit(s[i]) then Some(DigitsValue(s)) else None
  }

  /** Rendering a number in decimal and reading it back gives the number. */
  lemma {:induction false} DecimalRoundTrip(n: nat)
    ensures ParseDecimal(Decimal(n)) == Some(n)
    decreases n
  {
    var s := Decimal(n);
    if n >= 10 {
      DecimalRoundTrip(n / 10);
      assert s[..|s| - 1] == Decimal(n / 10);
      assert DigitsValue(s[..|s| - 1]) == n / 10;
      assert s[|s| - 1] as int - '0' as int == n % 10;
      assert DigitsValue(s) == 10 * (n / 10) + n % 10;
    }
  }

  const SearchLead: string := "https://hn.algolia.com/api/v1/search_by_date?tags=story&query="
  const FilterLead: string := "&numericFilters=created_at_i>"

  /** The search request of one poll: stories matching `query`, created after `dura`. */
  function SearchUrl(query: string, dura: nat): (url: string)
    ensures var k := |SearchLead| + |query|;
      && |url| == k + |FilterLead| + |Decimal(dura)|
      && url[..|SearchLead|] == SearchLead
      && url[|SearchLead|..k] == query
      && url[k..k + |FilterLead|] == FilterLead
      && url[k + |FilterLead|..] == Decimal(dura)
  {
    SearchLead + query + FilterLead + Decimal(dura)
  }

  /** The number after `created_at_i>` in the search URL is the watermark. */
  lemma SearchUrlCarriesWatermark(query: string, nowSecs: nat)
    requires LookbackSecs <= nowSecs < U64Limit
    ensures var url := SearchUrl(query, Watermark(nowSecs));
            var k := |SearchLead + query + FilterLead|;
            k <= |url| && ParseDecimal(url[k..]) == Some(nowSecs - LookbackSecs)
  {
    var dura := Watermark(nowSecs);
    var url := SearchUrl(query, dura);
    var lead := SearchLead + query + FilterLead;
    assert url == lead + Decimal(dura);
    assert url[|lead|..] == Decimal(dura);
    DecimalRoundTrip(dura);
  }

  const PostLead: string := "https://news.ycombinator.com/item?id="

  /** `post`: the canonical discussion-post URL of a hit. */
  function PostUrl(objectId: string): (u: string)
    ensures |u| == |PostLead| + |objectId|
    ensures u[..|PostLead|] == PostLead && u[|PostLead|..] == objectId
  {
    PostLead + objectId
  }

  /** Distinct hits have distinct post URLs. */
  lemma PostUrlInjective(a: string, b: string)
    requires PostUrl(a) == PostUrl(b)
    ensures a == b
  {
    assert a == PostUrl(a)[|PostLead|..];
  }
}
