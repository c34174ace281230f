/** The query-to-URL resolver: a free-text query is matched against a static
    keyword table and resolved to the URLs to scrape. */
module GenUrls {
  import opened Common

  /** One row of the keyword table: a keyword and the URLs it contributes. */
  datatype Entry = Entry(keyword: string, urls: seq<string>)

  /** The keyword table, in the order the resolver iterates it. */
  const KeywordToUrls: seq<Entry> := [
    Entry("soccer", ["https://www.espn.com/soccer/", "https://www.bbc.com/sport/football", "https://www.goal.com/"]),
    Entry("basketball", ["https://www.espn.com/nba/", "https://www.nba.com/news", "https://bleacherreport.com/nba"]),
    Entry("tennis", ["https://www.atptour.com/", "https://www.wtatennis.com/", "https://tennis.com/"]),
    Entry("sports betting", ["https://www.sportsbettingdime.com/", "https://www.actionnetwork.com/", "https://www.oddschecker.com/"]),
    Entry("baseball", ["https://www.mlb.com/", "https://www.espn.com/mlb/", "https://bleacherreport.com/mlb"]),
    Entry("football", ["https://www.nfl.com/", "https://www.espn.com/nfl/", "https://www.profootballfocus.com/"]),
    Entry("hockey", ["https://www.nhl.com/", "https://www.espn.com/nhl/", "https://www.hockeybuzz.com/"]),
    Entry("cricket", ["https://www.espncricinfo.com/", "https://www.cricket.com/", "https://www.icc-cricket.com/"]),
    Entry("golf", ["https://www.pgatour.com/", "https://www.golfchannel.com/", "https://www.espn.com/golf/"]),
    Entry("mma", ["https://www.ufc.com/", "https://www.mmafighting.com/", "https://www.espn.com/mma/"])
  ]

  /** The URLs returned when no keyword occurs in the query. */
  const Fallback: seq<string> := ["https://www.sportsbettingdime.com/", "https://www.actionnetwork.com/"]

  /** `needle` occurs in `hay` starting at position `i`. */
  ghost predicate OccursAt(hay: string, needle: string, i: int) {
    0 <= i && i + |needle| <= |hay| && hay[i..i + |needle|] == needle
  }

  /** Python's substring test `needle in hay`. */
  function Contains(hay: string, needle: string): (b: bool)
    ensures b ==> |needle| <= |hay|
    ensures needle == [] ==> b
    decreases |hay|
  {
    if |needle| > |hay| then false
    else if hay[..|needle|] == needle then true
    else Contains(hay[1..], needle)
  }

  lemma {:induction false} ContainsIffOccurs(hay: string, needle: string)
    ensures Contains(hay, needle) <==> exists i :: OccursAt(hay, needle, i)
    decreases |hay|
  {
    if |needle| > |hay| {
    } else if hay[..|needle|] == needle {
      assert OccursAt(hay, needle, 0);
    } else {
      var tail := hay[1..];
      ContainsIffOccurs(tail, needle);
      if Contains(tail, needle) {
        var i :| OccursAt(tail, needle, i);
        assert hay[i + 1..i + 1 + |needle|] == tail[i..i + |needle|];
        assert OccursAt(hay, needle, i + 1);
      }
      if i :| OccursAt(hay, needle, i) {
        assert i != 0;
        assert tail[i - 1..i - 1 + |needle|] == hay[i..i + |needle|];
        assert OccursAt(tail, needle, i - 1);
      }
    }
  }

  /** The keyword of `e` occurs in the lower-cased query. */
  predicate Matches(e: Entry, queryLower: string) {
    Contains(queryLower, e.keyword)
  }

  /** The URLs of every matching entry of `table`, concatenated in table order. */
  function MatchedUrls(table: seq<Entry>, queryLower: string): seq<string> {
    if table == [] then []
    else
      var last := table[|table| - 1];
      MatchedUrls(table[..|table| - 1], queryLower) + (if Matches(last, queryLower) then last.urls else [])
  }

  /** The positions in `table` of the matching entries, in increasing order. */
  function MatchedIndices(table: seq<Entry>, queryLower: string): (r: seq<nat>)
    ensures forall k :: 0 <= k < |r| ==> r[k] < |table|
  {
    if table == [] then []
    else
      MatchedIndices(table[..|table| - 1], queryLower)
        + (if Matches(table[|table| - 1], queryLower) then [|table| - 1] else [])
  }

  /** What `generate_urls_from_query` returns for `query`. */
  function Resolve(query: string): (r: seq<string>)
    ensures r != []
  {
    var matched := MatchedUrls(KeywordToUrls, Lower(query));
    if matched == [] then Fallback else matched
  }

  /** `generate_urls_from_query`: extend the result with the URLs of every keyword found
      in the lower-cased query, then fall back to the default list if nothing matched. */
  method GenerateUrlsFromQuery(query: string) returns (urls: seq<string>)
    ensures urls == Resolve(query)
  {
    var queryLower := Lower(query);
    urls := [];
    for i := 0 to |KeywordToUrls|
      invariant urls == MatchedUrls(KeywordToUrls[..i], queryLower)
    {
      var entry := KeywordToUrls[i];
      assert KeywordToUrls[..i + 1][..i] == KeywordToUrls[..i];
      if Contains(queryLower, entry.keyword) {
        urls := urls + entry.urls;
      }
    }
    assert KeywordToUrls[..|KeywordToUrls|] == KeywordToUrls;
    if urls == [] {
      urls := Fallback;
    }
  }

  // ---------------------------------------------------------------------------
  // Properties of the resolver

  /** An entry of `table` is matched exactly when its keyword occurs in the query,
      and matched positions are listed in strictly increasing (table) order. */
  lemma {:induction false} MatchedIndicesSpec(table: seq<Entry>, queryLower: string)
    ensures forall i: nat :: i in MatchedIndices(table, queryLower) <==> i < |table| && Matches(table[i], queryLower)
    ensures forall a, b :: 0 <= a < b < |MatchedIndices(table, queryLower)| ==>
              MatchedIndices(table, queryLower)[a] < MatchedIndices(table, queryLower)[b]
  {
    if table != [] {
      var init := table[..|table| - 1];
      MatchedIndicesSpec(init, queryLower);
      forall i: nat | i < |init| ensures table[i] == init[i] { }
    }
  }

  /** Each entry of the keyword table carries three URLs. */
  predicate ThreeUrlsEach(table: seq<Entry>) {
    forall k :: 0 <= k < |table| ==> |table[k].urls| == 3
  }

  /** With three URLs per entry, the matched URLs are laid out three by three:
      block `j` is the URL list of the `j`-th matched entry, without de-duplication. */
  lemma {:induction false} MatchedUrlsLayout(table: seq<Entry>, queryLower: string)
    requires ThreeUrlsEach(table)
    ensures |MatchedUrls(table, queryLower)| == 3 * |MatchedIndices(table, queryLower)|
    ensures forall j, m :: 0 <= j < |MatchedIndices(table, queryLower)| && 0 <= m < 3 ==>
              MatchedUrls(table, queryLower)[3 * j + m] == table[MatchedIndices(table, queryLower)[j]].urls[m]
  {
    if table != [] {
      var init := table[..|table| - 1];
      assert ThreeUrlsEach(init) by {
        forall k | 0 <= k < |init| ensures |init[k].urls| == 3 {
          assert init[k] == table[k];
        }
      }
      MatchedUrlsLayout(init, queryLower);
      var mi, mu := MatchedIndices(table, queryLower), MatchedUrls(table, queryLower);
      var miInit, muInit := MatchedIndices(init, queryLower), MatchedUrls(init, queryLower);
      forall j, m | 0 <= j < |mi| && 0 <= m < 3
        ensures mu[3 * j + m] == table[mi[j]].urls[m]
      {
        if j < |miInit| {
          assert mi[j] == miInit[j];
          assert mu[3 * j + m] == muInit[3 * j + m];
          assert init[miInit[j]] == table[miInit[j]];
        }
      }
    }
  }

  lemma KeywordTableShape()
    ensures ThreeUrlsEach(KeywordToUrls)
    ensures forall k :: 0 <= k < |KeywordToUrls| ==> IsLower(KeywordToUrls[k].keyword)
  {
    KeywordsLowerCase();
  }

  lemma KeywordsLowerCase()
    ensures forall k :: 0 <= k < |KeywordToUrls| ==> IsLower(KeywordToUrls[k].keyword)
  {
  }

  /** The result length is three per matched keyword, or two when nothing matched. */
  lemma ResolveLength(query: string)
    ensures var n := |MatchedIndices(KeywordToUrls, Lower(query))|;
            |Resolve(query)| == if n > 0 then 3 * n else 2
  {
    KeywordTableShape();
    MatchedUrlsLayout(KeywordToUrls, Lower(query));
  }

  /** The fallback is returned exactly when no keyword occurs in the lower-cased query. */
  lemma ResolveFallback(query: string)
    ensures Resolve(query) == Fallback <==> MatchedIndices(KeywordToUrls, Lower(query)) == []
  {
    KeywordTableShape();
    MatchedUrlsLayout(KeywordToUrls, Lower(query));
  }

  /** With at least one match, URL `3 * j + m` of the result is URL `m` of the `j`-th
      matched keyword; together with `MatchedIndicesSpec` this says the result is the
      concatenation, in table order, of the URL lists of exactly the keywords found. */
  lemma ResolveConcatenation(query: string)
    ensures var mi := MatchedIndices(KeywordToUrls, Lower(query));
            mi != [] ==>
              |Resolve(query)| == 3 * |mi| &&
              forall j, m :: 0 <= j < |mi| && 0 <= m < 3 ==>
                Resolve(query)[3 * j + m] == KeywordToUrls[mi[j]].urls[m]
  {
    KeywordTableShape();
    MatchedUrlsLayout(KeywordToUrls, Lower(query));
  }

  /** Every URL the resolver returns is listed in the keyword table. */
  lemma {:induction false} MatchedUrlsFromTable(table: seq<Entry>, queryLower: string, url: string)
    requires url in MatchedUrls(table, queryLower)
    ensures exists k :: 0 <= k < |table| && url in table[k].urls
  {
    if table != [] {
      var init := table[..|table| - 1];
      if url in MatchedUrls(init, queryLower) {
        MatchedUrlsFromTable(init, queryLower, url);
        var k :| 0 <= k < |init| && url in init[k].urls;
        assert table[k] == init[k];
      } else {
        assert url in table[|table| - 1].urls;
      }
    }
  }

  lemma ResolveFromTable(query: string, url: string)
    requires url in Resolve(query)
    ensures exists k :: 0 <= k < |KeywordToUrls| && url in KeywordToUrls[k].urls
  {
    if MatchedUrls(KeywordToUrls, Lower(query)) == [] {
      assert url in KeywordToUrls[3].urls;
    } else {
      MatchedUrlsFromTable(KeywordToUrls, Lower(query), url);
    }
  }

  /** The fallback URLs are the first two URLs of the 'sports betting' entry. */
  lemma FallbackIsSportsBetting()
    ensures KeywordToUrls[3].keyword == "sports betting"
    ensures Fallback == KeywordToUrls[3].urls[..2]
  {
  }

  /** A slice of `query` starting at `i` lower-cases to `keyword`. */
  ghost predicate OccursIgnoringCase(query: string, keyword: string, i: int) {
    0 <= i && i + |keyword| <= |query| && Lower(query[i..i + |keyword|]) == keyword
  }

  /** Matching ignores the case of the query: a lower-case keyword is matched exactly
      when some slice of the query lower-cases to it. */
  lemma CaseInsensitiveMatch(query: string, keyword: string)
    requires IsLower(keyword)
    ensures Contains(Lower(query), keyword) <==> exists i :: OccursIgnoringCase(query, keyword, i)
  {
    ContainsIffOccurs(Lower(query), keyword);
    if Contains(Lower(query), keyword) {
      var i :| OccursAt(Lower(query), keyword, i);
      LowerSlice(query, i, i + |keyword|);
      assert OccursIgnoringCase(query, keyword, i);
    }
    if i :| OccursIgnoringCase(query, keyword, i) {
      LowerSlice(query, i, i + |keyword|);
      assert OccursAt(Lower(query), keyword, i);
    }
  }

  /** Queries that agree up to case resolve to the same URLs. */
  lemma ResolveIgnoresCase(q1: string, q2: string)
    requires Lower(q1) == Lower(q2)
    ensures Resolve(q1) == Resolve(q2)
  {
  }

  // ---------------------------------------------------------------------------
  // Worked examples

  /** A keyword that holds a character absent from the query cannot match. */
  lemma {:induction false} MissingCharNoMatch(hay: string, needle: string, k: nat)
    requires k < |needle| && needle[k] !in hay
    ensures !Contains(hay, needle)
  {
    ContainsIffOccurs(hay, needle);
  }

  lemma {:induction false} PresentMatches(hay: string, needle: string, i: nat)
    requires OccursAt(hay, needle, i)
    ensures Contains(hay, needle)
  {
    ContainsIffOccurs(hay, needle);
  }

  lemma NoMemberMeansEmpty(s: seq<nat>)
    ensures (forall i: nat :: i !in s) ==> s == []
  {
    if s != [] {
      assert s[0] in s;
    }
  }

  lemma OneMemberMeansSingleton(s: seq<nat>, x: nat)
    ensures (forall i: nat :: i in s <==> i == x) && (forall a, b :: 0 <= a < b < |s| ==> s[a] < s[b]) ==> s == [x]
  {
    if (forall i: nat :: i in s <==> i == x) && (forall a, b :: 0 <= a < b < |s| ==> s[a] < s[b]) {
      assert x in s;
      FirstTwoMembers(s);
      if |s| > 1 {
        assert false;
      }
    }
  }

  lemma FirstTwoMembers(s: seq<nat>)
    ensures |s| > 1 ==> s[0] in s && s[1] in s
  {
  }

  /** When no keyword occurs in the lower-cased query, the fallback list is returned. */
  lemma NoMatchFallsBack(query: string)
    requires forall k :: 0 <= k < |KeywordToUrls| ==> !Matches(KeywordToUrls[k], Lower(query))
    ensures Resolve(query) == Fallback
  {
    MatchedIndicesSpec(KeywordToUrls, Lower(query));
    NoMemberMeansEmpty(MatchedIndices(KeywordToUrls, Lower(query)));
    ResolveFallback(query);
  }

  /** No keyword of the table occurs in "chess": each holds a letter it lacks. */
  lemma ChessHoldsNoKeyword(k: nat)
    requires k < |KeywordToUrls|
    ensures !Matches(KeywordToUrls[k], "chess")
  {
    if k < 5 {
      ChessHoldsNoEarlyKeyword(k);
    } else {
      ChessHoldsNoLateKeyword(k);
    }
  }

  lemma ChessHoldsNoEarlyKeyword(k: nat)
    requires k < 5
    ensures !Matches(KeywordToUrls[k], "chess")
  {
    var q := "chess";
    var e := KeywordToUrls[k];
    if k == 0 { MissingCharNoMatch(q, e.keyword, 1); }
    else if k == 1 { MissingCharNoMatch(q, e.keyword, 0); }
    else if k == 2 { MissingCharNoMatch(q, e.keyword, 0); }
    else if k == 3 { MissingCharNoMatch(q, e.keyword, 1); }
    else { MissingCharNoMatch(q, e.keyword, 0); }
  }

  lemma ChessHoldsNoLateKeyword(k: nat)
    requires 5 <= k < |KeywordToUrls|
    ensures !Matches(KeywordToUrls[k], "chess")
  {
    var q := "chess";
    var e := KeywordToUrls[k];
    if k == 5 { MissingCharNoMatch(q, e.keyword, 0); }
    else if k == 6 { MissingCharNoMatch(q, e.keyword, 1); }
    else if k == 7 { MissingCharNoMatch(q, e.keyword, 1); }
    else if k == 8 { MissingCharNoMatch(q, e.keyword, 0); }
    else { MissingCharNoMatch(q, e.keyword, 0); }
  }

  /** A query about a sport the table does not list, "chess" in any letter case, gets the
      fallback list. */
  lemma UnlistedSportFallsBack(query: string)
    requires Lower(query) == "chess"
    ensures Resolve(query) == Fallback
  {
    forall k | 0 <= k < |KeywordToUrls| ensures !Matches(KeywordToUrls[k], Lower(query)) {
      ChessHoldsNoKeyword(k);
    }
    NoMatchFallsBack(query);
  }

  /** In "golf" only the keyword 'golf' occurs. */
  lemma GolfHoldsOneKeyword(k: nat)
    requires k < |KeywordToUrls|
    ensures Matches(KeywordToUrls[k], "golf") <==> k == 8
  {
    var q := "golf";
    var e := KeywordToUrls[k];
    if k == 0 { MissingCharNoMatch(q, e.keyword, 0); }
    else if k == 1 { MissingCharNoMatch(q, e.keyword, 0); }
    else if k == 2 { MissingCharNoMatch(q, e.keyword, 0); }
    else if k == 3 { MissingCharNoMatch(q, e.keyword, 0); }
    else if k == 4 { MissingCharNoMatch(q, e.keyword, 0); }
    else if k == 5 { MissingCharNoMatch(q, e.keyword, 3); }
    else if k == 6 { MissingCharNoMatch(q, e.keyword, 0); }
    else if k == 7 { MissingCharNoMatch(q, e.keyword, 0); }
    else if k == 8 { PresentMatches(q, e.keyword, 0); }
    else { MissingCharNoMatch(q, e.keyword, 0); }
  }

  /** In "golf" exactly the 'golf' entry is selected. */
  lemma GolfSelectsOnlyGolf()
    ensures MatchedIndices(KeywordToUrls, "golf") == [8]
  {
    var q := "golf";
    MatchedIndicesSpec(KeywordToUrls, q);
    var mi := MatchedIndices(KeywordToUrls, q);
    forall i: nat ensures i in mi <==> i == 8 {
      if i < |KeywordToUrls| { GolfHoldsOneKeyword(i); }
    }
    OneMemberMeansSingleton(mi, 8);
  }

  /** "golf", in any letter case ("GOLF", "Golf", ...), resolves to exactly the three
      'golf' URLs. */
  lemma GolfQuery(query: string)
    requires Lower(query) == "golf"
    ensures Resolve(query) == KeywordToUrls[8].urls
  {
    GolfSelectsOnlyGolf();
    SingleMatch(query, 8);
  }

  /** A query that selects exactly one keyword gets exactly that keyword's URLs. */
  lemma SingleMatch(query: string, k: nat)
    requires k < |KeywordToUrls| && MatchedIndices(KeywordToUrls, Lower(query)) == [k]
    ensures Resolve(query) == KeywordToUrls[k].urls
  {
    KeywordTableShape();
    SingleMatchIn(KeywordToUrls, Lower(query), k);
  }

  /** In any table of three-URL entries, selecting exactly entry `k` gathers exactly its URLs. */
  lemma SingleMatchIn(table: seq<Entry>, queryLower: string, k: nat)
    requires ThreeUrlsEach(table)
    requires k < |table| && MatchedIndices(table, queryLower) == [k]
    ensures MatchedUrls(table, queryLower) == table[k].urls
  {
    MatchedUrlsLayout(table, queryLower);
    var r := MatchedUrls(table, queryLower);
    assert MatchedIndices(table, queryLower)[0] == k;
    forall m | 0 <= m < 3 ensures r[m] == table[k].urls[m] {
      assert r[3 * 0 + m] == table[k].urls[m];
    }
  }

  /** The two-word keyword needs its space: a query without a space, such as
      "SportsBetting", never selects the 'sports betting' entry. */
  lemma SportsBettingNeedsSpace(query: string)
    requires ' ' !in query
    ensures KeywordToUrls[3].keyword == "sports betting"
    ensures !Matches(KeywordToUrls[3], Lower(query))
  {
    assert ' ' !in Lower(query);
    MissingCharNoMatch(Lower(query), "sports betting", 6);
  }
}
