/**
 * The design catalog and its search page: a stable, case-insensitive
 * substring filter over each design's name and reference id.
 */
module Designs {
  import opened Wrappers
  import opened Text

  /** A catalog entry: a garment template and the measurements it needs. */
  datatype Design = Design(
    id: string,
    name: string,
    image: string,
    measurements: seq<string>,
    category: string)

  /**
   * The search predicate: the lower-cased query is included in the
   * lower-cased name or in the lower-cased id.
   */
  predicate Matches(d: Design, query: string) {
    Includes(Lower(d.name), Lower(query)) || Includes(Lower(d.id), Lower(query))
  }

  /** `designs.filter(design => Matches(design, query))`. */
  function Filter(designs: seq<Design>, query: string): (r: seq<Design>)
    ensures |r| <= |designs|
    ensures forall d :: d in r ==> d in designs && Matches(d, query)
    decreases |designs|
  {
    if designs == [] then []
    else (if Matches(designs[0], query) then [designs[0]] else []) + Filter(designs[1..], query)
  }

  /** `a` is obtained from `b` by deleting elements, without reordering. */
  predicate IsSubsequence<T(==)>(a: seq<T>, b: seq<T>)
    decreases |b|
  {
    if a == [] then true
    else if b == [] then false
    else (a[0] == b[0] && IsSubsequence(a[1..], b[1..])) || IsSubsequence(a, b[1..])
  }

  /** A design matches iff the lower-cased query is a substring of its lower-cased name or id. */
  lemma MatchesIsSubstring(d: Design, query: string)
    ensures Matches(d, query) <==>
      IsSubstring(Lower(query), Lower(d.name)) || IsSubstring(Lower(query), Lower(d.id))
  {
    IncludesIsSubstring(Lower(d.name), Lower(query));
    IncludesIsSubstring(Lower(d.id), Lower(query));
  }

  /** The result keeps catalog order: it is a subsequence of the catalog. */
  lemma {:induction false} FilterIsSubsequence(designs: seq<Design>, query: string)
    ensures IsSubsequence(Filter(designs, query), designs)
    decreases |designs|
  {
    if designs != [] {
      var r := Filter(designs, query);
      var rest := Filter(designs[1..], query);
      FilterIsSubsequence(designs[1..], query);
      if Matches(designs[0], query) {
        assert r == [designs[0]] + rest;
        assert r[1..] == rest;
      } else {
        assert r == rest;
        if r != [] {
          assert r[0] in rest;
        }
      }
    }
  }

  /**
   * The result holds every matching design exactly as often as the catalog
   * does, and no other design.
   */
  lemma {:induction false} FilterCount(designs: seq<Design>, query: string, d: Design)
    ensures multiset(Filter(designs, query))[d] ==
      if Matches(d, query) then multiset(designs)[d] else 0
    decreases |designs|
  {
    if designs != [] {
      FilterCount(designs[1..], query, d);
      assert designs == [designs[0]] + designs[1..];
    }
  }

  /** When every design matches, the filter keeps the whole catalog. */
  lemma {:induction false} FilterAllMatch(designs: seq<Design>, query: string)
    requires forall d :: d in designs ==> Matches(d, query)
    ensures Filter(designs, query) == designs
    decreases |designs|
  {
    if designs != [] {
      FilterAllMatch(designs[1..], query);
    }
  }

  /** The empty query (the initial state and "Show All Designs") shows the whole catalog. */
  lemma FilterEmptyQuery(designs: seq<Design>)
    ensures Filter(designs, "") == designs
  {
  }

  /** Filtering the result again with the same query changes nothing. */
  lemma FilterIdempotent(designs: seq<Design>, query: string)
    ensures Filter(Filter(designs, query), query) == Filter(designs, query)
  {
    FilterAllMatch(Filter(designs, query), query);
  }

  /** Two queries that differ only in letter case give the same result. */
  lemma {:induction false} FilterCaseInsensitive(designs: seq<Design>, q1: string, q2: string)
    requires Lower(q1) == Lower(q2)
    ensures Filter(designs, q1) == Filter(designs, q2)
    decreases |designs|
  {
    if designs != [] {
      FilterCaseInsensitive(designs[1..], q1, q2);
    }
  }

  /** In particular, searching for the lower-cased query is the same search. */
  lemma FilterLowerQuery(designs: seq<Design>, query: string)
    ensures Filter(designs, Lower(query)) == Filter(designs, query)
  {
    LowerIdempotent(query);
    FilterCaseInsensitive(designs, Lower(query), query);
  }

  /** The noun after the result count: singular exactly when one design is shown. */
  function CountNoun(count: nat): (w: string)
    ensures w == "design" || w == "designs"
    ensures w == "design" <==> count == 1
  {
    if count != 1 then "designs" else "design"
  }

  /** The query the page starts with: the URL's `search` parameter when it is non-empty. */
  function InitialQuery(urlSearch: Option<string>): (q: string)
    ensures urlSearch.None? ==> q == ""
    ensures urlSearch.Some? ==> q == urlSearch.value
  {
    match urlSearch
    case Some(s) => if s != "" then s else ""
    case None => ""
  }

  /**
   * The search page's state: the catalog and the query typed so far.
   * The shown designs are recomputed from both whenever either changes.
   */
  datatype SearchPage = SearchPage(designs: seq<Design>, query: string) {

    function Shown(): seq<Design> {
      Filter(designs, query)
    }

    /** "No designs found matching your search." with its reset button. */
    predicate ShowsNoResults() {
      |Shown()| == 0
    }

    /** The input's change handler. */
    function Type(q: string): (p: SearchPage)
      ensures p.designs == designs && p.query == q
    {
      this.(query := q)
    }

    /** The "Show All Designs" button: clear the query. */
    function ShowAll(): (p: SearchPage)
      ensures p.designs == designs && p.query == ""
    {
      this.(query := "")
    }
  }

  /** The page as first rendered, from the catalog and the URL parameter. */
  function OpenPage(designs: seq<Design>, urlSearch: Option<string>): (p: SearchPage)
    ensures p.designs == designs
    ensures p.query == InitialQuery(urlSearch)
    ensures urlSearch.None? ==> p.Shown() == designs
    ensures urlSearch.Some? ==> p.Shown() == Filter(designs, urlSearch.value)
  {
    FilterEmptyQuery(designs);
    SearchPage(designs, InitialQuery(urlSearch))
  }

  /** After "Show All Designs" every catalog design is shown again, in order. */
  lemma ShowAllShowsCatalog(p: SearchPage)
    ensures p.ShowAll().Shown() == p.designs
    ensures p.designs != [] ==> !p.ShowAll().ShowsNoResults()
  {
    FilterEmptyQuery(p.designs);
  }

  /** The no-results block appears iff no catalog design matches the query. */
  lemma {:induction false} NoResultsIffNoMatch(p: SearchPage)
    ensures p.ShowsNoResults() <==> forall d :: d in p.designs ==> !Matches(d, p.query)
  {
    if !p.ShowsNoResults() {
      assert p.Shown()[0] in p.Shown();
    }
    forall d | d in p.designs && Matches(d, p.query) ensures d in p.Shown() {
      FilterCount(p.designs, p.query, d);
      assert d in multiset(p.Shown());
    }
  }

  /** The first two designs of the sample catalog. */
  const Gown := Design("RN001", "Elegant Evening Gown", "/placeholder.svg",
    ["Bust", "Waist", "Hip", "Length", "Shoulder Width"], "Evening Wear")
  const Blouse := Design("RN002", "Traditional Saree Blouse", "/placeholder.svg",
    ["Bust", "Waist", "Blouse Length", "Sleeve Length", "Shoulder Width"], "Traditional")

  /** Searching "rn00" finds both entries through their ids, in catalog order. */
  lemma SearchByIdPrefix()
    ensures Filter([Gown, Blouse], "rn00") == [Gown, Blouse]
  {
    assert Lower("rn00") == "rn00";
    assert Lower(Gown.id)[..4] == "rn00";
    assert Lower(Blouse.id)[..4] == "rn00";
    FilterAllMatch([Gown, Blouse], "rn00");
  }
}
