/**
 `scanOrQueryPage`: cursor paging over a database that filters and projects rows and may stop a response
 wherever it likes, against the simple view of one filtered sequence. The token of a full page is cut out
 of its last item, and the database refuses a start key that has not exactly its key attributes.
 */
module Paging {
  import opened Arithmetic
  import opened Options
  import opened Sequences

  /** A row, an item of a response, or a key: values by attribute name. */
  type Attributes = map<string, string>

  function Restrict(a: Attributes, names: set<string>): Attributes {
    map name | name in a && name in names :: a[name]
  }

  /**
   The table or index that is read, in its order, with the filter and projection of the request.
   `keyNames` are its key attributes, and `rank` is the order they stand in.
   */
  datatype Source = Source(
    rows: seq<Attributes>, keyNames: set<string>, rank: Attributes -> int,
    keep: Attributes -> bool, projection: Option<set<string>>)

  function KeyOf(t: Source, row: Attributes): Attributes {
    Restrict(row, t.keyNames)
  }

  /** Every row has all key attributes, and they order the rows. */
  ghost predicate Sorted(t: Source) {
    && (forall i :: 0 <= i < |t.rows| ==> t.keyNames <= t.rows[i].Keys)
    && (forall i, j :: 0 <= i < j < |t.rows| ==> t.rank(KeyOf(t, t.rows[i])) < t.rank(KeyOf(t, t.rows[j])))
  }

  /** A row as the response shows it. */
  function Project(t: Source, row: Attributes): Attributes {
    if t.projection.Some? then Restrict(row, t.projection.value) else row
  }

  function ProjectAll(t: Source, rows: seq<Attributes>): (items: seq<Attributes>)
    ensures |items| == |rows|
  {
    seq(|rows|, i requires 0 <= i < |rows| => Project(t, rows[i]))
  }

  lemma ProjectConcat(t: Source, a: seq<Attributes>, b: seq<Attributes>)
    ensures ProjectAll(t, a + b) == ProjectAll(t, a) + ProjectAll(t, b)
  {
  }

  predicate IsStartKey(t: Source, start: Option<Attributes>) {
    start.Some? ==> start.value.Keys == t.keyNames
  }

  /** The rows from lo up to hi that the filter keeps, in order. */
  function Filter(t: Source, lo: nat, hi: nat): (r: seq<Attributes>)
    requires lo <= hi <= |t.rows|
    ensures |r| <= hi - lo
    decreases hi - lo
  {
    if lo == hi then []
    else Filter(t, lo, hi - 1) + if t.keep(t.rows[hi - 1]) then [t.rows[hi - 1]] else []
  }

  /** The filtered rows are those that the filter keeps: all of them, in their order, and no other. */
  lemma {:induction false} FilteredPositions(t: Source, lo: nat, hi: nat) returns (positions: seq<nat>)
    requires lo <= hi <= |t.rows|
    ensures |positions| == |Filter(t, lo, hi)|
    ensures forall j :: 0 <= j < |positions| ==>
              && lo <= positions[j] < hi && t.keep(t.rows[positions[j]])
              && Filter(t, lo, hi)[j] == t.rows[positions[j]]
    ensures forall i, j :: 0 <= i < j < |positions| ==> positions[i] < positions[j]
    ensures forall i: nat :: lo <= i < hi && t.keep(t.rows[i]) ==> i in positions
    decreases hi - lo
  {
    if lo == hi {
      positions := [];
    } else {
      positions := FilteredPositions(t, lo, hi - 1);
      positions := positions + if t.keep(t.rows[hi - 1]) then [hi - 1] else [];
    }
  }

  lemma {:induction false} FilterSplit(t: Source, lo: nat, mid: nat, hi: nat)
    requires lo <= mid <= hi <= |t.rows|
    ensures Filter(t, lo, hi) == Filter(t, lo, mid) + Filter(t, mid, hi)
    decreases hi - mid
  {
    if mid < hi {
      FilterSplit(t, lo, mid, hi - 1);
    }
  }

  /** Where reading resumes after a start key, looking from row i on. */
  function PositionFrom(t: Source, start: Attributes, i: nat): (p: nat)
    requires i <= |t.rows|
    ensures i <= p <= |t.rows|
    decreases |t.rows| - i
  {
    if i == |t.rows| || t.rank(KeyOf(t, t.rows[i])) > t.rank(start) then i else PositionFrom(t, start, i + 1)
  }

  function PositionAfter(t: Source, start: Option<Attributes>): (p: nat)
    ensures p <= |t.rows|
  {
    if start.None? then 0 else PositionFrom(t, start.value, 0)
  }

  lemma {:induction false} PositionFromRow(t: Source, i: nat, j: nat)
    requires Sorted(t) && i <= j < |t.rows|
    ensures PositionFrom(t, KeyOf(t, t.rows[j]), i) == j + 1
    decreases j - i
  {
    if i < j {
      PositionFromRow(t, i + 1, j);
    } else if j + 1 < |t.rows| {
      assert t.rank(KeyOf(t, t.rows[j])) < t.rank(KeyOf(t, t.rows[j + 1]));
    }
  }

  /** The simple view: every row past the start key that the filter keeps. */
  function Matching(t: Source, start: Option<Attributes>): seq<Attributes> {
    Filter(t, PositionAfter(t, start), |t.rows|)
  }

  // ---------------------------------------------------------------- one page

  /** One response: a refusal, or the kept rows among those read, and where to resume if there may be more. */
  datatype Response = Refused | Answered(items: seq<Attributes>, lastEvaluatedKey: Option<Attributes>)

  ghost predicate Legal(t: Source, limit: nat, start: Option<Attributes>, r: Response) {
    if !IsStartKey(t, start) then r.Refused?
    else r.Answered? && exists end: nat :: LegalUpTo(t, limit, start, end, r)
  }

  /** Up to `limit` rows were read, at least one if there may be more, and all if there is no more. */
  ghost predicate LegalUpTo(t: Source, limit: nat, start: Option<Attributes>, end: nat, r: Response)
    requires r.Answered?
  {
    var p := PositionAfter(t, start);
    && p <= end <= |t.rows| && end - p <= limit
    && r.items == ProjectAll(t, Filter(t, p, end))
    && (if r.lastEvaluatedKey.Some? then end > p && r.lastEvaluatedKey == Some(KeyOf(t, t.rows[end - 1]))
        else end == |t.rows|)
  }

  /** What a legal response does for the reader: it moves past a stretch of matches, and ends only at the end. */
  lemma LegalAdvances(t: Source, limit: nat, start: Option<Attributes>, r: Response)
    returns (read: seq<Attributes>, left: seq<Attributes>)
    requires Sorted(t) && IsStartKey(t, start) && Legal(t, limit, start, r)
    ensures r.items == ProjectAll(t, read) && Matching(t, start) == read + left
    ensures if r.lastEvaluatedKey.None? then left == []
            else && IsStartKey(t, r.lastEvaluatedKey)
                 && left == Matching(t, r.lastEvaluatedKey)
                 && PositionAfter(t, start) < PositionAfter(t, r.lastEvaluatedKey)
  {
    var p := PositionAfter(t, start);
    var end: nat :| LegalUpTo(t, limit, start, end, r);
    read, left := Filter(t, p, end), Filter(t, end, |t.rows|);
    FilterSplit(t, p, end, |t.rows|);
    if r.lastEvaluatedKey.Some? {
      PositionFromRow(t, 0, end - 1);
    }
  }

  /** The token of a full page: of its last item, the attributes named in `keys`. */
  function Token(t: Source, keys: set<string>, row: Attributes): Attributes {
    Restrict(Project(t, row), keys)
  }

  datatype Page = Page(items: seq<Attributes>, lastEvaluatedKey: Option<Attributes>)

  /** The page that a start key should bring; none if the database refuses it. */
  function PageAfter(t: Source, keys: set<string>, start: Option<Attributes>, pageSize: nat): Option<Page>
    requires pageSize >= 1
  {
    var all := Matching(t, start);
    if !IsStartKey(t, start) then None
    else if pageSize <= |all| then
      Some(Page(ProjectAll(t, all[..pageSize]), Some(Token(t, keys, all[pageSize - 1]))))
    else Some(Page(ProjectAll(t, all), None))
  }

  /** A page with some items before it. */
  function Prepend(items: seq<Attributes>, page: Option<Page>): Option<Page> {
    if page.Some? then Some(page.value.(items := items + page.value.items)) else None
  }

  lemma PrependNothing(page: Option<Page>)
    ensures Prepend([], page) == page
  {
    if page.Some? {
      assert [] + page.value.items == page.value.items;
    }
  }

  lemma PrependTwice(a: seq<Attributes>, b: seq<Attributes>, page: Option<Page>)
    ensures Prepend(a, Prepend(b, page)) == Prepend(a + b, page)
  {
    if page.Some? {
      assert a + (b + page.value.items) == a + b + page.value.items;
    }
  }

  lemma FullResponse(t: Source, keys: set<string>, start: Option<Attributes>, read: seq<Attributes>,
                     left: seq<Attributes>, pageSize: nat)
    requires IsStartKey(t, start) && Matching(t, start) == read + left && 1 <= pageSize <= |read|
    ensures PageAfter(t, keys, start, pageSize) ==
            Some(Page(ProjectAll(t, read)[..pageSize], Some(Restrict(ProjectAll(t, read)[pageSize - 1], keys))))
  {
    assert (read + left)[..pageSize] == read[..pageSize];
    assert ProjectAll(t, read)[..pageSize] == ProjectAll(t, read[..pageSize]);
  }

  lemma ShortResponse(t: Source, keys: set<string>, start: Option<Attributes>, read: seq<Attributes>,
                      next: Option<Attributes>, pageSize: nat)
    requires IsStartKey(t, start) && IsStartKey(t, next)
    requires Matching(t, start) == read + Matching(t, next) && |read| < pageSize
    ensures PageAfter(t, keys, start, pageSize) ==
            Prepend(ProjectAll(t, read), PageAfter(t, keys, next, pageSize - |read|))
  {
    var left, n := Matching(t, next), pageSize - |read|;
    if n <= |left| {
      assert (read + left)[..pageSize] == read + left[..n];
      ProjectConcat(t, read, left[..n]);
    } else {
      ProjectConcat(t, read, left);
    }
  }

  /** What one response does to the page: it fills it, or ends it, or leaves a shorter page to be read. */
  lemma ResponseMovesPage(t: Source, keys: set<string>, start: Option<Attributes>, pageSize: nat, limit: nat,
                          r: Response)
    requires Sorted(t) && pageSize >= 1 && Legal(t, limit, start, r)
    ensures r.Refused? ==> PageAfter(t, keys, start, pageSize) == None
    ensures r.Answered? && pageSize <= |r.items| ==>
              PageAfter(t, keys, start, pageSize) ==
              Some(Page(r.items[..pageSize], Some(Restrict(r.items[pageSize - 1], keys))))
    ensures r.Answered? && |r.items| < pageSize && r.lastEvaluatedKey.None? ==>
              PageAfter(t, keys, start, pageSize) == Some(Page(r.items, None))
    ensures r.Answered? && |r.items| < pageSize && r.lastEvaluatedKey.Some? ==>
              && PageAfter(t, keys, start, pageSize) ==
                 Prepend(r.items, PageAfter(t, keys, r.lastEvaluatedKey, pageSize - |r.items|))
              && PositionAfter(t, start) < PositionAfter(t, r.lastEvaluatedKey)
  {
    if r.Answered? {
      var read, left := LegalAdvances(t, limit, start, r);
      if pageSize <= |read| {
        FullResponse(t, keys, start, read, left, pageSize);
      } else if r.lastEvaluatedKey.Some? {
        ShortResponse(t, keys, start, read, r.lastEvaluatedKey, pageSize);
      } else {
        assert read + left == read;
      }
    }
  }

  class Table {
    const source: Source

    constructor (source: Source)
      requires Sorted(source)
      ensures this.source == source
    {
      this.source := source;
    }

    /** The database: any legal response to the request. */
    method Send(limit: nat, start: Option<Attributes>) returns (r: Response)
      requires limit >= 1 && Sorted(source)
      ensures Legal(source, limit, start, r)
    {
      if start.Some? && start.value.Keys != source.keyNames {
        return Refused;
      }
      var n, p := |source.rows|, PositionAfter(source, start);
      var stop: nat :| p <= stop <= n && stop - p <= limit && (p < n ==> p < stop);
      var more: bool := *;
      r := Answered(ProjectAll(source, Filter(source, p, stop)),
                    if stop < n || (more && p < stop) then Some(KeyOf(source, source.rows[stop - 1])) else None);
      assert LegalUpTo(source, limit, start, stop, r);
    }

    /** `scanOrQueryPage`: reads on until the page is full or the rows run out. `None` where it throws. */
    method ScanOrQueryPage(pageSize: nat, keys: set<string>, exclusiveStartKey: Option<Attributes>)
      returns (page: Option<Page>)
      requires pageSize >= 1 && Sorted(source)
      ensures page == PageAfter(source, keys, exclusiveStartKey, pageSize)
    {
      var items: seq<Attributes> := [];
      var lastEvaluatedKey := exclusiveStartKey;
      PrependNothing(PageAfter(source, keys, exclusiveStartKey, pageSize));
      while true
        invariant |items| < pageSize
        invariant PageAfter(source, keys, exclusiveStartKey, pageSize) ==
                  Prepend(items, PageAfter(source, keys, lastEvaluatedKey, pageSize - |items|))
        decreases |source.rows| - PositionAfter(source, lastEvaluatedKey)
      {
        var result := Send(pageSize * 2, lastEvaluatedKey);
        var leftToTake := pageSize - |items|;
        ResponseMovesPage(source, keys, lastEvaluatedKey, leftToTake, pageSize * 2, result);
        if result.Refused? {
          return None;
        }
        if leftToTake <= |result.items| {
          var lastItem := result.items[leftToTake - 1];
          return Some(Page(items + result.items[..leftToTake], Some(Restrict(lastItem, keys))));
        }
        PrependTwice(items, result.items, PageAfter(source, keys, result.lastEvaluatedKey, leftToTake - |result.items|));
        items := items + result.items;
        if result.lastEvaluatedKey.None? {
          return Some(Page(items, None));
        }
        lastEvaluatedKey := result.lastEvaluatedKey;
      }
    }
  }

  // ---------------------------------------------------------------- following the tokens

  /** The row behind a match: what is kept past that row are the matches past that match. */
  lemma {:induction false} RowOfMatch(t: Source, lo: nat, hi: nat, j: nat) returns (i: nat)
    requires lo <= hi <= |t.rows| && j < |Filter(t, lo, hi)|
    ensures lo <= i < hi && t.rows[i] == Filter(t, lo, hi)[j]
    ensures Filter(t, i + 1, hi) == Filter(t, lo, hi)[j + 1..]
    decreases hi - lo
  {
    if j < |Filter(t, lo, hi - 1)| {
      i := RowOfMatch(t, lo, hi - 1, j);
    } else {
      i := hi - 1;
    }
  }

  /** Of the attributes that come back with the row, `keys` names exactly the key attributes. */
  predicate NamesKey(t: Source, keys: set<string>, row: Attributes) {
    Project(t, row).Keys * keys == t.keyNames
  }

  lemma TokenIsKeyIff(t: Source, keys: set<string>, row: Attributes)
    ensures IsStartKey(t, Some(Token(t, keys, row))) <==> NamesKey(t, keys, row)
    ensures NamesKey(t, keys, row) ==> Token(t, keys, row) == KeyOf(t, row)
  {
    assert Token(t, keys, row).Keys == Project(t, row).Keys * keys;
  }

  /** A token that the database accepts continues after the match it was cut out of. */
  lemma MatchingAfterMatch(t: Source, keys: set<string>, start: Option<Attributes>, j: nat)
    requires Sorted(t) && j < |Matching(t, start)| && NamesKey(t, keys, Matching(t, start)[j])
    ensures Matching(t, Some(Token(t, keys, Matching(t, start)[j]))) == Matching(t, start)[j + 1..]
  {
    var i := RowOfMatch(t, PositionAfter(t, start), |t.rows|, j);
    PositionFromRow(t, 0, i);
    TokenIsKeyIff(t, keys, t.rows[i]);
  }

  /** The pages a client gets that passes each token back until a page comes without one; none if one is refused. */
  ghost function Pages(t: Source, keys: set<string>, start: Option<Attributes>, pageSize: nat): Option<seq<seq<Attributes>>>
    requires pageSize >= 1 && Sorted(t)
    decreases |Matching(t, start)|
  {
    var page, all := PageAfter(t, keys, start, pageSize), Matching(t, start);
    if page.None? then None
    else if page.value.lastEvaluatedKey.None? then Some([page.value.items])
    else if !NamesKey(t, keys, all[pageSize - 1]) then None
    else
      MatchingAfterMatch(t, keys, start, pageSize - 1);
      var rest := Pages(t, keys, page.value.lastEvaluatedKey, pageSize);
      if rest.None? then None else Some([page.value.items] + rest.value)
  }

  /** Division by repeated subtraction, which is how pages are cut off. */
  function CutOff(n: nat, d: nat): (nat, nat)
    requires d >= 1
  {
    if n < d then (0, n) else (1 + CutOff(n - d, d).0, CutOff(n - d, d).1)
  }

  lemma {:induction false} CutOffDivides(n: nat, d: nat)
    requires d >= 1
    ensures CutOff(n, d) == (n / d, n % d)
  {
    if n < d {
      DivideSmall(n, d);
    } else {
      DivideOneLess(n, d);
      CutOffDivides(n - d, d);
    }
  }

  lemma {:induction false} PagesConcatenate(t: Source, keys: set<string>, start: Option<Attributes>, pageSize: nat)
    requires pageSize >= 1 && Sorted(t) && Pages(t, keys, start, pageSize).Some?
    ensures Concat(Pages(t, keys, start, pageSize).value) == ProjectAll(t, Matching(t, start))
    decreases |Matching(t, start)|
  {
    var all, pages := Matching(t, start), Pages(t, keys, start, pageSize).value;
    if pageSize <= |all| {
      var next := Some(Token(t, keys, all[pageSize - 1]));
      MatchingAfterMatch(t, keys, start, pageSize - 1);
      PagesConcatenate(t, keys, next, pageSize);
      assert pages[1..] == Pages(t, keys, next, pageSize).value;
      assert all == all[..pageSize] + all[pageSize..];
      ProjectConcat(t, all[..pageSize], all[pageSize..]);
    } else {
      assert pages[1..] == [];
    }
  }

  /** The shape of the pages of n items: full ones, and at last what is left over. */
  ghost predicate Shaped(pages: seq<seq<Attributes>>, n: nat, pageSize: nat)
    requires pageSize >= 1
  {
    var (full, left) := CutOff(n, pageSize);
    && |pages| == full + 1
    && (forall i :: 0 <= i < full ==> |pages[i]| == pageSize)
    && |pages[full]| == left
  }

  lemma OneMorePage(page: seq<Attributes>, pages: seq<seq<Attributes>>, n: nat, pageSize: nat)
    requires pageSize >= 1 && |page| == pageSize && Shaped(pages, n, pageSize)
    ensures Shaped([page] + pages, n + pageSize, pageSize)
  {
  }

  lemma {:induction false} PagesShape(t: Source, keys: set<string>, start: Option<Attributes>, pageSize: nat)
    requires pageSize >= 1 && Sorted(t) && Pages(t, keys, start, pageSize).Some?
    ensures Shaped(Pages(t, keys, start, pageSize).value, |Matching(t, start)|, pageSize)
    decreases |Matching(t, start)|
  {
    var all := Matching(t, start);
    if pageSize <= |all| {
      var next := Some(Token(t, keys, all[pageSize - 1]));
      MatchingAfterMatch(t, keys, start, pageSize - 1);
      PagesShape(t, keys, next, pageSize);
      OneMorePage(ProjectAll(t, all[..pageSize]), Pages(t, keys, next, pageSize).value, |all| - pageSize, pageSize);
    }
  }

  lemma {:induction false} NamedKeysAreAccepted(t: Source, keys: set<string>, start: Option<Attributes>, pageSize: nat)
    requires pageSize >= 1 && Sorted(t) && IsStartKey(t, start)
    requires forall j :: 0 <= j < |Matching(t, start)| ==> NamesKey(t, keys, Matching(t, start)[j])
    ensures Pages(t, keys, start, pageSize).Some?
    decreases |Matching(t, start)|
  {
    var all := Matching(t, start);
    if pageSize <= |all| {
      var next := Some(Token(t, keys, all[pageSize - 1]));
      MatchingAfterMatch(t, keys, start, pageSize - 1);
      TokenIsKeyIff(t, keys, all[pageSize - 1]);
      forall j | 0 <= j < |Matching(t, next)| ensures NamesKey(t, keys, Matching(t, next)[j]) {
        assert Matching(t, next)[j] == all[pageSize + j];
      }
      NamedKeysAreAccepted(t, keys, next, pageSize);
    }
  }

  lemma {:induction false} SinglePagesNameKeys(t: Source, keys: set<string>, start: Option<Attributes>, j: nat)
    requires Sorted(t) && Pages(t, keys, start, 1).Some? && j < |Matching(t, start)|
    ensures NamesKey(t, keys, Matching(t, start)[j])
    decreases j
  {
    var all := Matching(t, start);
    if j > 0 {
      MatchingAfterMatch(t, keys, start, 0);
      SinglePagesNameKeys(t, keys, Some(Token(t, keys, all[0])), j - 1);
    }
  }

  function AllMatching(t: Source): seq<Attributes> {
    Filter(t, 0, |t.rows|)
  }

  ghost predicate FollowsToTheEnd(t: Source, keys: set<string>, pageSize: nat)
    requires pageSize >= 1 && Sorted(t)
  {
    var all, pages := AllMatching(t), Pages(t, keys, None, pageSize);
    && pages.Some?
    && Concat(pages.value) == ProjectAll(t, all)
    && |pages.value| == |all| / pageSize + 1
    && (forall i :: 0 <= i < |pages.value| - 1 ==> |pages.value[i]| == pageSize)
    && |pages.value[|pages.value| - 1]| == |all| % pageSize
  }

  /** Pages that did come are right, whatever the keys: a token that is no key is refused, never misread. */
  lemma PagesNeverMislead(t: Source, keys: set<string>, pageSize: nat)
    requires pageSize >= 1 && Sorted(t)
    ensures FollowsToTheEnd(t, keys, pageSize) <==> Pages(t, keys, None, pageSize).Some?
  {
    if Pages(t, keys, None, pageSize).Some? {
      PagesConcatenate(t, keys, None, pageSize);
      PagesShape(t, keys, None, pageSize);
      CutOffDivides(|AllMatching(t)|, pageSize);
    }
  }

  /**
   Paging refines the full scan, however the database splits it: from the start, the pages concatenate to
   the whole filtered sequence, every page with a token holds exactly `pageSize` items, and there are
   exactly n / pageSize + 1 pages. That is so at every page size if and only if, of the attributes that
   come back with each row, `keys` names exactly the key attributes of the table or index.
   */
  lemma PagesRefineScanIff(t: Source, keys: set<string>)
    requires Sorted(t)
    ensures (forall pageSize: nat :: pageSize >= 1 ==> FollowsToTheEnd(t, keys, pageSize)) <==>
            (forall j :: 0 <= j < |AllMatching(t)| ==> NamesKey(t, keys, AllMatching(t)[j]))
  {
    assert Matching(t, None) == AllMatching(t);
    if forall j :: 0 <= j < |AllMatching(t)| ==> NamesKey(t, keys, AllMatching(t)[j]) {
      forall pageSize: nat | pageSize >= 1 ensures FollowsToTheEnd(t, keys, pageSize) {
        NamedKeysAreAccepted(t, keys, None, pageSize);
        PagesNeverMislead(t, keys, pageSize);
      }
    }
    if FollowsToTheEnd(t, keys, 1) {
      forall j | 0 <= j < |AllMatching(t)| ensures NamesKey(t, keys, AllMatching(t)[j]) {
        SinglePagesNameKeys(t, keys, None, j);
      }
    }
  }

  /**
   Two ways to break the condition: the projection drops a key attribute, as a scan that selects other
   attributes does; or `keys` are those of the index alone, as for a query on an entity's index, whose
   start key must also have the key attributes of the table.
   */
  lemma SelectedAttributesAndIndexKeysAreRefused()
    ensures var row, rank, keep := map["pk" := "p", "name" := "n"], (_: Attributes) => 0, (_: Attributes) => true;
            var t := Source([row], {"pk"}, rank, keep, Some({"name"}));
            Sorted(t) && Pages(t, {"pk"}, None, 1) == None
    ensures var row, rank, keep := map["pk" := "p", "name" := "n"], (_: Attributes) => 0, (_: Attributes) => true;
            var t := Source([row], {"name", "pk"}, rank, keep, None);
            Sorted(t) && Pages(t, {"name"}, None, 1) == None
  {
    var row: Attributes := map["pk" := "p", "name" := "n"];
    var rank, keep := (_: Attributes) => 0, (_: Attributes) => true;
    var scan := Source([row], {"pk"}, rank, keep, Some({"name"}));
    assert Filter(scan, 0, 1) == Filter(scan, 0, 0) + [row];
    assert "pk" !in Project(scan, row);
    assert !NamesKey(scan, {"pk"}, row);
    var query := Source([row], {"name", "pk"}, rank, keep, None);
    assert Filter(query, 0, 1) == Filter(query, 0, 0) + [row];
    assert "pk" !in Project(query, row).Keys * {"name"};
    assert !NamesKey(query, {"name"}, row);
  }
}
