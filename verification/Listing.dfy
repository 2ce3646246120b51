/** The advisory list: which rows, in which order, on which page, and the links between pages. */
module Listing {
  import opened Text
  import opened Filters

  // ---------- Order ----------

  datatype Sort = ByReleaseDate | ByCritical

  // ORDER BY of a list query; `rank` is ts_rank of the bound query text when there is one.
  datatype Order = Order(sort: Sort, descending: bool, rank: Option<nat -> real>)

  function SortKey(o: Order, row: Row): Option<real> {
    match o.sort
    case ByReleaseDate => if row.released.Some? then Some(row.released.value as real) else None
    case ByCritical => row.critical
  }

  function RankOf(o: Order, row: Row): real {
    if o.rank.Some? then o.rank.value(row.id) else 0.0
  }

  // Rank descending, then the column with NULLS LAST, then id descending.
  predicate Before(o: Order, a: Row, b: Row) {
    var x, y := SortKey(o, a), SortKey(o, b);
    if RankOf(o, a) != RankOf(o, b) then RankOf(o, a) > RankOf(o, b)
    else if x == y then a.id > b.id
    else if x.None? then false
    else if y.None? then true
    else if o.descending then x.value > y.value
    else x.value < y.value
  }

  // Document ids are unique among rows.
  ghost predicate DistinctIds(rows: set<Row>) {
    forall a, b :: a in rows && b in rows && a.id == b.id ==> a == b
  }

  // The ORDER BY is a strict total order on rows of distinct ids.
  lemma BeforeIsStrictTotal(o: Order, a: Row, b: Row, c: Row)
    ensures !Before(o, a, a)
    ensures Before(o, a, b) && Before(o, b, c) ==> Before(o, a, c)
    ensures a.id != b.id ==> (Before(o, a, b) <==> !Before(o, b, a))
  {
  }

  // s lists the rows in order, each once.
  ghost predicate IsListing(o: Order, rows: set<Row>, s: seq<Row>) {
    && (forall r :: r in rows <==> r in s)
    && forall i, j :: 0 <= i < j < |s| ==> Before(o, s[i], s[j])
  }

  function Valued(o: Order, rows: set<Row>): set<Row> {
    set r | r in rows && SortKey(o, r).Some?
  }

  // What the order means: by falling rank; and when no query ranks the rows, as many rows as have a sort value
  // come first, in the requested direction, the others after them, and rows of equal value by falling id.
  lemma ListingIsOrdered(o: Order, rows: set<Row>, s: seq<Row>)
    requires IsListing(o, rows, s)
    ensures |s| == |rows|
    ensures forall i, j :: 0 <= i < j < |s| ==> RankOf(o, s[i]) >= RankOf(o, s[j])
    ensures o.rank.None? ==> ValuesThenNulls(o, s, |Valued(o, rows)|)
  {
    ListingSize(o, rows, s);
    if o.rank.None? {
      var n := ValuedPrefix(o, rows, s);
    }
  }

  ghost predicate ValuesThenNulls(o: Order, s: seq<Row>, n: nat) {
    && (forall i :: 0 <= i < |s| ==> (SortKey(o, s[i]).Some? <==> i < n))
    && (forall i, j :: 0 <= i < j < |s| && j < n ==>
          var x, y := SortKey(o, s[i]).value, SortKey(o, s[j]).value;
          if x == y then s[i].id > s[j].id else if o.descending then x > y else x < y)
    && (forall i, j :: n <= i < j < |s| ==> s[i].id > s[j].id)
  }

  lemma {:induction false} ListingSize(o: Order, rows: set<Row>, s: seq<Row>)
    requires IsListing(o, rows, s)
    ensures |s| == |rows|
    decreases |s|
  {
    hide Before;
    assert s != [] ==> s[0] in rows;
    if s != [] {
      ListingTail(o, rows, s);
      ListingSize(o, rows - {s[0]}, s[1..]);
    } else {
      assert rows == {};
    }
  }

  // The rows with a value are a prefix of the listing.
  lemma {:induction false} ValuedPrefix(o: Order, rows: set<Row>, s: seq<Row>) returns (n: nat)
    requires IsListing(o, rows, s) && o.rank.None?
    ensures n == |Valued(o, rows)| <= |s|
    ensures forall i :: 0 <= i < |s| ==> (SortKey(o, s[i]).Some? <==> i < n)
    decreases |s|
  {
    if s == [] {
      assert Valued(o, rows) == {};
      return 0;
    }
    assert s[0] in rows;
    ListingTail(o, rows, s);
    var rest := ValuedPrefix(o, rows - {s[0]}, s[1..]);
    if SortKey(o, s[0]).Some? {
      n := rest + 1;
      assert Valued(o, rows) == Valued(o, rows - {s[0]}) + {s[0]};
      assert forall i :: 0 < i < |s| ==> s[i] == s[1..][i - 1];
    } else {
      n := 0;
      forall i | 0 <= i < |s| ensures SortKey(o, s[i]).None? {
        assert i > 0 ==> Before(o, s[0], s[i]);
      }
      assert Valued(o, rows) == {};
    }
  }

  // Two executions of the query return the same sequence.
  lemma {:induction false} ListingIsUnique(o: Order, rows: set<Row>, s: seq<Row>, t: seq<Row>)
    requires IsListing(o, rows, s) && IsListing(o, rows, t)
    ensures s == t
    decreases |s|
  {
    hide Before;
    assert (s != [] ==> s[0] in rows) && (t != [] ==> t[0] in rows);
    if s != [] {
      assert s[0] in t;
      FirstIsFirst(o, rows, s, t);
      ListingTail(o, rows, s);
      ListingTail(o, rows, t);
      ListingIsUnique(o, rows - {s[0]}, s[1..], t[1..]);
    }
  }

  lemma FirstIsFirst(o: Order, rows: set<Row>, s: seq<Row>, t: seq<Row>)
    requires IsListing(o, rows, s) && IsListing(o, rows, t) && s != [] && t != []
    ensures s[0] == t[0]
  {
    hide Before;
    assert s[0] in t && t[0] in s;
    var i :| 0 <= i < |s| && s[i] == t[0];
    var j :| 0 <= j < |t| && t[j] == s[0];
    BeforeIsStrictTotal(o, s[0], t[0], s[0]);
    BeforeIsStrictTotal(o, s[0], s[0], s[0]);
  }

  lemma ListingTail(o: Order, rows: set<Row>, s: seq<Row>)
    requires IsListing(o, rows, s) && s != []
    ensures IsListing(o, rows - {s[0]}, s[1..])
  {
    hide Before;
    forall i | 0 < i < |s| ensures s[i] != s[0] {
      BeforeIsStrictTotal(o, s[0], s[0], s[0]);
    }
    assert forall r :: r in s <==> r == s[0] || r in s[1..];
  }

  // The row that sorts first.
  method First(o: Order, rows: set<Row>) returns (first: Row)
    requires rows != {} && DistinctIds(rows)
    ensures first in rows && forall r :: r in rows && r != first ==> Before(o, first, r)
  {
    hide Before;
    first :| first in rows;
    var rest := rows - {first};
    while rest != {}
      invariant first in rows && first !in rest && forall r :: r in rest ==> r in rows
      invariant forall r :: r in rows && r !in rest && r != first ==> Before(o, first, r)
      decreases rest
    {
      var r :| r in rest;
      rest := rest - {r};
      BeforeIsStrictTotal(o, r, first, first);
      if Before(o, r, first) {
        forall x | x in rows && x !in rest && x != r ensures Before(o, r, x) {
          BeforeIsStrictTotal(o, r, first, x);
        }
        first := r;
      }
    }
  }

  // There is such a listing of every set of rows.
  method OrderBy(o: Order, rows: set<Row>) returns (s: seq<Row>)
    requires DistinctIds(rows)
    ensures IsListing(o, rows, s) && |s| == |rows|
  {
    hide Before;
    s := [];
    var rest := rows;
    while rest != {}
      invariant forall r :: r in rest ==> r in rows
      invariant forall r :: r in rows <==> r in rest || r in s
      invariant forall i, j :: 0 <= i < j < |s| ==> Before(o, s[i], s[j])
      invariant forall i, r :: 0 <= i < |s| && r in rest ==> Before(o, s[i], r)
      invariant |s| + |rest| == |rows|
      decreases rest
    {
      var first := First(o, rest);
      rest := rest - {first};
      s := s + [first];
    }
  }

  // ---------- The list query ----------

  ghost function ResultSet(q: Request, rows: set<Row>): set<Row> {
    set r | r in rows && Selected(q, r)
  }

  function Least(a: nat, b: nat): nat {
    if a < b then a else b
  }

  // LIMIT and OFFSET.
  function Page(s: seq<Row>, limit: nat, offset: nat): seq<Row> {
    s[Least(offset, |s|)..Least(offset + limit, |s|)]
  }

  function RankBy(tsRank: (nat, string) -> real, text: string): nat -> real {
    (id: nat) => tsRank(id, text)
  }

  // Relevance comes first when the query text is not blank.
  function OrderFor(sort: Sort, descending: bool, tsRank: (nat, string) -> real, query: string): Order {
    Order(sort, descending, if TrimSpace(query) == "" then None else Some(RankBy(tsRank, TrimSpace(query))))
  }

  // The count and the page agree on the rows, although the page is bound under two more parameters.
  method ListAdvisories(f: Filters, publishable: seq<string>, fts: Fts, tsRank: (nat, string) -> real,
                        sort: Sort, descending: bool, rows: set<Row>, limit: nat, offset: nat)
    returns (page: seq<Row>, total: nat)
    requires DistinctIds(rows)
    ensures var found := ResultSet(Request(f, publishable, fts), rows);
      && total == |found|
      && forall s :: IsListing(OrderFor(sort, descending, tsRank, f.query), found, s) ==> page == Page(s, limit, offset)
    ensures TrimSpace(f.query) == "" ==> forall i, j :: 0 <= i < j < |page| ==>
      ColumnOrder(sort, descending, page[i], page[j])
    ensures TrimSpace(f.query) != "" ==> forall i, j :: 0 <= i < j < |page| ==>
      tsRank(page[i].id, TrimSpace(f.query)) >= tsRank(page[j].id, TrimSpace(f.query))
  {
    hide Selected, Kept, Before, TrimSpace, RankBy, ColumnOrder, SortKey;
    ghost var q := Request(f, publishable, fts);
    var b := NewFilteredWhere(f, publishable, fts);
    ghost var conds, args := b.conditions, b.args;
    var counted := set r | r in rows && Kept(b.conditions, b.args, fts, r);
    assert counted == ResultSet(q, rows);
    total := |counted|;
    var order := Order(sort, descending, None);
    if TrimSpace(f.query) != "" {
      var text := b.args[b.ftsParamIndex - 1].text;
      order := order.(rank := Some(RankBy(tsRank, text)));
    }
    var limitIdx := b.Bind(Count(limit));
    var offsetIdx := b.Bind(Count(offset));
    assert b.args == args + [Count(limit), Count(offset)];
    AllBoundGrows(conds, args, [Count(limit), Count(offset)]);
    forall r | r in rows ensures Kept(b.conditions, b.args, fts, r) <==> Kept(conds, args, fts, r) {
      KeptStable(conds, args, [Count(limit), Count(offset)], fts, r);
    }
    var found := set r | r in rows && Kept(b.conditions, b.args, fts, r);
    assert found == counted;
    var sorted := OrderBy(order, found);
    page := Page(sorted, b.args[limitIdx - 1].count, b.args[offsetIdx - 1].count);
    forall s | IsListing(order, ResultSet(q, rows), s) ensures s == sorted {
      ListingIsUnique(order, found, s, sorted);
    }
    PageIsOrdered(sort, descending, tsRank, f.query, found, sorted, limit, offset);
  }

  // By release date: the dates in the direction asked for, rows without one last, and equal dates, or none,
  // by falling id. By score likewise.
  predicate ColumnOrder(sort: Sort, descending: bool, a: Row, b: Row) {
    match sort
    case ByReleaseDate =>
      || (a.released == b.released && a.id > b.id)
      || (a.released.Some? && b.released.None?)
      || (a.released.Some? && b.released.Some? && !descending && a.released.value < b.released.value)
      || (a.released.Some? && b.released.Some? && descending && a.released.value > b.released.value)
    case ByCritical =>
      || (a.critical == b.critical && a.id > b.id)
      || (a.critical.Some? && b.critical.None?)
      || (a.critical.Some? && b.critical.Some? && !descending && a.critical.value < b.critical.value)
      || (a.critical.Some? && b.critical.Some? && descending && a.critical.value > b.critical.value)
  }

  // The order of a list query, column by column.
  lemma OrderMeans(sort: Sort, descending: bool, tsRank: (nat, string) -> real, query: string, a: Row, b: Row)
    ensures TrimSpace(query) == "" ==>
      (Before(OrderFor(sort, descending, tsRank, query), a, b) <==> ColumnOrder(sort, descending, a, b))
    ensures TrimSpace(query) != "" && Before(OrderFor(sort, descending, tsRank, query), a, b) ==>
      tsRank(a.id, TrimSpace(query)) >= tsRank(b.id, TrimSpace(query))
    ensures TrimSpace(query) != "" && tsRank(a.id, TrimSpace(query)) > tsRank(b.id, TrimSpace(query)) ==>
      Before(OrderFor(sort, descending, tsRank, query), a, b)
  {
    hide TrimSpace;
  }

  lemma PageIsOrdered(sort: Sort, descending: bool, tsRank: (nat, string) -> real, query: string, rows: set<Row>, s: seq<Row>,
                      limit: nat, offset: nat)
    requires IsListing(OrderFor(sort, descending, tsRank, query), rows, s)
    ensures var page := Page(s, limit, offset);
      && (TrimSpace(query) == "" ==> forall i, j :: 0 <= i < j < |page| ==>
            ColumnOrder(sort, descending, page[i], page[j]))
      && (TrimSpace(query) != "" ==> forall i, j :: 0 <= i < j < |page| ==>
            tsRank(page[i].id, TrimSpace(query)) >= tsRank(page[j].id, TrimSpace(query)))
  {
    hide TrimSpace, Before, ColumnOrder, OrderFor;
    var page, first := Page(s, limit, offset), Least(offset, |s|);
    forall i, j | 0 <= i < j < |page| ensures Before(OrderFor(sort, descending, tsRank, query), page[i], page[j]) {
      assert page[i] == s[first + i] && page[j] == s[first + j];
    }
    forall i, j | 0 <= i < j < |page|
      ensures TrimSpace(query) == "" ==>
        ColumnOrder(sort, descending, page[i], page[j])
      ensures TrimSpace(query) != "" ==> tsRank(page[i].id, TrimSpace(query)) >= tsRank(page[j].id, TrimSpace(query))
    {
      OrderMeans(sort, descending, tsRank, query, page[i], page[j]);
    }
  }

  // ---------- Page links ----------

  const DEFAULT_LIMIT := 25
  const MAX_LIMIT := 100
  const MAX_OFFSET := 10000

  // A query parameter: not given, not a number strconv.Atoi reads, or a number.
  datatype Param = Missing | NotANumber | Given(value: int)

  // parseListOptions: None is a 400.
  function ParseLimit(limit: Param): (r: Option<nat>)
    ensures r.Some? ==> 1 <= r.value <= 100
    ensures r.None? <==> limit.NotANumber? || (limit.Given? && limit.value < 0)
    ensures limit.Missing? ==> r == Some(25)
    ensures limit.Given? && 1 <= limit.value <= 100 ==> r == Some(limit.value)
    ensures limit.Given? && (limit.value == 0 || limit.value > 100) ==> r == Some(100)
  {
    match limit
    case Missing => Some(DEFAULT_LIMIT)
    case NotANumber => None
    case Given(n) => if n < 0 then None else if n == 0 || n > MAX_LIMIT then Some(MAX_LIMIT) else Some(n)
  }

  function ParseOffset(offset: Param): (r: Option<nat>)
    ensures r.Some? <==> offset.Missing? || (offset.Given? && 0 <= offset.value <= 10000)
    ensures r.Some? ==> r.value == if offset.Missing? then 0 else offset.value
  {
    match offset
    case Missing => Some(0)
    case NotANumber => None
    case Given(n) => if n < 0 || n > MAX_OFFSET then None else Some(n)
  }

  datatype Links = Links(prev: Option<nat>, next: Option<nat>)

  method BuildCollectionLinks(total: nat, limit: nat, offset: nat) returns (links: Links)
    ensures links == LinksOf(total, limit, offset)
  {
    var prev := None;
    if offset > 0 {
      var prevOffset: int := offset - limit;
      if prevOffset < 0 {
        prevOffset := 0;
      }
      if limit > 0 {
        prevOffset := (prevOffset / limit) * limit;
      }
      prev := Some(prevOffset);
    }
    var next := None;
    var nextOffset := offset + limit;
    if nextOffset < total {
      next := Some(nextOffset);
    }
    links := Links(prev, next);
  }

  function LinksOf(total: nat, limit: nat, offset: nat): Links {
    Links(if offset == 0 then None else Some(PageStart(limit, if offset < limit then 0 else offset - limit)),
          if offset + limit < total then Some(offset + limit) else None)
  }

  // Aligned down to the page grid, if there is one.
  function PageStart(limit: nat, offset: nat): nat {
    if limit > 0 then offset / limit * limit else offset
  }

  function Multiple(k: nat, limit: nat): nat {
    k * limit
  }

  // prev is a smaller multiple of limit; it is the nearest lower one exactly on aligned offsets and on the
  // first page, so an unaligned offset can skip a page back.
  lemma PrevIsNearestIff(total: nat, limit: nat, offset: nat)
    requires limit > 0 && offset > 0
    ensures var p := LinksOf(total, limit, offset).prev.value;
      && p < offset && p % limit == 0
      && (if offset < limit then p == 0 else p <= offset - limit < p + limit)
      && ((forall k: nat :: Multiple(k, limit) < offset ==> Multiple(k, limit) <= p) <==> offset % limit == 0 || offset < limit)
  {
    var p := LinksOf(total, limit, offset).prev.value;
    var pages, rest := offset / limit, offset % limit;
    assert offset == pages * limit + rest;
    if offset < limit {
      NothingBetween(limit, offset);
    } else {
      PageBefore(limit, pages, rest);
      if rest == 0 {
        forall k: nat | Multiple(k, limit) < offset ensures Multiple(k, limit) <= p {
          MultiplesOrdered(k, pages, limit);
        }
      } else {
        assert Multiple(pages, limit) < offset && !(Multiple(pages, limit) <= p);
      }
    }
  }

  // The first page has no prev, and next leads one limit on as long as rows are left.
  lemma LinksMean(total: nat, limit: nat, offset: nat)
    ensures LinksOf(total, limit, offset).prev.None? <==> offset == 0
    ensures LinksOf(total, limit, offset).next.Some? <==> offset + limit < total
    ensures LinksOf(total, limit, offset).next.Some? ==> LinksOf(total, limit, offset).next.value == offset + limit
  {
  }

  // The comment's own example: from offset 30 with limit 25 prev leads to 0, not to 25.
  lemma PrevSkipsAPage(total: nat)
    ensures LinksOf(total, 25, 30).prev == Some(0) && Multiple(1, 25) == 25 < 30
  {
  }

  // Without a limit, which parseListOptions never lets through, prev would lead to where it came from.
  lemma PrevMovesIff(total: nat, limit: nat, offset: nat)
    requires offset > 0
    ensures LinksOf(total, limit, offset).prev.value < offset <==> limit > 0
  {
  }

  lemma NothingBetween(limit: nat, offset: nat)
    requires 0 < offset < limit
    ensures forall k: nat :: Multiple(k, limit) < offset ==> Multiple(k, limit) <= 0
    ensures 0 / limit * limit == 0 && 0 % limit == 0
  {
    forall k: nat | k > 0 ensures Multiple(k, limit) >= limit {
      MultiplesOrdered(0, k, limit);
    }
  }

  lemma {:induction false} MultiplesOrdered(k: nat, m: nat, limit: nat)
    ensures k < m ==> Multiple(k, limit) + limit <= Multiple(m, limit)
    ensures k >= m ==> Multiple(k, limit) >= Multiple(m, limit)
    decreases k + m
  {
    if k < m {
      assert Multiple(m, limit) == Multiple(m - 1, limit) + limit;
      MultiplesOrdered(k, m - 1, limit);
    } else if k > m {
      assert Multiple(k, limit) == Multiple(k - 1, limit) + limit;
      MultiplesOrdered(k - 1, m, limit);
    }
  }

  lemma PageBefore(limit: nat, pages: nat, rest: nat)
    requires limit > 0 && pages > 0 && rest < limit
    ensures (pages * limit + rest - limit) / limit * limit == (pages - 1) * limit
    ensures (pages - 1) * limit % limit == 0
  {
    var x := pages * limit + rest - limit;
    assert x == (pages - 1) * limit + rest;
    DivisionIs(x, limit, pages - 1, rest);
    DivisionIs((pages - 1) * limit, limit, pages - 1, 0);
  }

  lemma DivisionIs(x: nat, d: nat, quotient: nat, rest: nat)
    requires d > 0 && x == quotient * d + rest && rest < d
    ensures x / d == quotient && x % d == rest
  {
    var q := x / d;
    assert x == q * d + x % d;
    if q < quotient {
      MultiplesOrdered(q, quotient, d);
    } else if q > quotient {
      MultiplesOrdered(quotient, q, d);
    }
  }

  // The offsets reached by following prev until there is none.
  function PrevTrail(total: nat, limit: nat, offset: nat): seq<nat>
    requires limit > 0
    decreases offset
  {
    if offset == 0 then []
    else
      PrevIsNearestIff(total, limit, offset);
      var p := LinksOf(total, limit, offset).prev.value;
      [p] + PrevTrail(total, limit, p)
  }

  // It leads back to the first page, over page boundaries only.
  lemma {:induction false} PrevReachesFirst(total: nat, limit: nat, offset: nat)
    requires limit > 0 && offset > 0
    ensures var trail := PrevTrail(total, limit, offset);
      && trail != [] && trail[|trail| - 1] == 0
      && forall i :: 0 <= i < |trail| ==> trail[i] % limit == 0
    decreases offset
  {
    PrevIsNearestIff(total, limit, offset);
    var p := LinksOf(total, limit, offset).prev.value;
    if p > 0 {
      PrevReachesFirst(total, limit, p);
    }
  }

  // On aligned offsets prev undoes next.
  lemma PrevInvertsNext(total: nat, limit: nat, page: nat)
    requires limit > 0 && LinksOf(total, limit, page * limit).next.Some?
    ensures LinksOf(total, limit, LinksOf(total, limit, page * limit).next.value).prev == Some(page * limit)
  {
    assert (page + 1) * limit == page * limit + limit;
    PageBefore(limit, page + 1, 0);
  }

  // ---------- Following next ----------

  function Concat(pages: seq<seq<Row>>): seq<Row> {
    if pages == [] then [] else Concat(pages[..|pages| - 1]) + pages[|pages| - 1]
  }

  // From offset 0 and on until there is no next link or the next offset is refused with a 400. Every page
  // is a query of its own.
  method FollowNext(o: Order, rows: set<Row>, limit: nat, ghost listing: seq<Row>) returns (pages: seq<seq<Row>>)
    requires DistinctIds(rows) && limit > 0 && IsListing(o, rows, listing)
    ensures Concat(pages) <= listing
    ensures forall k :: 0 <= k < |pages| ==> pages[k] == Page(listing, limit, Multiple(k, limit))
    ensures Concat(pages) == listing <==> |listing| <= LastOffset(limit) + limit
    ensures |pages| > 0
    ensures Concat(pages) == listing ==>
      if listing == [] then |pages| == 1 else Multiple(|pages| - 1, limit) < |listing| <= Multiple(|pages|, limit)
  {
    hide Concat, Before, IsListing, Multiple, Page, LastOffset, LinksOf;
    FirstMultiple(limit);
    NoPages();
    pages := [];
    var offset := 0;
    var more := true;
    while more
      invariant offset == Multiple(|pages|, limit) && (more ==> offset <= MAX_OFFSET)
      invariant Concat(pages) == listing[..Least(offset, |listing|)]
      invariant forall k :: 0 <= k < |pages| ==> pages[k] == Page(listing, limit, Multiple(k, limit))
      invariant more && |pages| > 0 ==> offset < |listing|
      invariant !more ==> |pages| > 0 && (offset >= |listing| || offset > MAX_OFFSET)
      invariant |pages| > 0 && listing != [] ==> Multiple(|pages| - 1, limit) < |listing|
      invariant listing == [] ==> |pages| == if more then 0 else 1
      invariant |pages| > 0 ==> Multiple(|pages| - 1, limit) <= MAX_OFFSET
      decreases MAX_OFFSET + 1 - offset, if more then 1 else 0
    {
      var s := OrderBy(o, rows);
      ListingIsUnique(o, rows, s, listing);
      var page := Page(s, limit, offset);
      PageExtends(listing, limit, offset);
      NextMultiple(|pages|, limit);
      ConcatAppend(pages, page);
      pages := pages + [page];
      NextLink(|s|, limit, offset);
      var links := BuildCollectionLinks(|s|, limit, offset);
      offset := offset + limit;
      more := links.next.Some? && ParseOffset(Given(links.next.value)).Some?;
    }
    LastOffsetIs(limit, |pages|);
    LastOffsetIs(limit, |pages| - 1);
    NextMultiple(|pages| - 1, limit);
  }

  lemma NoPages()
    ensures Concat([]) == []
  {
  }

  lemma ConcatAppend(pages: seq<seq<Row>>, page: seq<Row>)
    ensures Concat(pages + [page]) == Concat(pages) + page
  {
    assert (pages + [page])[..|pages|] == pages;
  }

  lemma PageExtends(listing: seq<Row>, limit: nat, offset: nat)
    ensures listing[..Least(offset, |listing|)] + Page(listing, limit, offset) == listing[..Least(offset + limit, |listing|)]
  {
  }

  lemma NextLink(total: nat, limit: nat, offset: nat)
    requires limit > 0
    ensures LinksOf(total, limit, offset).next == if offset + limit < total then Some(offset + limit) else None
  {
  }

  lemma FirstMultiple(limit: nat)
    ensures Multiple(0, limit) == 0
  {
  }

  lemma NextMultiple(k: nat, limit: nat)
    ensures Multiple(k + 1, limit) == Multiple(k, limit) + limit
  {
  }

  lemma LastOffsetIs(limit: nat, k: nat)
    requires limit > 0
    ensures Multiple(k, limit) <= MAX_OFFSET ==> Multiple(k, limit) <= LastOffset(limit)
    ensures Multiple(k, limit) > MAX_OFFSET ==> Multiple(k, limit) >= LastOffset(limit) + limit
  {
    var q := MAX_OFFSET / limit;
    assert MAX_OFFSET == q * limit + MAX_OFFSET % limit;
    assert Multiple(q + 1, limit) == Multiple(q, limit) + limit;
    MultiplesOrdered(k, q, limit);
    MultiplesOrdered(k, q + 1, limit);
    MultiplesOrdered(q, k, limit);
  }

  // The greatest offset of the page grid that is accepted.
  function LastOffset(limit: nat): nat
    requires limit > 0
  {
    MAX_OFFSET / limit * limit
  }
}
