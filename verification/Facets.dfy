/** Facet counts over the filtered set, and how they relate to the list total under one more filter. */
module Facets {
  import opened Text
  import opened ProductTree
  import opened Filters
  import opened Listing

  // ---------- Severity ----------

  const BAND_NAMES: seq<string> := ["none", "low", "medium", "high", "critical"]

  // The CASE of facetSeverity.
  function Classified(critical: Option<real>): string {
    if critical.None? || critical.value == 0.0 then "none"
    else if critical.value < 4.0 then "low"
    else if critical.value < 7.0 then "medium"
    else if critical.value < 9.0 then "high"
    else "critical"
  }

  function InFacet(rows: set<Row>, band: string): set<Row> {
    set r | r in rows && Classified(r.critical) == band
  }

  datatype FacetCount = FacetCount(value: string, count: nat)

  // The severity facet counts exactly the rows the list selects for the same filter.
  method FacetSeverity(f: Filters, publishable: seq<string>, fts: Fts, rows: set<Row>) returns (values: seq<FacetCount>)
    ensures |values| == |BAND_NAMES|
    ensures var found := ResultSet(Request(f, publishable, fts), rows);
      forall i :: 0 <= i < |values| ==> values[i] == FacetCount(BAND_NAMES[i], |InFacet(found, BAND_NAMES[i])|)
  {
    hide Selected, Kept;
    var b := NewFilteredWhere(f, publishable, fts);
    var found := set r | r in rows && Kept(b.conditions, b.args, fts, r);
    assert found == ResultSet(Request(f, publishable, fts), rows);
    values := CountBands(found);
  }

  // One pass classifies each row; the bands are emitted in canonical order, zero counts included.
  method CountBands(rows: set<Row>) returns (values: seq<FacetCount>)
    ensures |values| == |BAND_NAMES|
    ensures forall i :: 0 <= i < |values| ==> values[i] == FacetCount(BAND_NAMES[i], |InFacet(rows, BAND_NAMES[i])|)
  {
    hide Classified;
    var counts: map<string, nat> := map[];
    var rest := rows;
    while rest != {}
      invariant rest <= rows
      invariant forall band :: (if band in counts then counts[band] else 0) == |InFacet(rows - rest, band)|
      decreases rest
    {
      var r :| r in rest;
      var band := Classified(r.critical);
      forall b ensures |InFacet(rows - (rest - {r}), b)| == |InFacet(rows - rest, b)| + if b == band then 1 else 0 {
        CountedOneMore(rows, rest, r, b);
      }
      counts := counts[band := (if band in counts then counts[band] else 0) + 1];
      rest := rest - {r};
    }
    assert rows - rest == rows;
    values := [];
    for i := 0 to |BAND_NAMES|
      invariant |values| == i
      invariant forall j :: 0 <= j < i ==> values[j] == FacetCount(BAND_NAMES[j], |InFacet(rows, BAND_NAMES[j])|)
    {
      var band := BAND_NAMES[i];
      values := values + [FacetCount(band, if band in counts then counts[band] else 0)];
    }
  }

  lemma CountedOneMore(rows: set<Row>, rest: set<Row>, r: Row, b: string)
    requires r in rest && rest <= rows
    ensures |InFacet(rows - (rest - {r}), b)| == |InFacet(rows - rest, b)| + if b == Classified(r.critical) then 1 else 0
  {
    hide Classified;
    var before, after := InFacet(rows - rest, b), InFacet(rows - (rest - {r}), b);
    if b == Classified(r.critical) {
      assert after == before + {r} && r !in before;
    } else {
      assert after == before;
    }
  }

  // The band counts always sum to the list total, whatever the scores.
  lemma SeverityCountsSum(rows: set<Row>)
    ensures |InFacet(rows, "none")| + |InFacet(rows, "low")| + |InFacet(rows, "medium")|
            + |InFacet(rows, "high")| + |InFacet(rows, "critical")| == |rows|
  {
    if rows != {} {
      var r :| r in rows;
      SeverityCountsSum(rows - {r});
      RemovedFromOne(rows, r, "none");
      RemovedFromOne(rows, r, "low");
      RemovedFromOne(rows, r, "medium");
      RemovedFromOne(rows, r, "high");
      RemovedFromOne(rows, r, "critical");
      OneOfFive(r.critical);
    }
  }

  lemma RemovedFromOne(rows: set<Row>, r: Row, b: string)
    requires r in rows
    ensures |InFacet(rows, b)| == |InFacet(rows - {r}, b)| + if b == Classified(r.critical) then 1 else 0
  {
    assert rows - (rows - {r}) == {r};
    CountedOneMore(rows, {r}, r, b);
    assert rows - ({r} - {r}) == rows;
  }

  lemma OneOfFive(critical: Option<real>)
    ensures Classified(critical) in BAND_NAMES
  {
    var i := if Classified(critical) == "none" then 0 else if Classified(critical) == "low" then 1
      else if Classified(critical) == "medium" then 2 else if Classified(critical) == "high" then 3 else 4;
    assert BAND_NAMES[i] == Classified(critical);
  }

  // The score lies between the bands, or outside all of them.
  predicate InGap(x: real) {
    x < 0.0 || 0.0 < x < 0.1 || 3.9 < x < 4.0 || 6.9 < x < 7.0 || 8.9 < x < 9.0 || 10.0 < x
  }

  // The scores section 5 of the CVSS v3.1 specification allows: multiples of a tenth up to ten.
  function Tenths(k: int): real {
    (k as real) / 10.0
  }

  ghost predicate OnGrid(x: real) {
    exists k :: 0 <= k <= 100 && x == Tenths(k)
  }

  // The facet puts a score in the band whose filter matches it, for every band, exactly outside the gaps.
  lemma FacetMatchesFilterIff(critical: Option<real>)
    ensures (forall i :: 0 <= i < 5 ==>
               (Classified(critical) == BAND_NAMES[i] <==> InBand(BandOf(BAND_NAMES[i]).value, critical)))
      <==> critical.None? || !InGap(critical.value)
  {
    BandNamesDiffer();
    assert BAND_NAMES[0] == "none" && BAND_NAMES[1] == "low" && BAND_NAMES[2] == "medium"
      && BAND_NAMES[3] == "high" && BAND_NAMES[4] == "critical";
    assert BandOf("none") == Some(Band(0.0, 0.0)) && BandOf("low") == Some(Band(0.1, 3.9))
      && BandOf("medium") == Some(Band(4.0, 6.9)) && BandOf("high") == Some(Band(7.0, 8.9)) && BandOf("critical") == Some(Band(9.0, 10.0));
  }

  lemma BandNamesDiffer()
    ensures forall i, j :: 0 <= i < j < 5 ==> BAND_NAMES[i] != BAND_NAMES[j]
  {
    assert "none"[0] == 'n' && "low"[0] == 'l' && "medium"[0] == 'm' && "high"[0] == 'h' && "critical"[0] == 'c';
  }

  lemma GridHasNoGap(x: real)
    requires OnGrid(x)
    ensures !InGap(x)
  {
    var k :| 0 <= k <= 100 && x == Tenths(k);
    assert 10.0 * x == k as real;
  }

  lemma BandNameIsRequested(i: nat)
    requires i < |BAND_NAMES|
    ensures Requested(BAND_NAMES[i]) == BandOf(BAND_NAMES[i]) && BandOf(BAND_NAMES[i]).Some?
  {
    hide TrimSpace, Lower;
    assert Lowercase("none") && Lowercase("low") && Lowercase("medium") && Lowercase("high") && Lowercase("critical");
    LowercaseFixpoint("none");
    LowercaseFixpoint("low");
    LowercaseFixpoint("medium");
    LowercaseFixpoint("high");
    LowercaseFixpoint("critical");
  }

  predicate Lowercase(s: string) {
    s != "" && forall i :: 0 <= i < |s| ==> 'a' <= s[i] <= 'z'
  }

  lemma LowercaseFixpoint(name: string)
    requires Lowercase(name)
    ensures TrimSpace(name) == name && Lower(name) == name
  {
    assert NoOuterBlanks(name);
    TrimSpaceFixpoint(name);
  }

  function WithSeverity(q: Request, band: string): Request {
    q.(f := q.f.(severity := [band]))
  }

  // On the grid the count of a band is the list total with that band added to a filter that has none.
  lemma BandCountIsTotal(q: Request, rows: set<Row>, i: nat)
    requires q.f.severity == [] && i < |BAND_NAMES|
    requires forall r :: r in rows && r.critical.Some? ==> OnGrid(r.critical.value)
    ensures InFacet(ResultSet(q, rows), BAND_NAMES[i]) == ResultSet(WithSeverity(q, BAND_NAMES[i]), rows)
  {
    hide Requested, Classified, InBand, BandOf, OnGrid, CveOk, ProductOk, VendorOk, TextOk, TlpOk, TrimSpace, UpperAll, Selected;
    BandNameIsRequested(i);
    var bands := [BAND_NAMES[i]];
    forall r | r in rows
      ensures Selected(WithSeverity(q, BAND_NAMES[i]), r) <==> Selected(q, r) && Classified(r.critical) == BAND_NAMES[i]
    {
      if r.critical.Some? {
        GridHasNoGap(r.critical.value);
      }
      FacetMatchesFilterIff(r.critical);
      assert bands[0] == BAND_NAMES[i];
      OneMoreClause(q, WithSeverity(q, BAND_NAMES[i]), 6, r);
    }
  }

  // ---------- Counted dimensions ----------

  // What a facet groups by: a column of documents, upper(d.tlp), or a name in documents_products.
  datatype Dimension = ByColumn(column: Column) | ByTlp | ByVendor | ByProduct

  function NameOf(d: Dimension, p: Pair): Option<string> {
    if d.ByVendor? then p.vendor else p.product
  }

  // The values a row is counted under.
  function ValuesOf(d: Dimension, row: Row): set<string> {
    match d
    case ByColumn(column) => if ColumnOf(row, column).Some? then {ColumnOf(row, column).value} else {}
    case ByTlp => if row.tlp.Some? then {Upper(row.tlp.value)} else {}
    case _ => set p | p in row.pairs && NameOf(d, p).Some? :: NameOf(d, p).value
  }

  function Counted(rows: set<Row>, d: Dimension, value: string): set<Row> {
    set r | r in rows && value in ValuesOf(d, r)
  }

  // GROUP BY value, with the number of distinct documents.
  function Groups(rows: set<Row>, d: Dimension): map<string, nat> {
    map v | v in (set r, v | r in rows && v in ValuesOf(d, r) :: v) :: |Counted(rows, d, v)|
  }

  function Wanted(f: Filters, column: Column): string {
    match column
    case Publisher => f.publisher
    case Category => f.category
    case Lang => f.lang
  }

  function WithColumn(q: Request, column: Column, value: string): Request {
    match column
    case Publisher => q.(f := q.f.(publisher := value))
    case Category => q.(f := q.f.(category := value))
    case Lang => q.(f := q.f.(lang := value))
  }

  function ClauseOf(column: Column): nat {
    match column
    case Publisher => 13
    case Category => 15
    case Lang => 16
  }

  // A counted value, added as a filter, selects exactly the counted rows if and only if no blank surrounds
  // it or, for a value of blanks alone, which filters nothing, every selected row was counted.
  lemma ColumnCountIsTotalIff(q: Request, rows: set<Row>, column: Column, value: string)
    requires TrimSpace(Wanted(q.f, column)) == ""
    requires Counted(ResultSet(q, rows), ByColumn(column), value) != {}
    ensures Counted(ResultSet(q, rows), ByColumn(column), value) == ResultSet(WithColumn(q, column, value), rows)
      <==> if TrimSpace(value) == "" then forall r :: r in ResultSet(q, rows) ==> ColumnOf(r, column) == Some(value)
           else NoOuterBlanks(value)
  {
    hide CveOk, SeverityOk, ProductOk, VendorOk, TlpOk, TrimSpace, UpperAll, Selected;
    TrimSpaceFixpoint(value);
    forall r | r in rows
      ensures Selected(WithColumn(q, column, value), r)
        <==> Selected(q, r) && (TrimSpace(value) == "" || ColumnOf(r, column) == Some(TrimSpace(value)))
    {
      OneMoreClause(q, WithColumn(q, column, value), ClauseOf(column), r);
    }
    hide Part;
    var found := ResultSet(q, rows);
    var counted, total := Counted(found, ByColumn(column), value), ResultSet(WithColumn(q, column, value), rows);
    if TrimSpace(value) == "" {
      assert total == found;
      assert counted == found <==> forall r :: r in found ==> ColumnOf(r, column) == Some(value);
    } else if NoOuterBlanks(value) {
      assert counted == total;
    } else {
      var r :| r in counted;
      assert r !in total;
    }
  }

  function WithTlp(q: Request, value: string): Request {
    q.(f := q.f.(tlp := [value]))
  }

  // A counted label, which is in upper case, added as a filter selects exactly the counted rows if and only
  // if no blank surrounds it.
  lemma TlpCountIsTotalIff(q: Request, rows: set<Row>, value: string)
    requires q.f.tlp == [] && Counted(ResultSet(q, rows), ByTlp, value) != {}
    ensures Counted(ResultSet(q, rows), ByTlp, value) == ResultSet(WithTlp(q, value), rows) <==> NoOuterBlanks(value)
  {
    hide CveOk, SeverityOk, ProductOk, VendorOk, TextOk, TrimSpace, Selected;
    TrimSpaceFixpoint(value);
    var counted, total := Counted(ResultSet(q, rows), ByTlp, value), ResultSet(WithTlp(q, value), rows);
    var r0 :| r0 in counted;
    UpperIdempotent(r0.tlp.value);
    forall r | r in rows
      ensures Selected(WithTlp(q, value), r) <==> Selected(q, r) && r.tlp.Some? && Upper(r.tlp.value) == Upper(TrimSpace(value))
    {
      OneMoreClause(q, WithTlp(q, value), 14, r);
      assert UpperAll([value])[0] == Upper(TrimSpace(value));
    }
    hide Part, UpperAll;
    if NoOuterBlanks(value) {
      assert counted == total;
    } else {
      assert |Upper(TrimSpace(value))| != |value|;
      assert r0 !in total;
    }
  }

  // ---------- Vendor and product names ----------

  function WantedName(f: Filters, d: Dimension): string {
    if d.ByVendor? then f.vendor else f.product
  }

  function WithName(q: Request, d: Dimension, value: string): Request {
    if d.ByVendor? then q.(f := q.f.(vendor := value)) else q.(f := q.f.(product := value))
  }

  // The row has a name that equals the text but for case.
  ghost predicate HasName(row: Row, d: Dimension, text: string) {
    exists v :: v in ValuesOf(d, row) && Lower(v) == Lower(text)
  }

  lemma NameClause(q: Request, d: Dimension, value: string, row: Row)
    requires (d.ByVendor? || d.ByProduct?) && TrimSpace(WantedName(q.f, d)) == ""
    ensures Selected(WithName(q, d, value), row)
      <==> Selected(q, row) && (TrimSpace(value) == "" || HasName(row, d, TrimSpace(value)))
  {
    hide CveOk, SeverityOk, TextOk, TlpOk, TrimSpace, UpperAll, Lower, Selected;
    OneMoreClause(q, WithName(q, d, value), if d.ByVendor? then 12 else 11, row);
    if p :| p in row.pairs && NameOf(d, p).Some? && Lower(NameOf(d, p).value) == Lower(TrimSpace(value)) {
      assert NameOf(d, p).value in ValuesOf(d, row);
    }
  }

  // Adding a counted vendor or product as a filter, which ignores case, selects at least the rows the facet
  // counted if and only if no outer blank surrounds the name, or nothing else is in it, or each of those rows
  // also has the trimmed name: btrim stores a tab that the filter trims off. The last cannot be where a row
  // has no other name.
  lemma NameCountIsAtMostTotalIff(q: Request, rows: set<Row>, d: Dimension, value: string)
    requires (d.ByVendor? || d.ByProduct?) && TrimSpace(WantedName(q.f, d)) == ""
    ensures var counted, total := Counted(ResultSet(q, rows), d, value), ResultSet(WithName(q, d, value), rows);
      && (counted <= total
          <==> NoOuterBlanks(value) || TrimSpace(value) == "" || forall r :: r in counted ==> HasName(r, d, TrimSpace(value)))
      && ((exists r :: r in counted && ValuesOf(d, r) == {value}) ==>
            (counted <= total <==> NoOuterBlanks(value) || TrimSpace(value) == ""))
  {
    hide TrimSpace, Lower, Selected, ValuesOf;
    TrimSpaceFixpoint(value);
    var counted := Counted(ResultSet(q, rows), d, value);
    forall r | r in counted
      ensures r in ResultSet(WithName(q, d, value), rows) <==> TrimSpace(value) == "" || HasName(r, d, TrimSpace(value))
      ensures TrimSpace(value) == value ==> HasName(r, d, TrimSpace(value))
      ensures ValuesOf(d, r) == {value} && HasName(r, d, TrimSpace(value)) ==> TrimSpace(value) == value
    {
      NameClause(q, d, value, r);
      assert |Lower(TrimSpace(value))| == |Lower(value)| ==> TrimSpace(value) == value;
    }
    hide HasName;
  }

  // A vendor whose name starts with a tab is stored as it is, counted, and not found.
  lemma TabbedVendorIsMissed(q: Request, row: Row)
    requires TrimSpace(q.f.vendor) == "" && Selected(q, row) && row.pairs == {Pair(Some("\tACME"), None)}
    ensures CleanPair(Pair(Some("\tACME"), None)) in row.pairs
    ensures row in Counted(ResultSet(q, {row}), ByVendor, "\tACME")
    ensures row !in ResultSet(WithName(q, ByVendor, "\tACME"), {row})
  {
    var vendor := "\tACME";
    assert Btrim(vendor) == vendor;
    assert vendor[0] == '\t' && vendor[4] == 'E';
    assert TrimLeft(vendor, GO_BLANKS) == "ACME" by {
      assert vendor[1..] == "ACME";
    }
    assert TrimSpace(vendor) == "ACME";
    hide Selected, TrimSpace;
    assert ValuesOf(ByVendor, row) == {vendor};
    hide ValuesOf;
    assert row in Counted(ResultSet(q, {row}), ByVendor, vendor);
    NameCountIsAtMostTotalIff(q, {row}, ByVendor, vendor);
  }

  // ---------- The cap ----------

  const FACET_CAP := 50

  datatype FacetGroup = FacetGroup(values: seq<FacetCount>, capped: bool)

  ghost predicate Shown(values: seq<FacetCount>, value: string) {
    exists i :: 0 <= i < |values| && values[i].value == value
  }

  // ORDER BY n DESC LIMIT: the largest groups, each once, with their counts.
  ghost predicate TopGroups(groups: map<string, nat>, limit: nat, rows: seq<FacetCount>) {
    && |rows| == Least(limit, |groups|)
    && (forall i :: 0 <= i < |rows| ==> rows[i].value in groups && rows[i].count == groups[rows[i].value])
    && (forall i, j :: 0 <= i < j < |rows| ==> rows[i].value != rows[j].value && rows[i].count >= rows[j].count)
    && (forall v, i :: v in groups && !Shown(rows, v) && 0 <= i < |rows| ==> groups[v] <= rows[i].count)
  }

  // A cappable facet flags exactly the groups beyond the cap and shows the most frequent ones. A facet that is
  // not cappable is never flagged, although the query cuts it off as well.
  ghost predicate IsFacet(groups: map<string, nat>, cappable: bool, group: FacetGroup) {
    && (group.capped <==> cappable && |groups| > FACET_CAP)
    && TopGroups(groups, if cappable then FACET_CAP else FACET_CAP + 1, group.values)
  }

  method ScanFacetGroup(rows: seq<FacetCount>, cappable: bool, ghost groups: map<string, nat>) returns (group: FacetGroup)
    requires TopGroups(groups, FACET_CAP + 1, rows)
    ensures IsFacet(groups, cappable, group)
  {
    var values: seq<FacetCount> := [];
    for i := 0 to |rows|
      invariant values == rows[..i]
    {
      values := values + [rows[i]];
    }
    assert values == rows;
    if cappable && |values| > FACET_CAP {
      CutKeepsTop(groups, rows);
      group := FacetGroup(values[..FACET_CAP], true);
    } else {
      group := FacetGroup(values, false);
    }
  }

  // The largest of the groups, any on ties.
  method Largest(groups: map<string, nat>) returns (top: string)
    requires groups.Keys != {}
    ensures top in groups && forall v :: v in groups ==> groups[v] <= groups[top]
  {
    top :| top in groups.Keys;
    var rest := groups.Keys - {top};
    while rest != {}
      invariant rest <= groups.Keys && top in groups
      invariant forall v :: v in groups && v !in rest ==> groups[v] <= groups[top]
      decreases rest
    {
      var v :| v in rest;
      rest := rest - {v};
      if groups[v] > groups[top] {
        top := v;
      }
    }
  }

  // `rows` are the largest groups so far, `rest` the others.
  ghost predicate Taken(groups: map<string, nat>, rest: map<string, nat>, rows: seq<FacetCount>) {
    && |rows| + |rest| == |groups|
    && (forall v :: v in rest ==> v in groups && rest[v] == groups[v])
    && (forall v :: v in groups ==> (v in rest <==> !Shown(rows, v)))
    && (forall i :: 0 <= i < |rows| ==> rows[i].value in groups && rows[i].count == groups[rows[i].value])
    && (forall i, j :: 0 <= i < j < |rows| ==> rows[i].value != rows[j].value && rows[i].count >= rows[j].count)
    && (forall v, i :: v in rest && 0 <= i < |rows| ==> groups[v] <= rows[i].count)
  }

  method TakeTop(groups: map<string, nat>, limit: nat) returns (rows: seq<FacetCount>)
    ensures TopGroups(groups, limit, rows)
  {
    hide Taken;
    rows := [];
    var rest := groups;
    NoneTaken(groups);
    while |rows| < limit && rest.Keys != {}
      invariant |rows| <= limit && Taken(groups, rest, rows)
      decreases |rest|
    {
      var top := Largest(rest);
      TakenOne(groups, rest, rows, top);
      rows := rows + [FacetCount(top, rest[top])];
      rest := rest - {top};
    }
    TakenEnough(groups, rest, rows, limit);
  }

  lemma NoneTaken(groups: map<string, nat>)
    ensures Taken(groups, groups, [])
  {
  }

  lemma TakenEnough(groups: map<string, nat>, rest: map<string, nat>, rows: seq<FacetCount>, limit: nat)
    requires Taken(groups, rest, rows) && |rows| <= limit && (|rows| < limit ==> rest.Keys == {})
    ensures TopGroups(groups, limit, rows)
  {
    hide Shown;
    assert |rest| == |rest.Keys|;
  }

  lemma TakenOne(groups: map<string, nat>, rest: map<string, nat>, rows: seq<FacetCount>, top: string)
    requires Taken(groups, rest, rows) && top in rest && forall v :: v in rest ==> rest[v] <= rest[top]
    ensures Taken(groups, rest - {top}, rows + [FacetCount(top, rest[top])])
    ensures |rest - {top}| < |rest|
  {
    hide Shown;
    var rows', rest' := rows + [FacetCount(top, rest[top])], rest - {top};
    assert rest'.Keys == rest.Keys - {top};
    assert |rest'| == |rest'.Keys| && |rest| == |rest.Keys|;
    ShownOneMore(rows, FacetCount(top, rest[top]));
    assert forall i :: 0 <= i < |rows| ==> rows'[i] == rows[i] && rows[i].value != top && rows[i].count >= rest[top];
  }

  lemma ShownOneMore(rows: seq<FacetCount>, c: FacetCount)
    ensures forall i :: 0 <= i < |rows| ==> Shown(rows, rows[i].value)
    ensures forall v :: Shown(rows + [c], v) <==> Shown(rows, v) || v == c.value
  {
    var rows' := rows + [c];
    assert rows'[|rows|] == c && forall i :: 0 <= i < |rows| ==> rows'[i] == rows[i];
  }

  // The facets ComputeFacets marks as cappable.
  predicate Cappable(d: Dimension) {
    d == ByColumn(Publisher) || d.ByVendor? || d.ByProduct?
  }

  // facetColumn and facetProduct: the counts are those of the rows the list selects for the same filter.
  method FacetOf(f: Filters, publishable: seq<string>, fts: Fts, rows: set<Row>, d: Dimension) returns (group: FacetGroup)
    ensures IsFacet(Groups(ResultSet(Request(f, publishable, fts), rows), d), Cappable(d), group)
    ensures var found := ResultSet(Request(f, publishable, fts), rows);
      CountsRows(found, d, group.values) && MostFrequent(found, d, group.values) && CutIsRight(found, d, group)
  {
    hide Selected, Kept, TopGroups, IsFacet, Groups;
    var b := NewFilteredWhere(f, publishable, fts);
    var found := set r | r in rows && Kept(b.conditions, b.args, fts, r);
    assert found == ResultSet(Request(f, publishable, fts), rows);
    var groups := Groups(found, d);
    var top := TakeTop(groups, FACET_CAP + 1);
    group := ScanFacetGroup(top, Cappable(d), groups);
    FacetMeans(found, d, group);
  }

  // Each value is there once, with the number of rows that have it, none of them zero.
  ghost predicate CountsRows(found: set<Row>, d: Dimension, values: seq<FacetCount>) {
    && (forall i :: 0 <= i < |values| ==> values[i].count == |set r | r in found && values[i].value in ValuesOf(d, r)| > 0)
    && (forall i, j :: 0 <= i < j < |values| ==> values[i].value != values[j].value)
  }

  // The numbers fall, and no value left out is more frequent than one that is there.
  ghost predicate MostFrequent(found: set<Row>, d: Dimension, values: seq<FacetCount>) {
    && (forall i, j :: 0 <= i < j < |values| ==> values[i].count >= values[j].count)
    && (forall v, i :: 0 <= i < |values| && !Shown(values, v) ==> |Counted(found, d, v)| <= values[i].count)
  }

  // Publisher, vendor and product facets are flagged from 51 values on and show 50 then; the others are never
  // flagged and show 51 at most. Short of that, every value of a row is there.
  ghost predicate CutIsRight(found: set<Row>, d: Dimension, group: FacetGroup) {
    && (group.capped ==> d in {ByColumn(Publisher), ByVendor, ByProduct} && |group.values| == 50)
    && (!group.capped ==> |group.values| <= if d in {ByColumn(Publisher), ByVendor, ByProduct} then 50 else 51)
    && (!group.capped && |group.values| <= 50 ==> forall r, v :: r in found && v in ValuesOf(d, r) ==> Shown(group.values, v))
  }

  lemma FacetMeans(found: set<Row>, d: Dimension, group: FacetGroup)
    requires IsFacet(Groups(found, d), Cappable(d), group)
    ensures CountsRows(found, d, group.values) && MostFrequent(found, d, group.values) && CutIsRight(found, d, group)
  {
    hide CountsRows, MostFrequent, CutIsRight, TopGroups, Groups, Shown;
    var groups := Groups(found, d);
    var limit := if Cappable(d) then FACET_CAP else FACET_CAP + 1;
    GroupsCountRows(found, d, limit, group.values);
    GroupsAreTop(found, d, limit, group.values);
    GroupIsCompleteIff(groups, limit, group.values);
    TopSize(groups, limit, group.values);
    FacetIsCut(found, d, group);
  }

  lemma TopSize(groups: map<string, nat>, limit: nat, values: seq<FacetCount>)
    requires TopGroups(groups, limit, values)
    ensures |values| == Least(limit, |groups|)
  {
  }

  lemma GroupMeans(found: set<Row>, d: Dimension, v: string)
    ensures v in Groups(found, d) <==> Counted(found, d, v) != {}
    ensures v in Groups(found, d) ==> Groups(found, d)[v] == |Counted(found, d, v)|
  {
    hide ValuesOf;
    if r :| r in Counted(found, d, v) {
      assert r in found && v in ValuesOf(d, r);
    }
    if v in Groups(found, d) {
      var r :| r in found && v in ValuesOf(d, r);
      assert r in Counted(found, d, v);
    }
  }

  lemma GroupsCountRows(found: set<Row>, d: Dimension, limit: nat, values: seq<FacetCount>)
    requires TopGroups(Groups(found, d), limit, values)
    ensures CountsRows(found, d, values)
  {
    hide Groups, ValuesOf, Shown;
    forall i | 0 <= i < |values|
      ensures values[i].count == |set r | r in found && values[i].value in ValuesOf(d, r)| > 0
    {
      GroupMeans(found, d, values[i].value);
      assert Counted(found, d, values[i].value) == set r | r in found && values[i].value in ValuesOf(d, r);
    }
  }

  lemma GroupsAreTop(found: set<Row>, d: Dimension, limit: nat, values: seq<FacetCount>)
    requires TopGroups(Groups(found, d), limit, values)
    ensures MostFrequent(found, d, values)
  {
    hide Groups, ValuesOf, Shown, Counted;
    forall v, i | 0 <= i < |values| && !Shown(values, v) ensures |Counted(found, d, v)| <= values[i].count {
      GroupMeans(found, d, v);
    }
  }

  lemma FacetIsCut(found: set<Row>, d: Dimension, group: FacetGroup)
    requires IsFacet(Groups(found, d), Cappable(d), group)
    requires (forall v :: v in Groups(found, d) ==> Shown(group.values, v))
      <==> |Groups(found, d)| <= if Cappable(d) then FACET_CAP else FACET_CAP + 1
    requires |group.values| == Least(if Cappable(d) then FACET_CAP else FACET_CAP + 1, |Groups(found, d)|)
    ensures CutIsRight(found, d, group)
  {
    hide Groups, ValuesOf, Shown, TopGroups;
    forall r, v | r in found && v in ValuesOf(d, r) ensures v in Groups(found, d) {
      GroupMeans(found, d, v);
      assert r in Counted(found, d, v);
    }
  }

  // The flag tells whether something was cut if and only if the facet is cappable or has no more values than
  // the query returns.
  lemma FlagIsRightIff(groups: map<string, nat>, cappable: bool, group: FacetGroup)
    requires IsFacet(groups, cappable, group)
    ensures (group.capped <==> exists v :: v in groups && !Shown(group.values, v))
      <==> cappable || |groups| <= FACET_CAP + 1
  {
    hide Shown, TopGroups;
    GroupIsCompleteIff(groups, if cappable then FACET_CAP else FACET_CAP + 1, group.values);
  }

  lemma CutKeepsTop(groups: map<string, nat>, rows: seq<FacetCount>)
    requires TopGroups(groups, FACET_CAP + 1, rows) && |rows| > FACET_CAP
    ensures TopGroups(groups, FACET_CAP, rows[..FACET_CAP])
  {
    var cut := rows[..FACET_CAP];
    forall v, i | v in groups && !Shown(cut, v) && 0 <= i < |cut| ensures groups[v] <= cut[i].count {
      if Shown(rows, v) {
        var j := ShownAt(rows, v);
        NotShownEarlier(rows, FACET_CAP, v, j);
      }
    }
    hide Shown;
  }

  lemma ShownAt(rows: seq<FacetCount>, v: string) returns (j: nat)
    requires Shown(rows, v)
    ensures j < |rows| && rows[j].value == v
  {
    j :| 0 <= j < |rows| && rows[j].value == v;
  }

  lemma NotShownEarlier(rows: seq<FacetCount>, n: nat, v: string, j: nat)
    requires n <= |rows| && j < |rows| && rows[j].value == v && !Shown(rows[..n], v)
    ensures j >= n
  {
    forall m | 0 <= m < n ensures rows[m].value != v {
      assert rows[..n][m] == rows[m];
    }
  }

  // What a group shows is all there is exactly when the number of values is within what the query returns:
  // an uncapped facet of more values is cut without a flag.
  lemma GroupIsCompleteIff(groups: map<string, nat>, limit: nat, values: seq<FacetCount>)
    requires TopGroups(groups, limit, values)
    ensures (forall v :: v in groups ==> Shown(values, v)) <==> |groups| <= limit
  {
    var shown := set i | 0 <= i < |values| :: values[i].value;
    ShownSize(values);
    assert shown <= groups.Keys;
    assert forall v :: Shown(values, v) <==> v in shown;
    if |groups| <= limit {
      SameSize(shown, groups.Keys);
    }
    if forall v :: v in groups ==> Shown(values, v) {
      assert groups.Keys == shown;
    }
  }

  lemma {:induction false} ShownSize(values: seq<FacetCount>)
    requires forall i, j :: 0 <= i < j < |values| ==> values[i].value != values[j].value
    ensures |set i | 0 <= i < |values| :: values[i].value| == |values|
  {
    var shown := set i | 0 <= i < |values| :: values[i].value;
    if values == [] {
      assert shown == {};
    } else {
      var n := |values| - 1;
      var front := values[..n];
      ShownSize(front);
      assert shown == (set i | 0 <= i < |front| :: front[i].value) + {values[n].value};
    }
  }

  lemma SameSize<T>(part: set<T>, whole: set<T>)
    requires part <= whole && |part| >= |whole|
    ensures part == whole
  {
    assert whole == part + (whole - part);
  }

  // ---------- A facet that is cut and not flagged ----------

  function CategoryAt(n: nat): string {
    seq(n, _ => 'c')
  }

  function RowAt(n: nat): Row {
    Row(n, Some(true), false, Some("WHITE"), None, Some(CategoryAt(n)), None, None, None, {}, {})
  }

  function RowsUpTo(n: nat): set<Row> {
    set i: nat | i < n :: RowAt(i)
  }

  lemma {:induction false} CategoriesDiffer(n: nat)
    ensures |set i: nat | i < n :: CategoryAt(i)| == n
  {
    var all := set i: nat | i < n :: CategoryAt(i);
    if n == 0 {
      assert all == {};
    } else {
      CategoriesDiffer(n - 1);
      forall i: nat | i < n - 1 ensures CategoryAt(i) != CategoryAt(n - 1) {
        assert |CategoryAt(i)| != |CategoryAt(n - 1)|;
      }
      assert all == (set i: nat | i < n - 1 :: CategoryAt(i)) + {CategoryAt(n - 1)};
    }
  }

  lemma AllRowsSelected(n: nat, fts: Fts)
    ensures ResultSet(Request(NO_FILTERS, ["WHITE"], fts), RowsUpTo(n)) == RowsUpTo(n)
  {
    hide Selected;
    assert Upper("WHITE") == "WHITE";
    forall r | r in RowsUpTo(n) ensures Selected(Request(NO_FILTERS, ["WHITE"], fts), r) {
      NoFiltersSelect(Request(NO_FILTERS, ["WHITE"], fts), r);
    }
  }

  lemma GroupPerRow(n: nat)
    ensures Groups(RowsUpTo(n), ByColumn(Category)).Keys == set i: nat | i < n :: CategoryAt(i)
    ensures |Groups(RowsUpTo(n), ByColumn(Category))| == n
  {
    var groups := Groups(RowsUpTo(n), ByColumn(Category));
    forall i: nat | i < n ensures CategoryAt(i) in groups {
      assert RowAt(i) in RowsUpTo(n) && CategoryAt(i) in ValuesOf(ByColumn(Category), RowAt(i));
    }
    assert groups.Keys == set i: nat | i < n :: CategoryAt(i);
    hide Groups, RowsUpTo, RowAt, CategoryAt;
    CategoriesDiffer(n);
    assert |groups| == |groups.Keys|;
  }

  // Rows of 52 categories: the category facet leaves one out and does not say so.
  lemma FiftyTwoCategoriesAreCut(fts: Fts, group: FacetGroup)
    requires IsFacet(Groups(ResultSet(Request(NO_FILTERS, ["WHITE"], fts), RowsUpTo(52)), ByColumn(Category)),
                     Cappable(ByColumn(Category)), group)
    ensures !group.capped && |group.values| == 51
    ensures exists n: nat :: n < 52 && !Shown(group.values, CategoryAt(n))
  {
    hide Groups, RowsUpTo, Shown, ResultSet, CategoryAt;
    AllRowsSelected(52, fts);
    GroupPerRow(52);
    FlagIsRightIff(Groups(RowsUpTo(52), ByColumn(Category)), false, group);
  }
}
