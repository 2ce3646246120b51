/** The filter compiler: Filters to positional SQL conditions, and what those conditions mean. */
module Filters {
  import opened Text
  import opened ProductTree

  // A row of documents d JOIN advisories a, with the derived rows EXISTS looks at.
  datatype Row = Row(
    id: nat, latest: Option<bool>, withdrawn: bool,
    tlp: Option<string>, publisherName: Option<string>, category: Option<string>, lang: Option<string>,
    critical: Option<real>, released: Option<int>,
    cves: set<string>, pairs: set<Pair>)

  datatype Filters = Filters(
    query: string, cve: string, severity: seq<string>,
    scoreMin: Option<real>, scoreMax: Option<real>, from: Option<int>, to: Option<int>,
    product: string, vendor: string, publisher: string, tlp: seq<string>, category: string, lang: string)

  const NO_FILTERS := Filters("", "", [], None, None, None, None, "", "", "", [], "", "")

  // ---------- LIKE ----------

  // % matches any text, _ any character, and a backslash quotes the next character of the pattern.
  predicate Like(s: string, p: string)
    decreases |p|, |s|
  {
    if p == "" then s == ""
    else if p[0] == '%' then Like(s, p[1..]) || (s != "" && Like(s[1..], p))
    else if p[0] == '_' then s != "" && Like(s[1..], p[1..])
    else if p[0] == '\\' && |p| > 1 then s != "" && s[0] == p[1] && Like(s[1..], p[2..])
    else s != "" && s[0] == p[0] && Like(s[1..], p[1..])
  }

  predicate MatchesStart(s: string, c: string) {
    Like(s, c + "%")
  }

  predicate Plain(p: string) {
    forall c :: c in p ==> c != '%' && c != '_' && c != '\\'
  }

  // ---------- Conditions ----------

  datatype Arg = Text(text: string) | Texts(texts: seq<string>) | Number(number: real) | Time(time: int) | Count(count: int)

  datatype Column = Publisher | Category | Lang

  // One condition; `n` is its placeholder, counted from 1.
  datatype Cond =
    | IsLatest
    | NotWithdrawn
    | TlpIn(n: nat)
    | TsvMatches(n: nat)
    | CveLike(n: nat)
    | ScoreNull
    | ScoreIs(n: nat)
    | ScoreAtLeast(n: nat)
    | ScoreAtMost(n: nat)
    | ReleasedFrom(n: nat)
    | ReleasedTo(n: nat)
    | HasProduct(n: nat)
    | HasVendor(n: nat)
    | ColumnIs(column: Column, n: nat)
    | And(left: Cond, right: Cond)
    | Or(clauses: seq<Cond>)

  datatype Truth = True | False | Unknown

  function Of(b: bool): Truth {
    if b then True else False
  }

  // The full-text match of a document against a query, opaque here.
  type Fts = (nat, string) -> bool

  function ColumnOf(row: Row, column: Column): Option<string> {
    match column
    case Publisher => row.publisherName
    case Category => row.category
    case Lang => row.lang
  }

  // Every placeholder of the condition is bound, to an argument of the type it needs.
  ghost predicate Bound(c: Cond, args: seq<Arg>) {
    match c
    case IsLatest => true
    case NotWithdrawn => true
    case ScoreNull => true
    case TlpIn(n) => 0 < n <= |args| && args[n - 1].Texts?
    case TsvMatches(n) => 0 < n <= |args| && args[n - 1].Text?
    case CveLike(n) => 0 < n <= |args| && args[n - 1].Text?
    case ScoreIs(n) => 0 < n <= |args| && args[n - 1].Number?
    case ScoreAtLeast(n) => 0 < n <= |args| && args[n - 1].Number?
    case ScoreAtMost(n) => 0 < n <= |args| && args[n - 1].Number?
    case ReleasedFrom(n) => 0 < n <= |args| && args[n - 1].Time?
    case ReleasedTo(n) => 0 < n <= |args| && args[n - 1].Time?
    case HasProduct(n) => 0 < n <= |args| && args[n - 1].Text?
    case HasVendor(n) => 0 < n <= |args| && args[n - 1].Text?
    case ColumnIs(_, n) => 0 < n <= |args| && args[n - 1].Text?
    case And(l, r) => Bound(l, args) && Bound(r, args)
    case Or(cs) => forall i :: 0 <= i < |cs| ==> Bound(cs[i], args)
  }

  // SQL evaluation: a comparison with NULL is unknown, EXISTS is two-valued, AND and OR are Kleene's.
  function Eval(c: Cond, args: seq<Arg>, fts: Fts, row: Row): Truth
    requires Bound(c, args)
  {
    match c
    case IsLatest => if row.latest.None? then Unknown else Of(row.latest.value)
    case NotWithdrawn => Of(!row.withdrawn)
    case TlpIn(n) => if row.tlp.None? then Unknown else Of(Upper(row.tlp.value) in args[n - 1].texts)
    case TsvMatches(n) => Of(fts(row.id, args[n - 1].text))
    case CveLike(n) => Of(exists cve :: cve in row.cves && Like(Upper(cve), args[n - 1].text))
    case ScoreNull => Of(row.critical.None?)
    case ScoreIs(n) => if row.critical.None? then Unknown else Of(row.critical.value == args[n - 1].number)
    case ScoreAtLeast(n) => if row.critical.None? then Unknown else Of(row.critical.value >= args[n - 1].number)
    case ScoreAtMost(n) => if row.critical.None? then Unknown else Of(row.critical.value <= args[n - 1].number)
    case ReleasedFrom(n) => if row.released.None? then Unknown else Of(row.released.value >= args[n - 1].time)
    case ReleasedTo(n) => if row.released.None? then Unknown else Of(row.released.value <= args[n - 1].time)
    case HasProduct(n) => Of(exists p :: p in row.pairs && p.product.Some? && Lower(p.product.value) == Lower(args[n - 1].text))
    case HasVendor(n) => Of(exists p :: p in row.pairs && p.vendor.Some? && Lower(p.vendor.value) == Lower(args[n - 1].text))
    case ColumnIs(column, n) =>
      if ColumnOf(row, column).None? then Unknown else Of(ColumnOf(row, column).value == args[n - 1].text)
    case And(l, r) =>
      var a, b := Eval(l, args, fts, row), Eval(r, args, fts, row);
      if a == False || b == False then False else if a == True && b == True then True else Unknown
    case Or(cs) =>
      if exists i :: 0 <= i < |cs| && Eval(cs[i], args, fts, row) == True then True
      else if forall i :: 0 <= i < |cs| ==> Eval(cs[i], args, fts, row) == False then False
      else Unknown
  }

  ghost predicate AllBound(conds: seq<Cond>, args: seq<Arg>) {
    forall i :: 0 <= i < |conds| ==> Bound(conds[i], args)
  }

  // WHERE keeps a row when every AND-joined condition is true.
  predicate Kept(conds: seq<Cond>, args: seq<Arg>, fts: Fts, row: Row)
    requires AllBound(conds, args)
  {
    forall i :: 0 <= i < |conds| ==> Eval(conds[i], args, fts, row) == True
  }

  // ---------- What a filter means, read off the row ----------

  datatype Band = Band(min: real, max: real)

  function BandOf(name: string): Option<Band> {
    if name == "none" then Some(Band(0.0, 0.0))
    else if name == "low" then Some(Band(0.1, 3.9))
    else if name == "medium" then Some(Band(4.0, 6.9))
    else if name == "high" then Some(Band(7.0, 8.9))
    else if name == "critical" then Some(Band(9.0, 10.0))
    else None
  }

  function Requested(name: string): Option<Band> {
    BandOf(Lower(TrimSpace(name)))
  }

  predicate InBand(band: Band, critical: Option<real>) {
    if band == Band(0.0, 0.0) then critical.None? || critical.value == 0.0
    else critical.Some? && band.min <= critical.value <= band.max
  }

  ghost predicate SeverityOk(severity: seq<string>, critical: Option<real>) {
    || (forall i :: 0 <= i < |severity| ==> Requested(severity[i]).None?)
    || (exists i :: 0 <= i < |severity| && Requested(severity[i]).Some? && InBand(Requested(severity[i]).value, critical))
  }

  predicate TextOk(wanted: string, value: Option<string>) {
    TrimSpace(wanted) == "" || value == Some(TrimSpace(wanted))
  }

  ghost predicate CveOk(cve: string, row: Row) {
    TrimSpace(cve) == "" || exists c :: c in row.cves && MatchesStart(Upper(c), Upper(TrimSpace(cve)))
  }

  ghost predicate ProductOk(product: string, row: Row) {
    TrimSpace(product) == "" ||
    exists p :: p in row.pairs && p.product.Some? && Lower(p.product.value) == Lower(TrimSpace(product))
  }

  ghost predicate VendorOk(vendor: string, row: Row) {
    TrimSpace(vendor) == "" ||
    exists p :: p in row.pairs && p.vendor.Some? && Lower(p.vendor.value) == Lower(TrimSpace(vendor))
  }

  function UpperAll(labels: seq<string>): (r: seq<string>)
    ensures |r| == |labels|
  {
    seq(|labels|, i requires 0 <= i < |labels| => Upper(TrimSpace(labels[i])))
  }

  predicate TlpOk(labels: seq<string>, row: Row) {
    row.tlp.Some? && Upper(row.tlp.value) in labels
  }

  datatype Request = Request(f: Filters, publishable: seq<string>, fts: Fts)

  // What each clause of the request asks of a row, in the order the clauses are compiled.
  ghost predicate Part(n: nat, q: Request, row: Row) {
    match n
    case 1 => row.latest == Some(true)
    case 2 => !row.withdrawn
    case 3 => TlpOk(q.publishable, row)
    case 4 => TrimSpace(q.f.query) == "" || q.fts(row.id, TrimSpace(q.f.query))
    case 5 => CveOk(q.f.cve, row)
    case 6 => SeverityOk(q.f.severity, row.critical)
    case 7 => q.f.scoreMin.None? || (row.critical.Some? && row.critical.value >= q.f.scoreMin.value)
    case 8 => q.f.scoreMax.None? || (row.critical.Some? && row.critical.value <= q.f.scoreMax.value)
    case 9 => q.f.from.None? || (row.released.Some? && row.released.value >= q.f.from.value)
    case 10 => q.f.to.None? || (row.released.Some? && row.released.value <= q.f.to.value)
    case 11 => ProductOk(q.f.product, row)
    case 12 => VendorOk(q.f.vendor, row)
    case 13 => TextOk(q.f.publisher, row.publisherName)
    case 14 => q.f.tlp == [] || TlpOk(UpperAll(q.f.tlp), row)
    case 15 => TextOk(q.f.category, row.category)
    case 16 => TextOk(q.f.lang, row.lang)
    case _ => true
  }

  ghost predicate UpTo(n: nat, q: Request, row: Row) {
    if n == 0 then true else UpTo(n - 1, q, row) && Part(n, q, row)
  }

  const PARTS := 16

  // The row belongs to the result set: it passes every clause.
  ghost predicate Selected(q: Request, row: Row) {
    forall n :: 1 <= n <= PARTS ==> Part(n, q, row)
  }

  // Without filters only the unconditional clauses are left.
  lemma NoFiltersSelect(q: Request, row: Row)
    requires q.f == NO_FILTERS
    ensures Selected(q, row) <==>
      row.latest == Some(true) && !row.withdrawn && row.tlp.Some? && Upper(row.tlp.value) in q.publishable
  {
    assert TrimSpace("") == "";
    if Selected(q, row) {
      assert Part(1, q, row) && Part(2, q, row) && Part(3, q, row);
    } else {
      hide TrimSpace;
      var n :| 1 <= n <= PARTS && !Part(n, q, row);
      assert n <= 3;
    }
  }

  // ---------- What each filter adds, field by field ----------

  // A request that differs in one clause, which the other leaves open, selects the rows that also pass it.
  lemma OneMoreClause(q: Request, more: Request, n: nat, row: Row)
    requires 1 <= n <= PARTS && Part(n, q, row)
    requires forall k :: 1 <= k <= PARTS && k != n ==> Part(k, q, row) == Part(k, more, row)
    ensures Selected(more, row) <==> Selected(q, row) && Part(n, more, row)
  {
    hide Part;
  }

  lemma QueryNarrows(q: Request, text: string, row: Row)
    requires TrimSpace(q.f.query) == ""
    ensures Selected(q.(f := q.f.(query := text)), row)
      <==> Selected(q, row) && (TrimSpace(text) == "" || q.fts(row.id, TrimSpace(text)))
  {
    hide TrimSpace, CveOk, SeverityOk, ProductOk, VendorOk, TextOk, TlpOk, UpperAll, Selected;
    OneMoreClause(q, q.(f := q.f.(query := text)), 4, row);
  }

  lemma CveNarrows(q: Request, text: string, row: Row)
    requires TrimSpace(q.f.cve) == ""
    ensures Selected(q.(f := q.f.(cve := text)), row)
      <==> Selected(q, row) && (TrimSpace(text) == "" || exists c :: c in row.cves && Like(Upper(c), Upper(TrimSpace(text)) + "%"))
  {
    hide TrimSpace, SeverityOk, ProductOk, VendorOk, TextOk, TlpOk, UpperAll, Selected, Like;
    OneMoreClause(q, q.(f := q.f.(cve := text)), 5, row);
  }

  // The score of a rating, named in upper case; no score rates as NONE.
  predicate Rated(name: string, critical: Option<real>) {
    || (name == "NONE" && (critical.None? || critical.value == 0.0))
    || (name == "LOW" && critical.Some? && 0.1 <= critical.value <= 3.9)
    || (name == "MEDIUM" && critical.Some? && 4.0 <= critical.value <= 6.9)
    || (name == "HIGH" && critical.Some? && 7.0 <= critical.value <= 8.9)
    || (name == "CRITICAL" && critical.Some? && 9.0 <= critical.value <= 10.0)
  }

  const RATINGS := ["NONE", "LOW", "MEDIUM", "HIGH", "CRITICAL"]

  // Case and outer blanks of a requested rating do not matter.
  lemma RequestedMeans(name: string, critical: Option<real>)
    ensures Requested(name).Some? <==> Upper(TrimSpace(name)) in RATINGS
    ensures Requested(name).Some? ==> (InBand(Requested(name).value, critical) <==> Rated(Upper(TrimSpace(name)), critical))
  {
    var text := TrimSpace(name);
    hide TrimSpace;
    CaseUndone(text);
    RatingNames();
    hide Upper, Lower;
  }

  lemma RatingNames()
    ensures Upper("none") == "NONE" && Upper("low") == "LOW" && Upper("medium") == "MEDIUM"
    ensures Upper("high") == "HIGH" && Upper("critical") == "CRITICAL"
    ensures Lower("NONE") == "none" && Lower("LOW") == "low" && Lower("MEDIUM") == "medium"
    ensures Lower("HIGH") == "high" && Lower("CRITICAL") == "critical"
  {
  }

  // No name is that of a rating, or the score has one of the ratings named.
  predicate RatedAsAsked(names: seq<string>, critical: Option<real>) {
    || (forall i :: 0 <= i < |names| ==> Upper(TrimSpace(names[i])) !in RATINGS)
    || (exists i :: 0 <= i < |names| && Rated(Upper(TrimSpace(names[i])), critical))
  }

  lemma SeverityNarrows(q: Request, names: seq<string>, row: Row)
    requires q.f.severity == []
    ensures Selected(q.(f := q.f.(severity := names)), row)
      <==> Selected(q, row) && RatedAsAsked(names, row.critical)
  {
    hide TrimSpace, CveOk, ProductOk, VendorOk, TextOk, TlpOk, UpperAll, Selected, Requested, InBand, Upper, Rated;
    forall i | 0 <= i < |names|
      ensures Requested(names[i]).Some? <==> Upper(TrimSpace(names[i])) in RATINGS
      ensures Requested(names[i]).Some? && InBand(Requested(names[i]).value, row.critical)
        <==> Rated(Upper(TrimSpace(names[i])), row.critical)
    {
      RequestedMeans(names[i], row.critical);
      RatedIsRating(Upper(TrimSpace(names[i])), row.critical);
    }
    OneMoreClause(q, q.(f := q.f.(severity := names)), 6, row);
  }

  lemma RatedIsRating(name: string, critical: Option<real>)
    ensures Rated(name, critical) ==> name in RATINGS
  {
    assert RATINGS[0] == "NONE" && RATINGS[1] == "LOW" && RATINGS[2] == "MEDIUM" && RATINGS[3] == "HIGH" && RATINGS[4] == "CRITICAL";
  }

  lemma ScoreMinNarrows(q: Request, min: real, row: Row)
    requires q.f.scoreMin.None?
    ensures Selected(q.(f := q.f.(scoreMin := Some(min))), row)
      <==> Selected(q, row) && row.critical.Some? && row.critical.value >= min
  {
    hide TrimSpace, CveOk, SeverityOk, ProductOk, VendorOk, TextOk, TlpOk, UpperAll, Selected;
    OneMoreClause(q, q.(f := q.f.(scoreMin := Some(min))), 7, row);
  }

  lemma ScoreMaxNarrows(q: Request, max: real, row: Row)
    requires q.f.scoreMax.None?
    ensures Selected(q.(f := q.f.(scoreMax := Some(max))), row)
      <==> Selected(q, row) && row.critical.Some? && row.critical.value <= max
  {
    hide TrimSpace, CveOk, SeverityOk, ProductOk, VendorOk, TextOk, TlpOk, UpperAll, Selected;
    OneMoreClause(q, q.(f := q.f.(scoreMax := Some(max))), 8, row);
  }

  lemma FromNarrows(q: Request, from: int, row: Row)
    requires q.f.from.None?
    ensures Selected(q.(f := q.f.(from := Some(from))), row)
      <==> Selected(q, row) && row.released.Some? && row.released.value >= from
  {
    hide TrimSpace, CveOk, SeverityOk, ProductOk, VendorOk, TextOk, TlpOk, UpperAll, Selected;
    OneMoreClause(q, q.(f := q.f.(from := Some(from))), 9, row);
  }

  lemma ToNarrows(q: Request, to: int, row: Row)
    requires q.f.to.None?
    ensures Selected(q.(f := q.f.(to := Some(to))), row)
      <==> Selected(q, row) && row.released.Some? && row.released.value <= to
  {
    hide TrimSpace, CveOk, SeverityOk, ProductOk, VendorOk, TextOk, TlpOk, UpperAll, Selected;
    OneMoreClause(q, q.(f := q.f.(to := Some(to))), 10, row);
  }

  lemma ProductNarrows(q: Request, name: string, row: Row)
    requires TrimSpace(q.f.product) == ""
    ensures Selected(q.(f := q.f.(product := name)), row)
      <==> Selected(q, row) &&
           (TrimSpace(name) == "" || exists p :: p in row.pairs && p.product.Some? && Lower(p.product.value) == Lower(TrimSpace(name)))
  {
    hide TrimSpace, CveOk, SeverityOk, VendorOk, TextOk, TlpOk, UpperAll, Selected, Lower;
    OneMoreClause(q, q.(f := q.f.(product := name)), 11, row);
  }

  lemma VendorNarrows(q: Request, name: string, row: Row)
    requires TrimSpace(q.f.vendor) == ""
    ensures Selected(q.(f := q.f.(vendor := name)), row)
      <==> Selected(q, row) &&
           (TrimSpace(name) == "" || exists p :: p in row.pairs && p.vendor.Some? && Lower(p.vendor.value) == Lower(TrimSpace(name)))
  {
    hide TrimSpace, CveOk, SeverityOk, ProductOk, TextOk, TlpOk, UpperAll, Selected, Lower;
    OneMoreClause(q, q.(f := q.f.(vendor := name)), 12, row);
  }

  lemma PublisherNarrows(q: Request, name: string, row: Row)
    requires TrimSpace(q.f.publisher) == ""
    ensures Selected(q.(f := q.f.(publisher := name)), row)
      <==> Selected(q, row) && (TrimSpace(name) == "" || row.publisherName == Some(TrimSpace(name)))
  {
    hide TrimSpace, CveOk, SeverityOk, ProductOk, VendorOk, TlpOk, UpperAll, Selected;
    OneMoreClause(q, q.(f := q.f.(publisher := name)), 13, row);
  }

  lemma TlpNarrows(q: Request, labels: seq<string>, row: Row)
    requires q.f.tlp == [] && labels != []
    ensures Selected(q.(f := q.f.(tlp := labels)), row)
      <==> Selected(q, row) && row.tlp.Some? && exists i :: 0 <= i < |labels| && Upper(TrimSpace(labels[i])) == Upper(row.tlp.value)
  {
    hide TrimSpace, CveOk, SeverityOk, ProductOk, VendorOk, TextOk, Selected, Upper;
    OneMoreClause(q, q.(f := q.f.(tlp := labels)), 14, row);
    if row.tlp.Some? {
      assert Upper(row.tlp.value) in UpperAll(labels)
        <==> exists i :: 0 <= i < |labels| && UpperAll(labels)[i] == Upper(row.tlp.value);
      assert forall i :: 0 <= i < |labels| ==> UpperAll(labels)[i] == Upper(TrimSpace(labels[i]));
    }
  }

  lemma CategoryNarrows(q: Request, name: string, row: Row)
    requires TrimSpace(q.f.category) == ""
    ensures Selected(q.(f := q.f.(category := name)), row)
      <==> Selected(q, row) && (TrimSpace(name) == "" || row.category == Some(TrimSpace(name)))
  {
    hide TrimSpace, CveOk, SeverityOk, ProductOk, VendorOk, TlpOk, UpperAll, Selected;
    OneMoreClause(q, q.(f := q.f.(category := name)), 15, row);
  }

  lemma LangNarrows(q: Request, name: string, row: Row)
    requires TrimSpace(q.f.lang) == ""
    ensures Selected(q.(f := q.f.(lang := name)), row)
      <==> Selected(q, row) && (TrimSpace(name) == "" || row.lang == Some(TrimSpace(name)))
  {
    hide TrimSpace, CveOk, SeverityOk, ProductOk, VendorOk, TlpOk, UpperAll, Selected;
    OneMoreClause(q, q.(f := q.f.(lang := name)), 16, row);
  }

  // ---------- Compilation preserves meaning ----------

  // What has been compiled so far selects exactly the rows that pass the first n clauses.
  ghost predicate Means(conds: seq<Cond>, args: seq<Arg>, q: Request, n: nat) {
    AllBound(conds, args) && forall row :: Kept(conds, args, q.fts, row) <==> UpTo(n, q, row)
  }

  lemma {:induction false} BoundGrows(c: Cond, args: seq<Arg>, more: seq<Arg>)
    requires Bound(c, args)
    ensures Bound(c, args + more)
    decreases c
  {
    match c
    case And(l, r) =>
      BoundGrows(l, args, more);
      BoundGrows(r, args, more);
    case Or(cs) =>
      forall i | 0 <= i < |cs| ensures Bound(cs[i], args + more) {
        BoundGrows(cs[i], args, more);
      }
    case _ =>
  }

  // A later bind changes no earlier condition.
  lemma {:induction false} EvalStable(c: Cond, args: seq<Arg>, more: seq<Arg>, fts: Fts, row: Row)
    requires Bound(c, args)
    ensures Bound(c, args + more) && Eval(c, args + more, fts, row) == Eval(c, args, fts, row)
    decreases c
  {
    hide Like, Upper, Lower;
    BoundGrows(c, args, more);
    match c
    case And(l, r) =>
      EvalStable(l, args, more, fts, row);
      EvalStable(r, args, more, fts, row);
    case Or(cs) =>
      forall i | 0 <= i < |cs| ensures Bound(cs[i], args + more) && Eval(cs[i], args + more, fts, row) == Eval(cs[i], args, fts, row) {
        EvalStable(cs[i], args, more, fts, row);
      }
    case _ =>
  }

  lemma KeptStable(conds: seq<Cond>, args: seq<Arg>, more: seq<Arg>, fts: Fts, row: Row)
    requires AllBound(conds, args)
    ensures AllBound(conds, args + more)
    ensures Kept(conds, args + more, fts, row) <==> Kept(conds, args, fts, row)
  {
    hide Bound, Eval;
    forall i | 0 <= i < |conds|
      ensures Bound(conds[i], args + more) && Eval(conds[i], args + more, fts, row) == Eval(conds[i], args, fts, row)
    {
      EvalStable(conds[i], args, more, fts, row);
    }
  }

  lemma AllBoundGrows(conds: seq<Cond>, args: seq<Arg>, more: seq<Arg>)
    requires AllBound(conds, args)
    ensures AllBound(conds, args + more)
  {
    hide Bound;
    forall i | 0 <= i < |conds| ensures Bound(conds[i], args + more) {
      BoundGrows(conds[i], args, more);
    }
  }

  // Appending one condition that says clause n extends the meaning by it.
  lemma AddedMeans(conds: seq<Cond>, args: seq<Arg>, c: Cond, more: seq<Arg>, q: Request, n: nat)
    requires n > 0 && Means(conds, args, q, n - 1) && Bound(c, args + more)
    requires forall row :: Eval(c, args + more, q.fts, row) == True <==> Part(n, q, row)
    ensures Means(conds + [c], args + more, q, n)
  {
    hide Bound, Eval, Part;
    var conds', args' := conds + [c], args + more;
    AllBoundGrows(conds, args, more);
    forall row: Row ensures Kept(conds', args', q.fts, row) <==> UpTo(n, q, row) {
      KeptStable(conds, args, more, q.fts, row);
      assert forall i :: 0 <= i < |conds| ==> conds'[i] == conds[i];
      assert conds'[|conds|] == c;
    }
  }

  lemma NothingMeans(q: Request)
    ensures Means([], [], q, 0)
  {
  }

  // A clause the request leaves open adds nothing.
  lemma SkippedMeans(conds: seq<Cond>, args: seq<Arg>, q: Request, n: nat)
    requires n > 0 && Means(conds, args, q, n - 1)
    requires forall row :: Part(n, q, row)
    ensures Means(conds, args, q, n)
  {
    hide Bound, Eval, Part, Kept;
    forall row: Row ensures UpTo(n, q, row) <==> UpTo(n - 1, q, row) {
    }
  }

  class QueryBuilder {
    var conditions: seq<Cond>
    var args: seq<Arg>
    var ftsParamIndex: nat

    ghost predicate Compiled(q: Request, n: nat)
      reads this
    {
      Means(conditions, args, q, n)
    }

    constructor ()
      ensures conditions == [] && args == [] && ftsParamIndex == 0
    {
      conditions, args, ftsParamIndex := [], [], 0;
    }

    // The 1-based index of the new parameter.
    method Bind(value: Arg) returns (n: nat)
      modifies this`args
      ensures args == old(args) + [value] && n == |args|
    {
      args := args + [value];
      n := |args|;
    }

    method AddCond(condition: Cond)
      modifies this`conditions
      ensures conditions == old(conditions) + [condition]
    {
      conditions := conditions + [condition];
    }

    // The invariants, added first and unconditionally.
    method AddInvariants(publishable: seq<string>, ghost q: Request)
      requires conditions == [] && args == [] && q.publishable == publishable
      modifies this`conditions, this`args
      ensures Compiled(q, 3)
    {
      hide CveOk, SeverityOk, ProductOk, VendorOk, TextOk, TrimSpace, Upper, Lower, Like, Means;
      NothingMeans(q);
      assert args + [] == args;
      AddedMeans(conditions, args, IsLatest, [], q, 1);
      AddCond(IsLatest);
      AddedMeans(conditions, args, NotWithdrawn, [], q, 2);
      AddCond(NotWithdrawn);
      AddedMeans(conditions, args, TlpIn(1), [Texts(publishable)], q, 3);
      var n := Bind(Texts(publishable));
      AddCond(TlpIn(n));
    }

    method AddFts(query: string, ghost q: Request)
      requires Compiled(q, 3) && q.f.query == query && ftsParamIndex == 0
      modifies this
      ensures Compiled(q, 4)
      ensures (ftsParamIndex > 0) == (TrimSpace(query) != "")
      ensures ftsParamIndex > 0 ==> ftsParamIndex <= |args| && args[ftsParamIndex - 1] == Text(TrimSpace(query))
    {
      var text := TrimSpace(query);
      if text == "" {
        SkippedMeans(conditions, args, q, 4);
        return;
      }
      AddedMeans(conditions, args, TsvMatches(|args| + 1), [Text(text)], q, 4);
      ftsParamIndex := Bind(Text(text));
      AddCond(TsvMatches(ftsParamIndex));
    }

    method AddCve(cve: string, ghost q: Request)
      requires Compiled(q, 4) && q.f.cve == cve
      modifies this`conditions, this`args
      ensures Compiled(q, 5) && old(args) <= args
    {
      hide Like;
      var text := TrimSpace(cve);
      if text == "" {
        SkippedMeans(conditions, args, q, 5);
        return;
      }
      var pattern := Text(Upper(text) + "%");
      AddedMeans(conditions, args, CveLike(|args| + 1), [pattern], q, 5);
      var n := Bind(pattern);
      AddCond(CveLike(n));
    }

    // The clause of one band.
    method BandClause(band: Band, ghost fts: Fts) returns (clause: Cond)
      modifies this`args
      ensures old(args) <= args && Bound(clause, args)
      ensures forall row :: Eval(clause, args, fts, row) == True <==> InBand(band, row.critical)
    {
      var lo := Bind(Number(band.min));
      if band.min == 0.0 && band.max == 0.0 {
        var either := [ScoreNull, ScoreIs(lo)];
        forall row: Row ensures Eval(Or(either), args, fts, row) == True <==> InBand(band, row.critical) {
          assert Eval(either[0], args, fts, row) == Of(row.critical.None?);
          assert Eval(either[1], args, fts, row) == if row.critical.None? then Unknown else Of(row.critical.value == band.min);
        }
        return Or(either);
      }
      var hi := Bind(Number(band.max));
      return And(ScoreAtLeast(lo), ScoreAtMost(hi));
    }

    // severityCondition: one clause for each recognised band; unknown names are skipped.
    method BandClauses(bands: seq<string>, ghost fts: Fts) returns (clauses: seq<Cond>)
      modifies this`args
      ensures old(args) <= args && AllBound(clauses, args)
      ensures clauses == [] <==> forall i :: 0 <= i < |bands| ==> Requested(bands[i]).None?
      ensures forall row :: AnyTrue(clauses, args, fts, row) <==> AnyBand(bands, row.critical)
    {
      hide Bound, Eval, Requested, InBand;
      clauses := [];
      for i := 0 to |bands|
        invariant old(args) <= args && AllBound(clauses, args)
        invariant clauses == [] <==> forall j :: 0 <= j < i ==> Requested(bands[j]).None?
        invariant forall row :: AnyTrue(clauses, args, fts, row) <==> AnyBand(bands[..i], row.critical)
      {
        ghost var clauses0, args0 := clauses, args;
        var band := Requested(bands[i]);
        if band.Some? {
          var clause := BandClause(band.value, fts);
          assert args0 + args[|args0|..] == args;
          ClauseAppended(clauses0, args0, clause, args[|args0|..], fts);
          clauses := clauses + [clause];
        }
        forall row: Row ensures AnyBand(bands[..i + 1], row.critical)
          <==> AnyBand(bands[..i], row.critical) || (band.Some? && InBand(band.value, row.critical))
        {
          BandAppended(bands, i, row.critical);
        }
      }
      assert bands[..|bands|] == bands;
    }

    method AddSeverity(bands: seq<string>, ghost q: Request)
      requires Compiled(q, 5) && q.f.severity == bands
      modifies this`conditions, this`args
      ensures Compiled(q, 6) && old(args) <= args
    {
      ghost var args0 := args;
      var clauses := BandClauses(bands, q.fts);
      assert args == args0 + args[|args0|..];
      if clauses == [] {
        forall row: Row ensures Part(6, q, row) {
        }
        MeansGrows(conditions, args0, args[|args0|..], q, 5);
        SkippedMeans(conditions, args, q, 6);
        return;
      }
      forall row: Row ensures Eval(Or(clauses), args, q.fts, row) == True <==> Part(6, q, row) {
        assert AnyTrue(clauses, args, q.fts, row) <==> AnyBand(bands, row.critical);
      }
      AddedMeans(conditions, args0, Or(clauses), args[|args0|..], q, 6);
      AddCond(Or(clauses));
    }

    method AddScoreMin(min: Option<real>, ghost q: Request)
      requires Compiled(q, 6) && q.f.scoreMin == min
      modifies this`conditions, this`args
      ensures Compiled(q, 7) && old(args) <= args
    {
      hide CveOk, SeverityOk, ProductOk, VendorOk, TlpOk, TextOk, TrimSpace;
      if min.Some? {
        AddedMeans(conditions, args, ScoreAtLeast(|args| + 1), [Number(min.value)], q, 7);
        var n := Bind(Number(min.value));
        AddCond(ScoreAtLeast(n));
      } else {
        SkippedMeans(conditions, args, q, 7);
      }
    }

    method AddScoreMax(max: Option<real>, ghost q: Request)
      requires Compiled(q, 7) && q.f.scoreMax == max
      modifies this`conditions, this`args
      ensures Compiled(q, 8) && old(args) <= args
    {
      hide CveOk, SeverityOk, ProductOk, VendorOk, TlpOk, TextOk, TrimSpace;
      if max.Some? {
        AddedMeans(conditions, args, ScoreAtMost(|args| + 1), [Number(max.value)], q, 8);
        var n := Bind(Number(max.value));
        AddCond(ScoreAtMost(n));
      } else {
        SkippedMeans(conditions, args, q, 8);
      }
    }

    method AddFrom(from: Option<int>, ghost q: Request)
      requires Compiled(q, 8) && q.f.from == from
      modifies this`conditions, this`args
      ensures Compiled(q, 9) && old(args) <= args
    {
      hide CveOk, SeverityOk, ProductOk, VendorOk, TlpOk, TextOk, TrimSpace;
      if from.Some? {
        AddedMeans(conditions, args, ReleasedFrom(|args| + 1), [Time(from.value)], q, 9);
        var n := Bind(Time(from.value));
        AddCond(ReleasedFrom(n));
      } else {
        SkippedMeans(conditions, args, q, 9);
      }
    }

    method AddTo(to: Option<int>, ghost q: Request)
      requires Compiled(q, 9) && q.f.to == to
      modifies this`conditions, this`args
      ensures Compiled(q, 10) && old(args) <= args
    {
      hide CveOk, SeverityOk, ProductOk, VendorOk, TlpOk, TextOk, TrimSpace;
      if to.Some? {
        AddedMeans(conditions, args, ReleasedTo(|args| + 1), [Time(to.value)], q, 10);
        var n := Bind(Time(to.value));
        AddCond(ReleasedTo(n));
      } else {
        SkippedMeans(conditions, args, q, 10);
      }
    }

    method AddProduct(product: string, ghost q: Request)
      requires Compiled(q, 10) && q.f.product == product
      modifies this`conditions, this`args
      ensures Compiled(q, 11) && old(args) <= args
    {
      hide Lower, TrimSpace;
      var text := TrimSpace(product);
      if text != "" {
        AddedMeans(conditions, args, HasProduct(|args| + 1), [Text(text)], q, 11);
        var n := Bind(Text(text));
        AddCond(HasProduct(n));
      } else {
        SkippedMeans(conditions, args, q, 11);
      }
    }

    method AddVendor(vendor: string, ghost q: Request)
      requires Compiled(q, 11) && q.f.vendor == vendor
      modifies this`conditions, this`args
      ensures Compiled(q, 12) && old(args) <= args
    {
      hide Lower, TrimSpace;
      var text := TrimSpace(vendor);
      if text != "" {
        AddedMeans(conditions, args, HasVendor(|args| + 1), [Text(text)], q, 12);
        var n := Bind(Text(text));
        AddCond(HasVendor(n));
      } else {
        SkippedMeans(conditions, args, q, 12);
      }
    }

    // An exact match on a trimmed text, unless it is blank; clause k is about that column.
    method AddColumn(wanted: string, column: Column, ghost q: Request, ghost k: nat)
      requires k > 0 && Compiled(q, k - 1)
      requires forall row :: Part(k, q, row) <==> TextOk(wanted, ColumnOf(row, column))
      modifies this`conditions, this`args
      ensures Compiled(q, k) && old(args) <= args
    {
      hide Part, TrimSpace;
      var text := TrimSpace(wanted);
      if text != "" {
        AddedMeans(conditions, args, ColumnIs(column, |args| + 1), [Text(text)], q, k);
        var n := Bind(Text(text));
        AddCond(ColumnIs(column, n));
      } else {
        SkippedMeans(conditions, args, q, k);
      }
    }

    method AddTlp(labels: seq<string>, ghost q: Request)
      requires Compiled(q, 13) && q.f.tlp == labels
      modifies this`conditions, this`args
      ensures Compiled(q, 14) && old(args) <= args
    {
      hide Upper, TrimSpace;
      if |labels| > 0 {
        AddedMeans(conditions, args, TlpIn(|args| + 1), [Texts(UpperAll(labels))], q, 14);
        var n := Bind(Texts(UpperAll(labels)));
        AddCond(TlpIn(n));
      } else {
        SkippedMeans(conditions, args, q, 14);
      }
    }

    // The score and date bounds.
    method AddRanges(f: Filters, ghost q: Request)
      requires Compiled(q, 6) && q.f == f
      modifies this`conditions, this`args
      ensures Compiled(q, 10) && old(args) <= args
    {
      hide Means;
      AddScoreMin(f.scoreMin, q);
      AddScoreMax(f.scoreMax, q);
      AddFrom(f.from, q);
      AddTo(f.to, q);
    }

    // The matches by name, label and column.
    method AddNames(f: Filters, ghost q: Request)
      requires Compiled(q, 10) && q.f == f
      modifies this`conditions, this`args
      ensures Compiled(q, 16) && old(args) <= args
    {
      ColumnClauses(q);
      hide Means, Part, TextOk, ColumnOf;
      AddProduct(f.product, q);
      AddVendor(f.vendor, q);
      AddColumn(f.publisher, Publisher, q, 13);
      AddTlp(f.tlp, q);
      AddColumn(f.category, Category, q, 15);
      AddColumn(f.lang, Lang, q, 16);
    }
  }

  ghost predicate AnyTrue(clauses: seq<Cond>, args: seq<Arg>, fts: Fts, row: Row)
    requires AllBound(clauses, args)
  {
    exists i :: 0 <= i < |clauses| && Eval(clauses[i], args, fts, row) == True
  }

  ghost predicate AnyBand(bands: seq<string>, critical: Option<real>) {
    exists i :: 0 <= i < |bands| && Requested(bands[i]).Some? && InBand(Requested(bands[i]).value, critical)
  }

  lemma BandAppended(bands: seq<string>, i: nat, critical: Option<real>)
    requires i < |bands|
    ensures var band := Requested(bands[i]);
      AnyBand(bands[..i + 1], critical) <==> AnyBand(bands[..i], critical) || (band.Some? && InBand(band.value, critical))
  {
    hide Requested, InBand;
    var front, longer := bands[..i], bands[..i + 1];
    assert longer[i] == bands[i] && forall j :: 0 <= j < i ==> longer[j] == front[j];
  }

  lemma ClauseAppended(clauses: seq<Cond>, args: seq<Arg>, c: Cond, more: seq<Arg>, fts: Fts)
    requires AllBound(clauses, args) && Bound(c, args + more)
    ensures AllBound(clauses + [c], args + more)
    ensures forall row :: AnyTrue(clauses + [c], args + more, fts, row)
                          <==> AnyTrue(clauses, args, fts, row) || Eval(c, args + more, fts, row) == True
  {
    hide Bound, Eval;
    AllBoundGrows(clauses, args, more);
    var longer := clauses + [c];
    assert longer[|clauses|] == c && forall i :: 0 <= i < |clauses| ==> longer[i] == clauses[i];
    forall row: Row, i | 0 <= i < |clauses| ensures Eval(clauses[i], args + more, fts, row) == Eval(clauses[i], args, fts, row) {
      EvalStable(clauses[i], args, more, fts, row);
    }
  }

  lemma MeansGrows(conds: seq<Cond>, args: seq<Arg>, more: seq<Arg>, q: Request, n: nat)
    requires Means(conds, args, q, n)
    ensures Means(conds, args + more, q, n)
  {
    hide Bound, Eval, UpTo, Kept;
    AllBoundGrows(conds, args, more);
    forall row: Row ensures Kept(conds, args + more, q.fts, row) <==> UpTo(n, q, row) {
      KeptStable(conds, args, more, q.fts, row);
    }
  }

  // The compiled WHERE clause selects exactly the rows the request asks for.
  method NewFilteredWhere(f: Filters, publishable: seq<string>, ghost fts: Fts) returns (b: QueryBuilder)
    ensures fresh(b)
    ensures AllBound(b.conditions, b.args)
    ensures forall row :: Kept(b.conditions, b.args, fts, row) <==> Selected(Request(f, publishable, fts), row)
    ensures (b.ftsParamIndex > 0) == (TrimSpace(f.query) != "")
    ensures b.ftsParamIndex > 0 ==> b.ftsParamIndex <= |b.args| && b.args[b.ftsParamIndex - 1] == Text(TrimSpace(f.query))
  {
    ghost var q := Request(f, publishable, fts);
    hide Means, UpTo, Selected, TrimSpace;
    b := new QueryBuilder();
    b.AddInvariants(publishable, q);
    b.AddFts(f.query, q);
    b.AddCve(f.cve, q);
    b.AddSeverity(f.severity, q);
    b.AddRanges(f, q);
    b.AddNames(f, q);
    AllPartsSelect(b.conditions, b.args, q);
  }

  lemma ColumnClauses(q: Request)
    ensures forall row :: Part(13, q, row) <==> TextOk(q.f.publisher, ColumnOf(row, Publisher))
    ensures forall row :: Part(15, q, row) <==> TextOk(q.f.category, ColumnOf(row, Category))
    ensures forall row :: Part(16, q, row) <==> TextOk(q.f.lang, ColumnOf(row, Lang))
  {
    hide TextOk;
  }

  lemma AllPartsSelect(conds: seq<Cond>, args: seq<Arg>, q: Request)
    requires Means(conds, args, q, PARTS)
    ensures AllBound(conds, args)
    ensures forall row :: Kept(conds, args, q.fts, row) <==> Selected(q, row)
  {
    hide Bound, Kept, Part;
    forall row: Row ensures UpTo(PARTS, q, row) <==> Selected(q, row) {
      UpToIsAll(PARTS, q, row);
    }
  }

  lemma {:induction false} UpToIsAll(n: nat, q: Request, row: Row)
    ensures UpTo(n, q, row) <==> forall i :: 1 <= i <= n ==> Part(i, q, row)
  {
    hide Part;
    if n > 0 {
      UpToIsAll(n - 1, q, row);
    }
  }

  // ---------- The CVE filter is a prefix match only for a plain text ----------

  lemma {:induction false} LikePlainPrefix(s: string, c: string)
    requires Plain(c)
    ensures Like(s, c + "%") <==> c <= s
    decreases |c|, |s|
  {
    var p := c + "%";
    if c == "" {
      LikeAnything(s);
      assert p == "%";
    } else {
      assert c[0] in c && p[0] == c[0] && p[1..] == c[1..] + "%";
      if s != "" {
        assert forall x :: x in c[1..] ==> x in c;
        LikePlainPrefix(s[1..], c[1..]);
        assert s[0] == c[0] && c[1..] <= s[1..] ==> c == [c[0]] + c[1..] && s == [s[0]] + s[1..];
      }
    }
  }

  lemma {:induction false} LikeAnything(s: string)
    ensures Like(s, "%")
  {
    if s != "" {
      LikeAnything(s[1..]);
    } else {
      assert Like("", "");
    }
  }

  // A shortest text that the pattern c% matches.
  function Shortest(c: string): (s: string)
    ensures |s| <= |c|
  {
    if c == "" then ""
    else if c[0] == '%' then Shortest(c[1..])
    else if c[0] == '_' then "X" + Shortest(c[1..])
    else if c[0] == '\\' then if |c| > 1 then [c[1]] + Shortest(c[2..]) else "%"
    else [c[0]] + Shortest(c[1..])
  }

  lemma {:induction false} ShortestMatches(c: string)
    ensures Like(Shortest(c), c + "%")
  {
    var p, s := c + "%", Shortest(c);
    if c == "" {
      LikeAnything(s);
      assert p == "%";
    } else if c[0] == '\\' && |c| == 1 {
      assert p[2..] == "" && s[1..] == "";
      assert Like("", "");
    } else if c[0] == '\\' {
      ShortestMatches(c[2..]);
      assert p[2..] == c[2..] + "%" && s[1..] == Shortest(c[2..]);
    } else {
      ShortestMatches(c[1..]);
      assert p[1..] == c[1..] + "%";
      assert c[0] != '%' ==> s[1..] == Shortest(c[1..]);
    }
  }

  lemma {:induction false} ShortestIsNoExtension(c: string)
    ensures c <= Shortest(c) ==> Plain(c)
  {
    var s := Shortest(c);
    if c != "" && c <= s {
      assert s[0] == c[0];
      if c[0] != '%' && c[0] != '_' && c[0] != '\\' {
        assert c[1..] <= s[1..] && s[1..] == Shortest(c[1..]);
        ShortestIsNoExtension(c[1..]);
        assert forall x :: x in c ==> x == c[0] || x in c[1..];
      }
    }
  }

  // A shortest match of an upper-case text is an upper-case text.
  lemma {:induction false} ShortestIsUpper(c: string)
    requires Upper(c) == c
    ensures Upper(Shortest(c)) == Shortest(c)
  {
    if c != "" {
      assert forall i :: 0 <= i < |c| ==> UpperChar(c[i]) == Upper(c)[i] == c[i];
      var tail := if c[0] == '\\' && |c| > 1 then c[2..] else c[1..];
      assert Upper(tail) == tail;
      ShortestIsUpper(tail);
    }
  }

  // Some CVE of the row begins with the text, whatever the case of either.
  ghost predicate BeginsCve(text: string, row: Row) {
    TrimSpace(text) == "" || exists c :: c in row.cves && Upper(TrimSpace(text)) <= Upper(c)
  }

  lemma PlainUpper(text: string)
    ensures Plain(Upper(text)) <==> Plain(text)
  {
    assert forall i :: 0 <= i < |text| ==> Upper(text)[i] in Upper(text) && text[i] in text;
  }

  // The filter finds exactly the rows with a CVE that begins with the text if and only if the trimmed text
  // has no LIKE metacharacter, since the filter does not escape them.
  lemma CveFilterIsPrefixIff(text: string)
    ensures (forall row :: CveOk(text, row) <==> BeginsCve(text, row)) <==> Plain(TrimSpace(text))
  {
    var c := Upper(TrimSpace(text));
    hide TrimSpace;
    PlainUpper(TrimSpace(text));
    if Plain(TrimSpace(text)) {
      forall row: Row ensures CveOk(text, row) <==> BeginsCve(text, row) {
        forall cve | cve in row.cves ensures MatchesStart(Upper(cve), c) <==> c <= Upper(cve) {
          LikePlainPrefix(Upper(cve), c);
        }
      }
    } else {
      MisledRow(text);
    }
  }

  // A text with a metacharacter finds a row none of whose CVEs begins with it.
  lemma MisledRow(text: string)
    requires !Plain(TrimSpace(text))
    ensures var row := Row(0, Some(true), false, None, None, None, None, None, None, {Shortest(Upper(TrimSpace(text)))}, {});
      CveOk(text, row) && !BeginsCve(text, row)
  {
    var c := Upper(TrimSpace(text));
    assert TrimSpace(text) != "";
    hide TrimSpace, Like;
    PlainUpper(TrimSpace(text));
    UpperIdempotent(TrimSpace(text));
    ShortestIsUpper(c);
    ShortestMatches(c);
    ShortestIsNoExtension(c);
    var row := Row(0, Some(true), false, None, None, None, None, None, None, {Shortest(c)}, {});
    assert Shortest(c) in row.cves && MatchesStart(Upper(Shortest(c)), c);
  }
}
