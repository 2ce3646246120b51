/** document_product_pairs: the recursive walk over product_tree that yields (vendor, product) pairs. */
module ProductTree {
  import opened Text
  import opened Csaf

  datatype Pair = Pair(vendor: Option<string>, product: Option<string>)

  // A row of the recursive CTE: a branch and the vendor threaded down to it.
  datatype Node = Node(branch: Branch, vendor: Option<string>)

  const VENDOR := Some("vendor")
  const PRODUCT_CATEGORIES: set<Option<string>> := {Some("product_name"), Some("product_family")}

  predicate IsVendor(b: Branch) {
    b.category == VENDOR
  }

  predicate IsProduct(b: Branch) {
    b.category in PRODUCT_CATEGORIES
  }

  function VendorAt(b: Branch, inherited: Option<string>): Option<string> {
    if IsVendor(b) then b.name else inherited
  }

  // ---------- The definition by paths ----------

  // A path from a root down to some node, as the branches it passes through.
  ghost predicate IsTrail(roots: seq<Branch>, trail: seq<Branch>) {
    && trail != []
    && trail[0] in roots
    && forall i :: 0 < i < |trail| ==> trail[i] in trail[i - 1].children
  }

  // The name of the last vendor on the path, or `outer` when there is none.
  ghost function Nearest(trail: seq<Branch>, outer: Option<string>): Option<string> {
    if trail == [] then outer
    else if trail[|trail| - 1].category == Some("vendor") then trail[|trail| - 1].name
    else Nearest(trail[..|trail| - 1], outer)
  }

  ghost function NodeOf(trail: seq<Branch>, outer: Option<string>): Node
    requires trail != []
  {
    Node(trail[|trail| - 1], Nearest(trail, outer))
  }

  // ---------- The result as a set ----------

  function Visit(branches: seq<Branch>, inherited: Option<string>): set<Node>
    decreases branches
  {
    if branches == [] then {}
    else
      var b := branches[0];
      var vendor := VendorAt(b, inherited);
      {Node(b, vendor)} + Visit(b.children, vendor) + Visit(branches[1..], inherited)
  }

  // NULLIF(btrim(x), '')
  function Clean(name: Option<string>): Option<string> {
    if name.Some? && Btrim(name.value) != "" then Some(Btrim(name.value)) else None
  }

  // A name is cleaned to nothing if it is missing or spaces alone, and otherwise to what is between its outer
  // spaces.
  lemma CleanMeans(name: Option<string>)
    ensures Clean(name).None? <==> name.None? || forall c :: c in name.value ==> c == ' '
    ensures Clean(name).Some? ==>
      Clean(name).value != "" && Clean(name).value[0] != ' ' && Clean(name).value[|Clean(name).value| - 1] != ' '
    ensures Clean(name).Some? ==> exists before, after :: SpacesAround(before, after) && name.value == before + Clean(name).value + after
  {
    if name.Some? {
      var before, after := BtrimIsExact(name.value);
      assert SpacesAround(before, after);
      if Btrim(name.value) != "" {
        assert name.value[|before|] == Btrim(name.value)[0] && name.value[|before|] in name.value;
      }
    }
  }

  predicate SpacesAround(before: string, after: string) {
    (forall c :: c in before ==> c == ' ') && (forall c :: c in after ==> c == ' ')
  }

  function CleanPair(p: Pair): Pair {
    Pair(Clean(p.vendor), Clean(p.product))
  }

  const NOTHING := Pair(None, None)

  // The select over the materialized tree and the flat names.
  function PairsFrom(tree: set<Node>, fullNames: seq<Option<string>>): set<Pair> {
    (set n | n in tree && IsProduct(n.branch) :: CleanPair(Pair(n.vendor, n.branch.name)))
    + (set n | n in tree && IsVendor(n.branch) :: CleanPair(Pair(n.branch.name, None)))
    + (set name | name in fullNames :: CleanPair(Pair(None, name)))
    - {NOTHING}
  }

  function Pairs(doc: Document): set<Pair> {
    PairsFrom(Visit(doc.branches, None), doc.fullNames)
  }

  // ---------- Evaluation as PostgreSQL does it, level by level ----------

  function Weight(branches: seq<Branch>): nat
    decreases branches
  {
    if branches == [] then 0 else 1 + Weight(branches[0].children) + Weight(branches[1..])
  }

  function Enter(branches: seq<Branch>, inherited: Option<string>): seq<Node> {
    if branches == [] then []
    else [Node(branches[0], VendorAt(branches[0], inherited))] + Enter(branches[1..], inherited)
  }

  // Everything strictly below a level of the walk.
  function Below(level: seq<Node>): set<Node> {
    if level == [] then {}
    else Visit(level[0].branch.children, level[0].vendor) + Below(level[1..])
  }

  function LevelWeight(level: seq<Node>): nat {
    if level == [] then 0 else 1 + Weight(level[0].branch.children) + LevelWeight(level[1..])
  }

  lemma {:induction false} VisitByLevels(branches: seq<Branch>, inherited: Option<string>)
    ensures Visit(branches, inherited) == (set n | n in Enter(branches, inherited)) + Below(Enter(branches, inherited))
    ensures Weight(branches) == LevelWeight(Enter(branches, inherited))
    decreases branches
  {
    if branches != [] {
      VisitByLevels(branches[1..], inherited);
      assert Enter(branches, inherited)[1..] == Enter(branches[1..], inherited);
    }
  }

  lemma {:induction false} LevelsAppend(a: seq<Node>, b: seq<Node>)
    ensures Below(a + b) == Below(a) + Below(b)
    ensures LevelWeight(a + b) == LevelWeight(a) + LevelWeight(b)
  {
    if a == [] {
      assert a + b == b;
    } else {
      LevelsAppend(a[1..], b);
      assert (a + b)[1..] == a[1..] + b;
    }
  }

  lemma EmptyLevel()
    ensures Below([]) == {} && LevelWeight([]) == 0
  {
  }

  // One more node of a level brings in its children; `front` are the nodes before it, `next` their children.
  lemma DescendStep(front: seq<Node>, next: seq<Node>, n: Node)
    requires (set m | m in next) + Below(next) == Below(front)
    requires LevelWeight(next) + |front| == LevelWeight(front)
    ensures var next' := next + Enter(n.branch.children, n.vendor);
      && (set m | m in next') + Below(next') == Below(front + [n])
      && LevelWeight(next') + |front| + 1 == LevelWeight(front + [n])
  {
    var children := Enter(n.branch.children, n.vendor);
    VisitByLevels(n.branch.children, n.vendor);
    LevelsAppend(next, children);
    LevelsAppend(front, [n]);
    assert [n][1..] == [];
  }

  // The recursive term of the CTE applied to a whole level.
  method Descend(level: seq<Node>) returns (next: seq<Node>)
    ensures (set n | n in next) + Below(next) == Below(level)
    ensures LevelWeight(next) + |level| == LevelWeight(level)
  {
    next := [];
    EmptyLevel();
    hide Visit, Weight, Enter, Below, LevelWeight;
    for i := 0 to |level|
      invariant (set n | n in next) + Below(next) == Below(level[..i])
      invariant LevelWeight(next) + i == LevelWeight(level[..i])
    {
      DescendStep(level[..i], next, level[i]);
      assert level[..i + 1] == level[..i] + [level[i]];
      next := next + Enter(level[i].branch.children, level[i].vendor);
    }
    assert level[..|level|] == level;
  }

  // WITH RECURSIVE tree: the working table is replaced by its children until it is empty.
  method Tree(branches: seq<Branch>) returns (rows: set<Node>)
    ensures rows == Visit(branches, None)
  {
    var working := Enter(branches, None);
    VisitByLevels(branches, None);
    rows := set n | n in working;
    while working != []
      invariant rows + Below(working) == Visit(branches, None)
      decreases LevelWeight(working)
    {
      working := Descend(working);
      rows := rows + set n | n in working;
    }
  }

  method DocumentProductPairs(doc: Document) returns (pairs: set<Pair>)
    ensures pairs == Pairs(doc)
  {
    var tree := Tree(doc.branches);
    pairs := PairsFrom(tree, doc.fullNames);
  }

  // ---------- The walk finds exactly the paths ----------

  lemma {:induction false} NearestFromRoot(b: Branch, rest: seq<Branch>, outer: Option<string>)
    ensures Nearest([b] + rest, outer) == Nearest(rest, VendorAt(b, outer))
  {
    if rest == [] {
      assert ([b] + rest)[..0] == [];
    } else {
      NearestFromRoot(b, rest[..|rest| - 1], outer);
      assert ([b] + rest)[..|rest|] == [b] + rest[..|rest| - 1];
    }
  }

  lemma {:induction false} TrailIsVisited(branches: seq<Branch>, trail: seq<Branch>, outer: Option<string>)
    requires IsTrail(branches, trail)
    ensures NodeOf(trail, outer) in Visit(branches, outer)
    decreases branches
  {
    var b := branches[0];
    if trail[0] == b {
      var rest := trail[1..];
      assert trail == [b] + rest;
      NearestFromRoot(b, rest, outer);
      if rest != [] {
        assert rest[0] in trail[0].children;
        TrailIsVisited(b.children, rest, VendorAt(b, outer));
      }
    } else {
      TrailIsVisited(branches[1..], trail, outer);
    }
  }

  lemma {:induction false} VisitedHasTrail(branches: seq<Branch>, n: Node, outer: Option<string>)
    returns (trail: seq<Branch>)
    requires n in Visit(branches, outer)
    ensures IsTrail(branches, trail) && n == NodeOf(trail, outer)
    decreases branches
  {
    var b := branches[0];
    var vendor := VendorAt(b, outer);
    if n == Node(b, vendor) {
      trail := [b];
      NearestFromRoot(b, [], outer);
      assert [b] + [] == trail;
    } else if n in Visit(b.children, vendor) {
      var rest := VisitedHasTrail(b.children, n, vendor);
      trail := [b] + rest;
      NearestFromRoot(b, rest, outer);
    } else {
      trail := VisitedHasTrail(branches[1..], n, outer);
    }
  }

  // A pair a product node at the end of the path contributes: its nearest enclosing vendor, itself excluded.
  ghost predicate ProductPair(doc: Document, trail: seq<Branch>, p: Pair) {
    && IsTrail(doc.branches, trail)
    && var last := |trail| - 1;
    && trail[last].category in [Some("product_name"), Some("product_family")]
    && p == CleanPair(Pair(Nearest(trail[..last], None), trail[last].name))
  }

  ghost predicate VendorPair(doc: Document, trail: seq<Branch>, p: Pair) {
    && IsTrail(doc.branches, trail)
    && var last := |trail| - 1;
    && trail[last].category == Some("vendor")
    && p == CleanPair(Pair(trail[last].name, None))
  }

  ghost predicate FullNamePair(doc: Document, p: Pair) {
    exists name :: name in doc.fullNames && p == CleanPair(Pair(None, name))
  }

  // The walk yields every non-empty pair the path definition asks for, and no other.
  lemma PairsAreThePaths(doc: Document, p: Pair)
    ensures p in Pairs(doc) <==>
      && p != Pair(None, None)
      && ((exists trail :: ProductPair(doc, trail, p)) || (exists trail :: VendorPair(doc, trail, p)) || FullNamePair(doc, p))
  {
    var tree := Visit(doc.branches, None);
    if p in Pairs(doc) {
      if n :| n in tree && IsProduct(n.branch) && p == CleanPair(Pair(n.vendor, n.branch.name)) {
        var trail := VisitedHasTrail(doc.branches, n, None);
        assert ProductPair(doc, trail, p);
      } else if n :| n in tree && IsVendor(n.branch) && p == CleanPair(Pair(n.branch.name, None)) {
        var trail := VisitedHasTrail(doc.branches, n, None);
        assert VendorPair(doc, trail, p);
      }
    }
    if trail :| ProductPair(doc, trail, p) {
      TrailIsVisited(doc.branches, trail, None);
      assert NodeOf(trail, None) in tree;
    }
    if trail :| VendorPair(doc, trail, p) {
      TrailIsVisited(doc.branches, trail, None);
      assert NodeOf(trail, None) in tree;
    }
  }
}
