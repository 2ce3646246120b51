/** The derived tables unique_cves, documents_cves and documents_products, their triggers and the backfill. */
module FacetIndex {
  import opened Csaf
  import opened ProductTree

  // dictionary is unique_cves (text to id), links is documents_cves. products groups the rows of
  // documents_products by document: a multiset, since NULLs are distinct for UNIQUE.
  datatype Index = Index(
    dictionary: map<string, nat>,
    nextCve: nat,
    links: set<(nat, nat)>,
    products: map<nat, multiset<Pair>>)

  const NO_LINKS := Index(map[], 0, {}, map[])

  function CveSet(doc: Document): set<string> {
    set c | c in doc.cves
  }

  // SELECT cve FROM documents_cves JOIN unique_cves for one document.
  function CvesOf(ix: Index, id: nat): set<string> {
    set c | c in ix.dictionary && (id, ix.dictionary[c]) in ix.links
  }

  function PairsOf(ix: Index, id: nat): multiset<Pair> {
    if id in ix.products then ix.products[id] else multiset{}
  }

  // The dictionary is a bijection onto the ids handed out, and every link resolves.
  ghost predicate WellFormed(ix: Index) {
    && (forall c :: c in ix.dictionary ==> ix.dictionary[c] < ix.nextCve)
    && Injective(ix.dictionary)
    && (forall l :: l in ix.links ==> l.1 in ix.dictionary.Values)
  }

  // The derived tables hold exactly the CVEs and pairs of the stored documents, each pair once.
  ghost predicate Agrees(ix: Index, docs: map<nat, Document>) {
    && WellFormed(ix)
    && (forall l :: l in ix.links ==> l.0 in docs)
    && ix.products.Keys == docs.Keys
    && forall id :: id in docs ==> CvesOf(ix, id) == CveSet(docs[id]) && PairsOf(ix, id) == multiset(Pairs(docs[id]))
  }

  // ---------- Specification of the triggers ----------

  // INSERT INTO unique_cves ... ON CONFLICT DO NOTHING: every attempt consumes an id of the sequence.
  function Learn(dictionary: map<string, nat>, next: nat, cves: seq<string>): (map<string, nat>, nat)
    decreases cves
  {
    if cves == [] then (dictionary, next)
    else Learn(if cves[0] in dictionary then dictionary else dictionary[cves[0] := next], next + 1, cves[1..])
  }

  // Learning keeps every entry, adds exactly the new CVEs and hands out fresh ids.
  lemma {:induction false} LearnGrows(dictionary: map<string, nat>, next: nat, cves: seq<string>)
    ensures var (dictionary', next') := Learn(dictionary, next, cves);
      && next' == next + |cves|
      && (forall c :: c in dictionary' <==> c in dictionary || c in cves)
      && (forall c :: c in dictionary ==> dictionary'[c] == dictionary[c])
      && (forall c :: c in dictionary' && c !in dictionary ==> next <= dictionary'[c] < next')
    decreases cves
  {
    if cves != [] {
      LearnGrows(if cves[0] in dictionary then dictionary else dictionary[cves[0] := next], next + 1, cves[1..]);
    }
  }

  lemma {:induction false} LearnIsInjective(dictionary: map<string, nat>, next: nat, cves: seq<string>)
    requires Injective(dictionary) && forall c :: c in dictionary ==> dictionary[c] < next
    ensures Injective(Learn(dictionary, next, cves).0)
    decreases cves
  {
    if cves != [] {
      LearnIsInjective(if cves[0] in dictionary then dictionary else dictionary[cves[0] := next], next + 1, cves[1..]);
    }
  }

  function CvesExtracted(ix: Index, id: nat, doc: Document): Index {
    var (dictionary, next) := Learn(ix.dictionary, ix.nextCve, doc.cves);
    LearnGrows(ix.dictionary, ix.nextCve, doc.cves);
    ix.(dictionary := dictionary, nextCve := next,
        links := (set l | l in ix.links && l.0 != id) + (set c | c in doc.cves :: (id, dictionary[c])))
  }

  // One INSERT ... ON CONFLICT DO NOTHING of a set of rows: a row with a NULL never conflicts.
  function PairsInserted(rows: multiset<Pair>, pairs: set<Pair>): multiset<Pair> {
    rows + multiset(set p | p in pairs && !(p.vendor.Some? && p.product.Some? && p in rows))
  }

  function ProductsExtracted(ix: Index, id: nat, doc: Document): Index {
    ix.(products := ix.products[id := multiset(Pairs(doc))])
  }

  // Both AFTER INSERT triggers.
  function Extracted(ix: Index, id: nat, doc: Document): Index {
    ProductsExtracted(CvesExtracted(ix, id, doc), id, doc)
  }

  // ON DELETE CASCADE.
  function Cascaded(ix: Index, id: nat): Index {
    ix.(links := (set l | l in ix.links && l.0 != id), products := ix.products - {id})
  }

  // ---------- The tables and triggers, statement by statement ----------

  class FacetTables {
    var uniqueCves: map<string, nat>
    var nextCve: nat
    var documentsCves: set<(nat, nat)>
    var documentsProducts: map<nat, multiset<Pair>>

    ghost function Contents(): Index
      reads this
    {
      Index(uniqueCves, nextCve, documentsCves, documentsProducts)
    }

    constructor ()
      ensures Contents() == NO_LINKS
    {
      uniqueCves, nextCve, documentsCves, documentsProducts := map[], 0, {}, map[];
    }

    // The data-modifying WITH reads unique_cves as it was before its own INSERT: `selected` sees the
    // snapshot, `inserted` the new rows, and only their union resolves every CVE.
    method ExtractCves(id: nat, doc: Document)
      modifies this`uniqueCves, this`nextCve, this`documentsCves
      ensures Contents() == CvesExtracted(old(Contents()), id, doc)
    {
      documentsCves := set l | l in documentsCves && l.0 != id;
      var snapshot := uniqueCves;
      LearnGrows(uniqueCves, nextCve, doc.cves);
      var inserted;
      uniqueCves, nextCve, inserted := InsertCves(uniqueCves, nextCve, doc.cves);
      var selected := map c | c in snapshot && c in doc.cves :: snapshot[c];
      var resolved := selected + inserted;
      var rows := set c | c in doc.cves && c in resolved :: (id, resolved[c]);
      assert forall c :: c in doc.cves ==> c in resolved && resolved[c] == uniqueCves[c];
      documentsCves := documentsCves + rows;
    }

    method ExtractProducts(id: nat, doc: Document)
      modifies this`documentsProducts
      ensures Contents() == ProductsExtracted(old(Contents()), id, doc)
    {
      hide Pairs;
      documentsProducts := documentsProducts - {id};
      var rows := PairRows(doc);
      documentsProducts := documentsProducts[id := rows];
      assert documentsProducts == old(documentsProducts)[id := rows];
    }

    function Snapshot(): (ix: Index)
      reads this
      ensures ix == Contents()
    {
      Index(uniqueCves, nextCve, documentsCves, documentsProducts)
    }

    // ROLLBACK to a snapshot taken at BEGIN.
    method Restore(ix: Index)
      modifies this
      ensures Contents() == ix
    {
      uniqueCves, nextCve, documentsCves, documentsProducts := ix.dictionary, ix.nextCve, ix.links, ix.products;
    }

    method CascadeDelete(id: nat)
      modifies this
      ensures Contents() == Cascaded(old(Contents()), id)
    {
      documentsCves := set l | l in documentsCves && l.0 != id;
      documentsProducts := documentsProducts - {id};
    }

    // Section 4 of migration 002, over all rows of documents.
    method Backfill(docs: map<nat, Document>)
      requires WellFormed(Contents())
      modifies this
      ensures BackfillStep(docs, old(Contents()), Contents())
    {
      uniqueCves, nextCve := InsertDistinct(uniqueCves, nextCve, AllCves(docs));
      documentsCves := documentsCves + AllLinks(docs, uniqueCves);
      BackfillProducts(docs);
    }

    // DELETE FROM documents_products, then one INSERT of every document's pairs.
    method BackfillProducts(docs: map<nat, Document>)
      modifies this`documentsProducts
      ensures documentsProducts == map id | id in docs :: multiset(Pairs(docs[id]))
    {
      documentsProducts := map[];
      var todo := docs.Keys;
      while todo != {}
        invariant todo <= docs.Keys
        invariant documentsProducts.Keys == docs.Keys - todo
        invariant forall id :: id in documentsProducts ==> documentsProducts[id] == multiset(Pairs(docs[id]))
        decreases |todo|
      {
        var id :| id in todo;
        var pairs := DocumentProductPairs(docs[id]);
        documentsProducts := documentsProducts[id := multiset(pairs)];
        todo := todo - {id};
      }
    }
  }

  // The `inserted` part of extract_cves; RETURNING gives the rows that were really new.
  method InsertCves(table: map<string, nat>, sequence: nat, cves: seq<string>)
    returns (table': map<string, nat>, sequence': nat, inserted: map<string, nat>)
    ensures (table', sequence') == Learn(table, sequence, cves)
    ensures table' == table + inserted && inserted.Keys !! table.Keys
  {
    table', sequence', inserted := table, sequence, map[];
    for i := 0 to |cves|
      invariant Learn(table', sequence', cves[i..]) == Learn(table, sequence, cves)
      invariant table' == table + inserted && inserted.Keys !! table.Keys
    {
      assert cves[i..][0] == cves[i] && cves[i..][1..] == cves[i + 1..];
      if cves[i] !in table' {
        table' := table'[cves[i] := sequence'];
        inserted := inserted[cves[i] := sequence'];
      }
      sequence' := sequence' + 1;
    }
  }

  ghost predicate Injective(dictionary: map<string, nat>) {
    forall c, d :: c in dictionary && d in dictionary && dictionary[c] == dictionary[d] ==> c == d
  }

  // SELECT DISTINCT delivers the CVEs in no particular order.
  method InsertDistinct(table: map<string, nat>, sequence: nat, cves: set<string>)
    returns (table': map<string, nat>, sequence': nat)
    requires Injective(table) && forall c :: c in table ==> table[c] < sequence
    ensures forall c :: c in table' <==> c in table || c in cves
    ensures forall c :: c in table ==> table'[c] == table[c]
    ensures Injective(table') && forall c :: c in table' ==> table'[c] < sequence'
    ensures sequence' >= sequence
  {
    table', sequence' := table, sequence;
    var pending := cves;
    while pending != {}
      invariant forall c :: c in pending ==> c in cves
      invariant forall c :: c in table' ==> c in table || c in cves
      invariant forall c :: c in table || (c in cves && c !in pending) ==> c in table'
      invariant forall c :: c in table ==> table'[c] == table[c]
      invariant Injective(table') && forall c :: c in table' ==> table'[c] < sequence'
      invariant sequence' >= sequence
      decreases pending
    {
      var cve :| cve in pending;
      if cve !in table' {
        table' := table'[cve := sequence'];
      }
      sequence' := sequence' + 1;
      pending := pending - {cve};
    }
  }

  method PairRows(doc: Document) returns (rows: multiset<Pair>)
    ensures rows == multiset(Pairs(doc))
  {
    hide Pairs;
    var pairs := DocumentProductPairs(doc);
    FirstInsertIsDistinct(pairs);
    rows := PairsInserted(multiset{}, pairs);
  }

  lemma FirstInsertIsDistinct(pairs: set<Pair>)
    ensures PairsInserted(multiset{}, pairs) == multiset(pairs)
  {
    assert pairs == set p | p in pairs && !(p.vendor.Some? && p.product.Some? && p in multiset{});
  }

  function AllCves(docs: map<nat, Document>): set<string> {
    set id, c | id in docs && c in docs[id].cves :: c
  }

  function AllLinks(docs: map<nat, Document>, dictionary: map<string, nat>): set<(nat, nat)>
    requires AllCves(docs) <= dictionary.Keys
  {
    assert forall id, c :: id in docs && c in docs[id].cves ==> c in AllCves(docs);
    set id, c | id in docs && c in docs[id].cves :: (id, dictionary[c])
  }

  // What the backfill does, up to the ids it hands out.
  ghost predicate BackfillStep(docs: map<nat, Document>, ix: Index, ix': Index) {
    && ix'.nextCve >= ix.nextCve
    && ix'.dictionary.Keys == ix.dictionary.Keys + AllCves(docs)
    && (forall c :: c in ix.dictionary ==> ix'.dictionary[c] == ix.dictionary[c])
    && (forall c :: c in ix'.dictionary ==> ix'.dictionary[c] < ix'.nextCve)
    && Injective(ix'.dictionary)
    && ix'.links == ix.links + AllLinks(docs, ix'.dictionary)
    && ix'.products == (map id | id in docs :: multiset(Pairs(docs[id])))
  }

  // ---------- What the triggers keep ----------

  lemma CvesExtractedWellFormed(ix: Index, id: nat, doc: Document)
    requires WellFormed(ix)
    ensures WellFormed(CvesExtracted(ix, id, doc))
  {
    var ix' := CvesExtracted(ix, id, doc);
    LearnGrows(ix.dictionary, ix.nextCve, doc.cves);
    LearnIsInjective(ix.dictionary, ix.nextCve, doc.cves);
    forall l | l in ix'.links ensures l.1 in ix'.dictionary.Values {
      if l in ix.links {
        var c :| c in ix.dictionary && ix.dictionary[c] == l.1;
        assert ix'.dictionary[c] == l.1;
      }
    }
  }

  // Every CVE of the document resolves, repeats included, and no other document's set moves.
  lemma ExtractionIsExactAndLocal(ix: Index, id: nat, doc: Document, other: nat)
    requires WellFormed(ix)
    ensures CvesOf(CvesExtracted(ix, id, doc), id) == set c | c in doc.cves
    ensures other != id ==> CvesOf(CvesExtracted(ix, id, doc), other) == CvesOf(ix, other)
  {
    var ix' := CvesExtracted(ix, id, doc);
    LearnGrows(ix.dictionary, ix.nextCve, doc.cves);
    CvesExtractedWellFormed(ix, id, doc);
    forall c | c in ix'.dictionary
      ensures (id, ix'.dictionary[c]) in ix'.links <==> c in doc.cves
      ensures other != id ==> ((other, ix'.dictionary[c]) in ix'.links <==> (other, ix'.dictionary[c]) in ix.links)
    {
      if (id, ix'.dictionary[c]) in ix'.links {
        var d :| d in doc.cves && ix'.dictionary[d] == ix'.dictionary[c];
      }
    }
    forall c | other != id && c in ix'.dictionary && (other, ix'.dictionary[c]) in ix.links
      ensures c in ix.dictionary
    {
      var d :| d in ix.dictionary && ix.dictionary[d] == ix'.dictionary[c];
      assert ix'.dictionary[d] == ix'.dictionary[c];
    }
  }

  lemma ExtractedAgrees(ix: Index, docs: map<nat, Document>, id: nat, doc: Document)
    requires Agrees(ix, docs)
    ensures Agrees(Extracted(ix, id, doc), docs[id := doc])
  {
    hide Pairs, PairsFrom;
    var mid := CvesExtracted(ix, id, doc);
    var ix' := Extracted(ix, id, doc);
    CvesExtractedWellFormed(ix, id, doc);
    forall d | d in docs[id := doc]
      ensures CvesOf(ix', d) == CveSet(docs[id := doc][d]) && PairsOf(ix', d) == multiset(Pairs(docs[id := doc][d]))
    {
      ExtractionIsExactAndLocal(ix, id, doc, d);
      assert CvesOf(ix', d) == CvesOf(mid, d);
    }
  }

  lemma CascadedAgrees(ix: Index, docs: map<nat, Document>, id: nat)
    requires Agrees(ix, docs)
    ensures Agrees(Cascaded(ix, id), docs - {id})
  {
    hide Pairs, PairsFrom;
    var ix' := Cascaded(ix, id);
    forall d | d in docs - {id} ensures CvesOf(ix', d) == CveSet(docs[d]) && PairsOf(ix', d) == multiset(Pairs(docs[d])) {
      assert CvesOf(ix', d) == CvesOf(ix, d);
    }
  }

  // The old link rows the backfill leaves in place are right: it deletes none of them.
  ghost predicate LinksSound(ix: Index, docs: map<nat, Document>) {
    forall l :: l in ix.links ==> l.0 in docs && exists c :: c in ix.dictionary && ix.dictionary[c] == l.1 && c in docs[l.0].cves
  }

  lemma BackfillKeepsOldLinks(docs: map<nat, Document>, ix: Index, ix': Index, id: nat)
    requires WellFormed(ix) && BackfillStep(docs, ix, ix') && id in docs && LinksSound(ix, docs)
    ensures CvesOf(ix', id) == CveSet(docs[id])
  {
    forall c | c in docs[id].cves ensures c in CvesOf(ix', id) {
      assert c in AllCves(docs);
      assert (id, ix'.dictionary[c]) in AllLinks(docs, ix'.dictionary);
    }
    forall c | c in CvesOf(ix', id) ensures c in docs[id].cves {
      var l := (id, ix'.dictionary[c]);
      if l in ix.links {
        var d :| d in ix.dictionary && ix.dictionary[d] == l.1 && d in docs[id].cves;
        assert ix'.dictionary[d] == ix'.dictionary[c];
      } else {
        var e, d :| e in docs && d in docs[e].cves && l == (e, ix'.dictionary[d]);
      }
    }
  }

  // The backfill reaches what the triggers keep, exactly when no stale link row was there before it:
  // in particular over legacy rows with empty derived tables.
  lemma BackfillAgreesIff(docs: map<nat, Document>, ix: Index, ix': Index)
    requires WellFormed(ix) && BackfillStep(docs, ix, ix')
    ensures Agrees(ix', docs) <==> LinksSound(ix, docs)
  {
    hide Pairs, PairsFrom;
    forall l | l in ix'.links ensures l.1 in ix'.dictionary.Values {
      if l in ix.links {
        var c :| c in ix.dictionary && ix.dictionary[c] == l.1;
        assert ix'.dictionary[c] == l.1;
      }
    }
    if LinksSound(ix, docs) {
      forall id | id in docs ensures CvesOf(ix', id) == CveSet(docs[id]) {
        BackfillKeepsOldLinks(docs, ix, ix', id);
      }
    }
    if Agrees(ix', docs) {
      forall l | l in ix.links
        ensures l.0 in docs && exists c :: c in ix.dictionary && ix.dictionary[c] == l.1 && c in docs[l.0].cves
      {
        assert l in ix'.links;
        var c :| c in ix.dictionary && ix.dictionary[c] == l.1;
        assert ix'.dictionary[c] == l.1;
        assert c in CvesOf(ix', l.0);
      }
    }
  }

  // Running the backfill again changes no table: only the id sequence may advance.
  lemma BackfillIsIdempotent(docs: map<nat, Document>, ix: Index, once: Index, twice: Index)
    requires WellFormed(ix) && BackfillStep(docs, ix, once) && BackfillStep(docs, once, twice)
    ensures twice.dictionary == once.dictionary && twice.links == once.links && twice.products == once.products
  {
    assert twice.dictionary == once.dictionary;
  }

  // Why the backfill deletes the product rows first: inserting the pairs over themselves with
  // ON CONFLICT DO NOTHING is a no-op exactly when no pair bears a NULL.
  lemma ReinsertIsNoOpIff(pairs: set<Pair>)
    ensures PairsInserted(multiset(pairs), pairs) == multiset(pairs)
      <==> forall p :: p in pairs ==> p.vendor.Some? && p.product.Some?
  {
    var again := set p | p in pairs && !(p.vendor.Some? && p.product.Some? && p in multiset(pairs));
    if p :| p in pairs && !(p.vendor.Some? && p.product.Some?) {
      assert p in again;
      assert PairsInserted(multiset(pairs), pairs)[p] == 2;
    } else {
      assert again == {};
    }
  }

  // ---------- Whole runs over the documents table ----------

  datatype Change = Insert(id: nat, doc: Document) | Update(id: nat, doc: Document) | Delete(id: nat) | Refill

  datatype Snapshot = Snapshot(docs: map<nat, Document>, ix: Index)

  ghost predicate Step(s: Snapshot, change: Change, s': Snapshot) {
    match change
    case Insert(id, doc) =>
      id !in s.docs && s' == Snapshot(s.docs[id := doc], Extracted(s.ix, id, doc))
    case Update(id, doc) =>
      // WHEN (NEW.document <> OLD.document)
      id in s.docs && s' == Snapshot(s.docs[id := doc], if doc != s.docs[id] then Extracted(s.ix, id, doc) else s.ix)
    case Delete(id) =>
      s' == Snapshot(s.docs - {id}, Cascaded(s.ix, id))
    case Refill =>
      s'.docs == s.docs && BackfillStep(s.docs, s.ix, s'.ix)
  }

  ghost predicate Run(states: seq<Snapshot>, changes: seq<Change>) {
    && |states| == |changes| + 1
    && forall i :: 0 <= i < |changes| ==> Step(states[i], changes[i], states[i + 1])
  }

  lemma StepAgrees(s: Snapshot, change: Change, s': Snapshot)
    requires Agrees(s.ix, s.docs) && Step(s, change, s')
    ensures Agrees(s'.ix, s'.docs)
  {
    hide Agrees, WellFormed, Extracted, Cascaded, BackfillStep;
    match change
    case Insert(id, doc) => ExtractedAgrees(s.ix, s.docs, id, doc);
    case Update(id, doc) =>
      ExtractedAgrees(s.ix, s.docs, id, doc);
      if doc == s.docs[id] {
        assert s.docs[id := doc] == s.docs;
      }
    case Delete(id) => CascadedAgrees(s.ix, s.docs, id);
    case Refill =>
      AgreementIsSound(s.ix, s.docs);
      BackfillAgreesIff(s.docs, s.ix, s'.ix);
  }

  lemma AgreementIsSound(ix: Index, docs: map<nat, Document>)
    requires Agrees(ix, docs)
    ensures WellFormed(ix) && LinksSound(ix, docs)
  {
    hide Pairs, PairsFrom;
    forall l | l in ix.links
      ensures exists c :: c in ix.dictionary && ix.dictionary[c] == l.1 && c in docs[l.0].cves
    {
      var c :| c in ix.dictionary && ix.dictionary[c] == l.1;
      assert c in CvesOf(ix, l.0);
    }
  }

  ghost predicate Extends(old': map<string, nat>, new': map<string, nat>) {
    forall c :: c in old' ==> c in new' && new'[c] == old'[c]
  }

  lemma StepExtends(s: Snapshot, change: Change, s': Snapshot)
    requires Step(s, change, s')
    ensures Extends(s.ix.dictionary, s'.ix.dictionary)
  {
    hide Pairs, PairsFrom;
    match change
    case Insert(_, doc) => LearnGrows(s.ix.dictionary, s.ix.nextCve, doc.cves);
    case Update(_, doc) => LearnGrows(s.ix.dictionary, s.ix.nextCve, doc.cves);
    case Delete(_) =>
    case Refill =>
  }

  // After any sequence of inserts, updates, deletes and backfills the derived tables agree with the
  // documents, and the dictionary only ever grew.
  lemma {:induction false} IndexAgreesOverRuns(states: seq<Snapshot>, changes: seq<Change>)
    requires Run(states, changes) && Agrees(states[0].ix, states[0].docs)
    ensures forall i :: 0 <= i < |states| ==> Agrees(states[i].ix, states[i].docs)
    ensures Extends(states[0].ix.dictionary, states[|changes|].ix.dictionary)
  {
    hide Agrees, Step;
    if changes != [] {
      var n := |changes| - 1;
      IndexAgreesOverRuns(states[..n + 1], changes[..n]);
      assert states[..n + 1][n] == states[n];
      StepAgrees(states[n], changes[n], states[n + 1]);
      StepExtends(states[n], changes[n], states[n + 1]);
      forall i | 0 <= i <= n ensures Agrees(states[i].ix, states[i].docs) {
        assert states[..n + 1][i] == states[i];
      }
    }
  }
}
