/** What one cycle keeps, what a sweep withdraws, and what any sequence of cycles cannot do. */
module Cycles {
  import opened Text
  import opened Csaf
  import opened Config
  import opened Tables
  import History
  import opened FacetIndex
  import opened ProductTree
  import opened Store
  import opened Download
  import opened Ingest

  // ---------- One store call ----------

  // No key or revision of t is gone or changed in t'.
  ghost predicate Preserves(t: Tables, t': Tables) {
    && (forall id :: id in t.documents ==> id in t'.documents)
    && (forall id :: id in t.documents ==>
          t'.documents[id].advisory == t.documents[id].advisory && t'.documents[id].doc == t.documents[id].doc)
    && (forall k :: k in t.advisories ==> k in t'.advisories)
  }

  lemma PreservesTransitive(a: Tables, b: Tables, c: Tables)
    requires Preserves(a, b) && Preserves(b, c)
    ensures Preserves(a, c)
  {
  }

  lemma ConflictsPreserved(t: Tables, t': Tables, k: Key, doc: Document)
    requires Preserves(t, t') && Conflicts(t, k, doc)
    ensures Conflicts(t', k, doc)
  {
    hide SameRevision;
    var id :| id in t.documents && t.documents[id].advisory == k && SameRevision(doc, t.documents[id].doc);
    assert id in t'.documents;
  }

  lemma NewRevisionEffect(t: Tables, k: Key, doc: Document, t': Tables)
    requires Inv(t) && NewRevision(t, k, doc, t')
    ensures Preserves(t, t') && Active(t') == Active(t) + {k}
    ensures Documents(t') == Documents(t)[t.nextId := doc]
  {
    hide Linked, UniqueRevisions, Newer;
  }

  // A store keeps the state consistent, loses nothing and activates exactly its key.
  lemma StoredDbEffect(db: Db, k: Key, doc: Document)
    requires Consistent(db)
    ensures var db' := StoredDb(db, k, doc);
      && Consistent(db')
      && Preserves(db.tables, db'.tables)
      && Active(db'.tables) == Active(db.tables) + {k}
      && db'.watermark == db.watermark
  {
    hide Linked, UniqueRevisions, Agrees, SameRevision, Extracted, HeadsNewest;
    var t, t' := db.tables, Stored(db.tables, k, doc);
    StoredKeepsHeads(t, k, doc);
    if Conflicts(t, k, doc) {
      StoredDuplicate(t, k, doc);
      assert Documents(t') == Documents(t);
    } else {
      StoredNewRevision(t, k, doc);
      NewRevisionEffect(t, k, doc, t');
      ExtractedAgrees(db.ix, Documents(t), t.nextId, doc);
    }
    hide Stored;
  }

  lemma NewIsConsistent()
    ensures Consistent(NEW)
  {
  }

  // A single-row delete keeps the derived tables in step as well.
  lemma DeletedDbConsistent(db: Db, id: nat, lead: Option<nat>)
    requires Consistent(db) && DeleteEnabled(db.tables, id, lead)
    ensures Consistent(db.(tables := Deleted(db.tables, id, lead), ix := Cascaded(db.ix, id)))
  {
    hide Linked, UniqueRevisions, Agrees, Cascaded, SortsBefore, HeadsNewest;
    DeletedKeepsInv(db.tables, id, lead);
    CascadedAgrees(db.ix, Documents(db.tables), id);
    assert Documents(Deleted(db.tables, id, lead)) == Documents(db.tables) - {id};
  }

  // Storing what is there and published already changes nothing at all.
  lemma RestoredDbIsSame(db: Db, k: Key, doc: Document)
    requires Consistent(db) && Conflicts(db.tables, k, doc) && k in Active(db.tables)
    ensures StoredDb(db, k, doc) == db
  {
    hide Linked, UniqueRevisions, Agrees, SameRevision, Extracted, HeadsNewest;
    StoredDuplicate(db.tables, k, doc);
    var t := db.tables;
    assert t.advisories[k].(withdrawn := false) == t.advisories[k];
  }

  // ---------- The enumeration ----------

  // What holds of the handler's state at any moment of a run.
  ghost predicate Sound(w: Work) {
    && Consistent(w.db)
    && w.present <= Active(w.db.tables)
    && |w.present| <= w.counts.stored + w.counts.duplicate
  }

  function HandledFiles(counts: Counts): nat {
    counts.stored + counts.duplicate + counts.skippedTlp
  }

  // From w to w' the database only grew and nobody was withdrawn.
  ghost predicate Grows(w: Work, w': Work) {
    && Preserves(w.db.tables, w'.db.tables)
    && Active(w.db.tables) <= Active(w'.db.tables)
    && w.present <= w'.present
    && w'.db.watermark == w.db.watermark
  }

  lemma HandledEffect(cfg: Config, faults: Faults, w: Work, tlp: string, doc: Document)
    requires Sound(w)
    ensures var (w', failed) := Handled(cfg, faults, w, tlp, doc);
      && Sound(w') && Grows(w, w')
      && HandledFiles(w'.counts) == HandledFiles(w.counts) + (if failed then 0 else 1)
      && (failed ==> w' == w)
  {
    hide Consistent, Admitted, Insertable, Conflicts, StoredDb;
    var key := Admitted(cfg, tlp, doc);
    if key.Some? {
      StoredDbEffect(w.db, key.value, doc);
    }
  }

  // The bookkeeping of a run: verified files are exactly the handled ones.
  ghost predicate Balanced(p: Progress) {
    Sound(p.work) && p.sum.verified == HandledFiles(p.work.counts)
  }

  function Seen(sum: Summary): nat {
    sum.verified + sum.skipped + sum.skippedFeed
  }

  ghost predicate Follows(p: Progress, q: Progress, files: nat) {
    && Balanced(q) && Grows(p.work, q.work)
    && (!q.failed ==> Seen(q.sum) == Seen(p.sum) + files)
  }

  lemma GrowsTransitive(a: Work, b: Work, c: Work)
    requires Grows(a, b) && Grows(b, c)
    ensures Grows(a, c)
  {
    PreservesTransitive(a.db.tables, b.db.tables, c.db.tables);
  }

  lemma FileEffect(setup: Setup, faults: Faults, p: Progress, tlp: string, file: File)
    requires Balanced(p) && !p.failed
    ensures Follows(p, FileDone(setup, faults, p, tlp, file), 1)
  {
    hide Sound, Grows, Handled, Verified;
    GrowsReflexive(p.work);
    var advisory := Verified(setup.crypto, file);
    if advisory.Some? {
      HandledEffect(setup.cfg, faults, p.work, tlp, advisory.value.doc);
    }
  }

  lemma GrowsReflexive(w: Work)
    ensures Grows(w, w)
  {
  }

  lemma {:induction false} FilesEffect(setup: Setup, faults: Faults, p: Progress, tlp: string, files: seq<File>)
    requires Balanced(p) && !p.failed
    ensures Follows(p, FilesDone(setup, faults, p, tlp, files), |files|)
    decreases files
  {
    hide Sound, Grows, FileDone;
    GrowsReflexive(p.work);
    if files != [] {
      var q := FileDone(setup, faults, p, tlp, files[0]);
      FileEffect(setup, faults, p, tlp, files[0]);
      if !q.failed {
        FilesEffect(setup, faults, q, tlp, files[1..]);
        GrowsTransitive(p.work, q.work, FilesDone(setup, faults, p, tlp, files).work);
      }
    }
  }

  // The number of files the file processor delivers.
  function DeliveredFiles(feeds: seq<Feed>): nat {
    if feeds == [] then 0 else (if Delivered(feeds[0]) then |feeds[0].files| else 0) + DeliveredFiles(feeds[1..])
  }

  lemma {:induction false} FeedsEffect(setup: Setup, faults: Faults, p: Progress, feeds: seq<Feed>)
    requires Balanced(p) && !p.failed
    ensures Follows(p, FeedsDone(setup, faults, p, feeds), DeliveredFiles(feeds))
    decreases feeds
  {
    hide Sound, Grows, FilesDone, IsPublishable;
    GrowsReflexive(p.work);
    if feeds != [] {
      var feed := feeds[0];
      var q := FeedDone(setup, faults, p, feed);
      FilesEffect(setup, faults, p, feed.listedAs, feed.files);
      if !q.failed {
        FeedsEffect(setup, faults, q, feeds[1..]);
        GrowsTransitive(p.work, q.work, FeedsDone(setup, faults, p, feeds).work);
      }
    }
  }

  // ---------- One cycle ----------

  lemma StartBalanced(db: Db)
    requires Consistent(db)
    ensures Balanced(Progress(Work(db, NO_COUNTS, {}), NO_SUMMARY, false))
  {
    hide Consistent;
  }

  lemma EnumeratedEffect(setup: Setup, db: Db, cycle: Cycle)
    requires Consistent(db)
    ensures var p := Enumerated(setup, db, cycle);
      && Follows(Progress(Work(db, NO_COUNTS, {}), NO_SUMMARY, false), p, DeliveredFiles(Feeds(cycle.provider.distributions)))
      && Active(db.tables) <= Active(p.work.db.tables)
      && p.work.present <= Active(p.work.db.tables)
      && Consistent(p.work.db)
  {
    hide Consistent, FeedsDone, Active;
    FeedsEffect(setup, cycle.faults, Progress(Work(db, NO_COUNTS, {}), NO_SUMMARY, false), Feeds(cycle.provider.distributions));
  }

  lemma SweptEffect(t: Tables, present: set<Key>)
    requires present <= Active(t)
    ensures Active(Swept(t, present)) == present
    ensures Preserves(t, Swept(t, present)) && Documents(Swept(t, present)) == Documents(t)
  {
    assert forall k :: k in present ==> k in Active(t);
  }

  lemma SweptDbConsistent(db: Db, present: set<Key>)
    requires Consistent(db) && present <= Active(db.tables)
    ensures Consistent(db.(tables := Swept(db.tables, present)))
  {
    hide Inv, Agrees, HeadsNewest;
    SweptKeepsInv(db.tables, present);
    SweptEffect(db.tables, present);
  }

  // What every cycle does, failing anywhere or not: it stays consistent and loses no key or revision, and
  // unless it sweeps it withdraws nobody.
  lemma CycleEffect(setup: Setup, db: Db, cycle: Cycle)
    requires Consistent(db)
    ensures var r := CycleDone(setup, db, cycle);
      && Consistent(r.db)
      && Preserves(db.tables, r.db.tables)
      && (!r.swept ==> Active(db.tables) <= Active(r.db.tables))
      && r.db.watermark == if r.failed then db.watermark else Some(cycle.now)
  {
    hide Consistent, Active, Preserves, FeedsDone, Decide, ValidForIngest, Swept;
    EnumeratedEffect(setup, db, cycle);
    PreservesReflexive(db.tables);
    var p := Enumerated(setup, db, cycle);
    var stored := p.work.db;
    if p.work.present <= Active(stored.tables) {
      SweptDbConsistent(stored, p.work.present);
      SweptEffect(stored.tables, p.work.present);
      PreservesTransitive(db.tables, stored.tables, Swept(stored.tables, p.work.present));
    }
    WatermarkConsistent(stored, Some(cycle.now));
    WatermarkConsistent(stored.(tables := Swept(stored.tables, p.work.present)), Some(cycle.now));
  }

  lemma PreservesReflexive(t: Tables)
    ensures Preserves(t, t)
  {
  }

  lemma WatermarkConsistent(db: Db, watermark: Option<int>)
    ensures Consistent(db.(watermark := watermark)) == Consistent(db)
  {
  }

  // The number the guard computes is exact: every present key is active by then, so active minus
  // len(present) is what TombstoneAbsent withdraws and the clamp at zero never fires.
  lemma GuardIsExact(setup: Setup, db: Db, cycle: Cycle)
    requires Consistent(db)
    ensures var p := Enumerated(setup, db, cycle);
      var t := p.work.db.tables;
      && |Active(t)| - |p.work.present| == |Active(t) - Active(Swept(t, p.work.present))|
      && Active(Swept(t, p.work.present)) == p.work.present
  {
    hide Consistent, Follows, Enumerated;
    EnumeratedEffect(setup, db, cycle);
    var p := Enumerated(setup, db, cycle);
    SweptEffect(p.work.db.tables, p.work.present);
    Difference(Active(p.work.db.tables), p.work.present);
  }

  // For an arbitrary present list the guard's number is only a lower bound of the sweep; it is the exact
  // number if and only if every present key is active.
  lemma GuardFormulaIff(active: set<Key>, present: set<Key>)
    ensures |active| - |present| <= |active - present|
    ensures |active| - |present| == |active - present| <==> present <= active
  {
    var both := active * present;
    Difference(active, both);
    assert active - both == active - present;
    Difference(present, both);
    if |both| == |present| {
      assert |present - both| == 0;
      assert present - both == {};
    }
  }

  lemma Difference<T>(whole: set<T>, part: set<T>)
    requires part <= whole
    ensures |whole - part| == |whole| - |part|
  {
    assert whole == part + (whole - part);
  }

  // What the guards and the statements before the sweep ask of the cycle and of its enumeration p.
  ghost predicate SweepIsDue(setup: Setup, cycle: Cycle, p: Progress) {
    var active := Active(p.work.db.tables);
    && ValidForIngest(setup.cfg) && cycle.provider.ready
    && !p.failed && !cycle.faults.process
    && EnumeratedAll(setup.cfg, Feeds(cycle.provider.distributions)) && p.work.present != {}
    && !cycle.faults.count && !cycle.faults.sweep
    && (|active| >= 10 ==> 2 * |active - p.work.present| <= |active|)
  }

  // A cycle sweeps exactly when it is configured, the enumeration and the file processor succeed, every
  // publishable feed probes healthy, something is present, neither statement fails, and a corpus of ten or
  // more would lose at most half of its active advisories.
  lemma SweepsIff(setup: Setup, db: Db, cycle: Cycle)
    requires Consistent(db)
    ensures CycleDone(setup, db, cycle).swept <==> SweepIsDue(setup, cycle, Enumerated(setup, db, cycle))
  {
    hide Consistent, Follows, FeedsDone, EnumeratedAll, Swept, Active, ValidForIngest, Implausible;
    EnumeratedEffect(setup, db, cycle);
    var p := Enumerated(setup, db, cycle);
    Difference(Active(p.work.db.tables), p.work.present);
    GuardIsHalf(|Active(p.work.db.tables)|, |p.work.present|);
    assert |p.work.present| == 0 <==> p.work.present == {};
  }

  lemma GuardIsHalf(active: int, present: int)
    ensures Implausible(active, present) <==> active >= 10 && 2 * (active - present) > active
  {
  }

  // A sweep leaves exactly the present keys active, never none, and from ten active on it withdraws at
  // most half of what was active when the guard counted.
  lemma SweepIsBounded(setup: Setup, db: Db, cycle: Cycle)
    requires Consistent(db) && CycleDone(setup, db, cycle).swept
    ensures var r := CycleDone(setup, db, cycle);
      var before := Active(Enumerated(setup, db, cycle).work.db.tables);
      && Active(r.db.tables) == r.progress.work.present != {}
      && Active(r.db.tables) <= before
      && Active(db.tables) <= before
      && (|before| >= 10 ==> 2 * |before - Active(r.db.tables)| <= |before|)
  {
    hide Consistent, Follows, FeedsDone, EnumeratedAll, Swept, Active, ValidForIngest;
    EnumeratedEffect(setup, db, cycle);
    GuardIsExact(setup, db, cycle);
  }

  // How the report relates to the enumeration.
  lemma CycleShape(setup: Setup, db: Db, cycle: Cycle)
    ensures var r := CycleDone(setup, db, cycle);
      var p := Enumerated(setup, db, cycle);
      && (r.swept ==> r.failed == cycle.faults.watermark)
      && (r.swept || !r.failed ==> r.progress == p && !p.failed)
      && (r.swept ==> r.db.tables == Swept(p.work.db.tables, p.work.present))
      && (!r.swept && !r.failed ==> r.db.tables == p.work.db.tables)
      && (!r.swept ==> r.db.tables == db.tables || r.db.tables == p.work.db.tables)
      && (r.progress == p || r.progress == Progress(Work(db, NO_COUNTS, {}), NO_SUMMARY, true)
          || r.progress == Progress(Work(db, NO_COUNTS, {}), NO_SUMMARY, false))
  {
    hide FeedsDone, Decide, ValidForIngest, Swept, Active;
  }

  // A cycle fails and yet withdraws somebody exactly when the watermark cannot be recorded, the sweep before
  // it was due, and some active key was not present. So the claim that a failed cycle never tombstones does
  // not hold.
  lemma FailedCycleWithdrawsIff(setup: Setup, db: Db, cycle: Cycle)
    requires Consistent(db)
    ensures var r := CycleDone(setup, db, cycle);
      var p := Enumerated(setup, db, cycle);
      r.failed && !(Active(db.tables) <= Active(r.db.tables))
      <==> cycle.faults.watermark && SweepIsDue(setup, cycle, p) && !(Active(db.tables) <= p.work.present)
  {
    hide Consistent, Active, Preserves, CycleDone, Enumerated, SweepIsDue;
    SweepsIff(setup, db, cycle);
    CycleEffect(setup, db, cycle);
    CycleShape(setup, db, cycle);
    if CycleDone(setup, db, cycle).swept {
      SweepIsBounded(setup, db, cycle);
    }
  }

  // ---------- Conservation ----------

  // At the end of any run, failed or not, every verified file was stored, a duplicate or gated, and the
  // present keys are no more than the stores; without an error every delivered file is accounted for.
  lemma CycleConserves(setup: Setup, db: Db, cycle: Cycle)
    requires Consistent(db)
    ensures var p := CycleDone(setup, db, cycle).progress;
      && p.sum.verified == p.work.counts.stored + p.work.counts.duplicate + p.work.counts.skippedTlp
      && |p.work.present| <= p.work.counts.stored + p.work.counts.duplicate
      && (!CycleDone(setup, db, cycle).failed ==>
            p.sum.verified + p.sum.skipped + p.sum.skippedFeed == DeliveredFiles(Feeds(cycle.provider.distributions)))
  {
    hide Consistent, CycleDone, Enumerated, DeliveredFiles, Feeds, Conserved, Follows, Balanced, Active, Preserves, Swept;
    EnumeratedEffect(setup, db, cycle);
    CycleShape(setup, db, cycle);
    NothingConserved(db);
    var p := Enumerated(setup, db, cycle);
    FollowsCounts(Progress(Work(db, NO_COUNTS, {}), NO_SUMMARY, false), p, DeliveredFiles(Feeds(cycle.provider.distributions)));
    BalancedConserves(p);
    ConservedMeans(CycleDone(setup, db, cycle).progress);
  }

  ghost predicate Conserved(p: Progress) {
    && p.sum.verified == HandledFiles(p.work.counts)
    && |p.work.present| <= p.work.counts.stored + p.work.counts.duplicate
  }

  lemma NothingConserved(db: Db)
    ensures Conserved(Progress(Work(db, NO_COUNTS, {}), NO_SUMMARY, true))
    ensures Conserved(Progress(Work(db, NO_COUNTS, {}), NO_SUMMARY, false))
  {
  }

  lemma BalancedConserves(p: Progress)
    requires Balanced(p)
    ensures Conserved(p)
  {
    hide Consistent, Active, HandledFiles;
  }

  lemma FollowsCounts(p: Progress, q: Progress, files: nat)
    requires Follows(p, q, files)
    ensures Balanced(q)
    ensures !q.failed ==> Seen(q.sum) == Seen(p.sum) + files
  {
    hide Balanced, Grows, Seen;
  }

  lemma ConservedMeans(p: Progress)
    requires Conserved(p)
    ensures p.sum.verified == p.work.counts.stored + p.work.counts.duplicate + p.work.counts.skippedTlp
    ensures |p.work.present| <= p.work.counts.stored + p.work.counts.duplicate
  {
  }

  // ---------- Whole runs ----------

  function CyclesDone(setup: Setup, db: Db, cycles: seq<Cycle>): Db
    decreases cycles
  {
    if cycles == [] then db else CyclesDone(setup, CycleDone(setup, db, cycles[0]).db, cycles[1..])
  }

  // The next cycle starts on what the last one left, whether that failed or not.
  lemma {:induction false} RunContinues(setup: Setup, db: Db, cycles: seq<Cycle>, next: Cycle)
    ensures CyclesDone(setup, db, cycles + [next]) == CycleDone(setup, CyclesDone(setup, db, cycles), next).db
    decreases cycles
  {
    hide CycleDone;
    if cycles == [] {
      assert [] + [next] == [next] && [next][1..] == [];
    } else {
      RunContinues(setup, CycleDone(setup, db, cycles[0]).db, cycles[1..], next);
      assert (cycles + [next])[0] == cycles[0] && (cycles + [next])[1..] == cycles[1..] + [next];
    }
  }

  // Poll: one cycle straight away and one per tick; a failed cycle is logged and the loop goes on.
  method Poll(setup: Setup, store: Database, cycles: seq<Cycle>) returns (started: bool)
    requires Inv(store.Rows())
    modifies store, store.facets
    ensures started <==> setup.cfg.providerUrl != "" && setup.cfg.publishable != []
    ensures store.State() == if started then CyclesDone(setup, old(store.State()), cycles) else old(store.State())
  {
    hide Inv, CycleDone;
    started := ValidForIngest(setup.cfg);
    if !started {
      return;
    }
    ghost var goal := CyclesDone(setup, store.State(), cycles);
    for i := 0 to |cycles|
      invariant Inv(store.Rows())
      invariant CyclesDone(setup, store.State(), cycles[i..]) == goal
    {
      assert cycles[i..][0] == cycles[i] && cycles[i..][1..] == cycles[i + 1..];
      var counts, failed := RunOnce(setup, store, cycles[i]);
    }
  }

  // 2^k
  function Doublings(k: nat): nat {
    if k == 0 then 1 else 2 * Doublings(k - 1)
  }

  // One cycle at most halves a corpus of ten or more.
  lemma CycleHalvesAtMost(setup: Setup, db: Db, cycle: Cycle)
    requires Consistent(db)
    ensures var r := CycleDone(setup, db, cycle);
      && (Active(db.tables) != {} ==> Active(r.db.tables) != {})
      && (|Active(db.tables)| <= 2 * |Active(r.db.tables)| || |Active(db.tables)| < 10)
  {
    CycleEffect(setup, db, cycle);
    var r := CycleDone(setup, db, cycle);
    if r.swept {
      SweepIsBounded(setup, db, cycle);
      hide CycleDone, Active, Enumerated, Consistent;
      var before := Active(Enumerated(setup, db, cycle).work.db.tables);
      Difference(before, Active(r.db.tables));
      SubsetSize(Active(db.tables), before);
    } else {
      hide CycleDone, Active, Consistent;
      SubsetSize(Active(db.tables), Active(r.db.tables));
    }
  }

  lemma SubsetSize<T>(part: set<T>, whole: set<T>)
    requires part <= whole
    ensures |part| <= |whole|
  {
    Difference(whole, part);
  }

  // No sequence of cycles, failing wherever they do, loses a key or a revision or empties the portal, and
  // a corpus of n falls below ten in k cycles only if n < 10 * 2^k.
  lemma {:induction false} SafetyOverRuns(setup: Setup, db: Db, cycles: seq<Cycle>)
    requires Consistent(db)
    ensures var end := CyclesDone(setup, db, cycles);
      && Consistent(end)
      && Preserves(db.tables, end.tables)
      && (Active(db.tables) != {} ==> Active(end.tables) != {})
      && (|Active(end.tables)| < 10 ==> |Active(db.tables)| < 10 * Doublings(|cycles|))
    decreases cycles
  {
    hide Consistent, Preserves, Active, CycleDone;
    if cycles == [] {
      PreservesReflexive(db.tables);
    } else {
      var next := CycleDone(setup, db, cycles[0]).db;
      CycleEffect(setup, db, cycles[0]);
      CycleHalvesAtMost(setup, db, cycles[0]);
      SafetyOverRuns(setup, next, cycles[1..]);
      PreservesTransitive(db.tables, next.tables, CyclesDone(setup, db, cycles).tables);
      DoublingsPositive(|cycles| - 1);
    }
  }

  lemma {:induction false} DoublingsPositive(k: nat)
    ensures Doublings(k) >= 1
  {
    if k > 0 {
      DoublingsPositive(k - 1);
    }
  }

  // From an empty database, whatever the cycles did: each document is joined to exactly the CVEs it names and has
  // a row for each of its pairs, once; no derived row is without a document.
  lemma DerivedFromNew(setup: Setup, cycles: seq<Cycle>, id: nat)
    requires id in CyclesDone(setup, NEW, cycles).tables.documents
    ensures var end := CyclesDone(setup, NEW, cycles);
      var doc, ix := end.tables.documents[id].doc, end.ix;
      && (forall c :: c in ix.dictionary && (id, ix.dictionary[c]) in ix.links <==> c in doc.cves)
      && id in ix.products && (forall p :: ix.products[id][p] == if p in Pairs(doc) then 1 else 0)
      && (forall l :: l in ix.links ==> l.0 in end.tables.documents)
      && ix.products.Keys == end.tables.documents.Keys
      && (forall c, d :: c in ix.dictionary && d in ix.dictionary && ix.dictionary[c] == ix.dictionary[d] ==> c == d)
  {
    hide CyclesDone, Inv, HeadsNewest, Pairs;
    NewIsConsistent();
    SafetyOverRuns(setup, NEW, cycles);
    var end := CyclesDone(setup, NEW, cycles);
    assert Documents(end.tables)[id] == end.tables.documents[id].doc;
    forall c ensures c in CvesOf(end.ix, id) <==> c in end.tables.documents[id].doc.cves {
    }
  }

  // From an empty database, whatever the cycles did: each advisory has one head, it is named by
  // latest_document_id, no revision is newer, and the derived tables hold what the documents say.
  lemma PortalFromNew(setup: Setup, cycles: seq<Cycle>)
    ensures var end := CyclesDone(setup, NEW, cycles);
      && Inv(end.tables) && HeadsNewest(end.tables)
      && (forall k :: k in end.tables.advisories ==> History.SoleHead(end.tables, k))
      && Agrees(end.ix, Documents(end.tables))
  {
    hide CyclesDone, Linked, UniqueRevisions, Newer, Agrees;
    NewIsConsistent();
    SafetyOverRuns(setup, NEW, cycles);
    var end := CyclesDone(setup, NEW, cycles);
    forall k | k in end.tables.advisories ensures History.SoleHead(end.tables, k) {
      History.InvGivesSoleHead(end.tables, k);
    }
  }
}
