/** The stores a run of cycles makes, and that revisions and heads depend on nothing else of the run. */
module Journal {
  import opened Csaf
  import opened Config
  import opened Tables
  import opened History
  import opened FacetIndex
  import opened Store
  import opened Download
  import opened Ingest
  import opened Cycles

  // ---------- What a run stores ----------

  // The successful store call a file leads to, if there is one.
  function FileStores(setup: Setup, faults: Faults, p: Progress, tlp: string, file: File): seq<Arrival> {
    if FileDone(setup, faults, p, tlp, file).failed then []
    else
      match Verified(setup.crypto, file)
      case None => []
      case Some(advisory) =>
        var key := Admitted(setup.cfg, tlp, advisory.doc);
        if key.None? then [] else [Arrival(key.value, advisory.doc)]
  }

  function FilesStores(setup: Setup, faults: Faults, p: Progress, tlp: string, files: seq<File>): seq<Arrival>
    decreases files
  {
    if p.failed || files == [] then []
    else
      FileStores(setup, faults, p, tlp, files[0])
      + FilesStores(setup, faults, FileDone(setup, faults, p, tlp, files[0]), tlp, files[1..])
  }

  function FeedStores(setup: Setup, faults: Faults, p: Progress, feed: Feed): seq<Arrival> {
    if !Delivered(feed) || !IsPublishable(setup.cfg, feed.listedAs) then []
    else FilesStores(setup, faults, p, feed.listedAs, feed.files)
  }

  function FeedsStores(setup: Setup, faults: Faults, p: Progress, feeds: seq<Feed>): seq<Arrival>
    decreases feeds
  {
    if p.failed || feeds == [] then []
    else FeedStores(setup, faults, p, feeds[0]) + FeedsStores(setup, faults, FeedDone(setup, faults, p, feeds[0]), feeds[1..])
  }

  function CycleStores(setup: Setup, db: Db, cycle: Cycle): seq<Arrival> {
    if !ValidForIngest(setup.cfg) || !cycle.provider.ready then []
    else FeedsStores(setup, cycle.faults, Progress(Work(db, NO_COUNTS, {}), NO_SUMMARY, false), Feeds(cycle.provider.distributions))
  }

  // The successful store calls of a whole run, in order.
  function Stores(setup: Setup, db: Db, cycles: seq<Cycle>): seq<Arrival>
    decreases cycles
  {
    if cycles == [] then []
    else CycleStores(setup, db, cycles[0]) + Stores(setup, CycleDone(setup, db, cycles[0]).db, cycles[1..])
  }

  // ---------- Nothing else of the run matters ----------

  // The tables are those of the journal, up to the withdrawn flags.
  ghost predicate Records(journal: seq<Arrival>, t: Tables) {
    SameButFlags(StoreAll(journal), t)
  }

  lemma StoredAlike(t: Tables, u: Tables, k: Key, doc: Document)
    requires Inv(t) && Inv(u) && SameButFlags(t, u)
    ensures SameButFlags(Stored(t, k, doc), Stored(u, k, doc))
  {
    hide Newer, SameRevision, Linked, UniqueRevisions;
    assert Conflicts(t, k, doc) == Conflicts(u, k, doc);
    if Conflicts(t, k, doc) {
      StoredDuplicate(t, k, doc);
      StoredDuplicate(u, k, doc);
      hide Stored;
    } else {
      hide Conflicts;
      GrownAlike(t, u, k, doc);
      PromotedAlike(Appended(Upserted(t, k), k, doc), Appended(Upserted(u, k), k, doc), t.nextId);
    }
  }

  lemma GrownAlike(t: Tables, u: Tables, k: Key, doc: Document)
    requires SameButFlags(t, u)
    ensures SameButFlags(Appended(Upserted(t, k), k, doc), Appended(Upserted(u, k), k, doc))
  {
  }

  lemma PromotedAlike(t: Tables, u: Tables, id: nat)
    requires SameButFlags(t, u) && id in t.documents && t.documents[id].advisory in t.advisories
    ensures SameButFlags(Promoted(t, id), Promoted(u, id))
  {
    hide Newer;
  }

  lemma StoreAllExtends(journal: seq<Arrival>, x: Arrival)
    ensures StoreAll(journal + [x]) == Stored(StoreAll(journal), x.key, x.doc)
  {
    var longer := journal + [x];
    assert longer[..|longer| - 1] == journal && longer[|longer| - 1] == x;
  }

  lemma {:induction false} StoreAllInv(journal: seq<Arrival>)
    ensures Inv(StoreAll(journal))
  {
    hide Stored, Linked, UniqueRevisions;
    if journal == [] {
      EmptyHolds();
    } else {
      var last := journal[|journal| - 1];
      StoreAllInv(journal[..|journal| - 1]);
      StoredKeepsInv(StoreAll(journal[..|journal| - 1]), last.key, last.doc);
    }
  }

  lemma FileRecorded(setup: Setup, faults: Faults, p: Progress, tlp: string, file: File, journal: seq<Arrival>)
    requires Balanced(p) && !p.failed && Records(journal, p.work.db.tables)
    ensures Records(journal + FileStores(setup, faults, p, tlp, file), FileDone(setup, faults, p, tlp, file).work.db.tables)
  {
    hide Accepts, Admitted, Insertable, Conflicts, Agrees, HeadsNewest, Inv, Stored, StoreAll, SameButFlags;
    assert journal + [] == journal;
    var advisory := Verified(setup.crypto, file);
    if advisory.Some? && Admitted(setup.cfg, tlp, advisory.value.doc).Some? {
      var x := Arrival(Admitted(setup.cfg, tlp, advisory.value.doc).value, advisory.value.doc);
      StoreAllInv(journal);
      StoreAllExtends(journal, x);
      StoredAlike(StoreAll(journal), p.work.db.tables, x.key, x.doc);
    }
  }

  lemma {:induction false} FilesRecorded(setup: Setup, faults: Faults, p: Progress, tlp: string, files: seq<File>, journal: seq<Arrival>)
    requires Balanced(p) && !p.failed && Records(journal, p.work.db.tables)
    ensures Records(journal + FilesStores(setup, faults, p, tlp, files), FilesDone(setup, faults, p, tlp, files).work.db.tables)
    decreases files
  {
    hide FileDone, FileStores, Sound, Grows, Records;
    assert journal + [] == journal;
    if files != [] {
      var q, more := FileDone(setup, faults, p, tlp, files[0]), FileStores(setup, faults, p, tlp, files[0]);
      FileRecorded(setup, faults, p, tlp, files[0], journal);
      FileEffect(setup, faults, p, tlp, files[0]);
      if q.failed {
        assert journal + (more + []) == journal + more;
      } else {
        FilesRecorded(setup, faults, q, tlp, files[1..], journal + more);
        assert journal + (more + FilesStores(setup, faults, q, tlp, files[1..])) == journal + more + FilesStores(setup, faults, q, tlp, files[1..]);
      }
    }
  }

  lemma FeedRecorded(setup: Setup, faults: Faults, p: Progress, feed: Feed, journal: seq<Arrival>)
    requires Balanced(p) && !p.failed && Records(journal, p.work.db.tables)
    ensures var q := FeedDone(setup, faults, p, feed);
      Records(journal + FeedStores(setup, faults, p, feed), q.work.db.tables) && Balanced(q)
  {
    hide FilesDone, FilesStores, Sound, Grows, Records, IsPublishable;
    assert journal + [] == journal;
    if Delivered(feed) && IsPublishable(setup.cfg, feed.listedAs) {
      FilesRecorded(setup, faults, p, feed.listedAs, feed.files, journal);
      FilesEffect(setup, faults, p, feed.listedAs, feed.files);
    }
  }

  lemma {:induction false} FeedsRecorded(setup: Setup, faults: Faults, p: Progress, feeds: seq<Feed>, journal: seq<Arrival>)
    requires Balanced(p) && !p.failed && Records(journal, p.work.db.tables)
    ensures Records(journal + FeedsStores(setup, faults, p, feeds), FeedsDone(setup, faults, p, feeds).work.db.tables)
    decreases feeds
  {
    hide FeedDone, FeedStores, Balanced, Records;
    assert journal + [] == journal;
    if feeds != [] {
      var q, more := FeedDone(setup, faults, p, feeds[0]), FeedStores(setup, faults, p, feeds[0]);
      FeedRecorded(setup, faults, p, feeds[0], journal);
      if q.failed {
        assert journal + (more + []) == journal + more;
      } else {
        FeedsRecorded(setup, faults, q, feeds[1..], journal + more);
        assert journal + (more + FeedsStores(setup, faults, q, feeds[1..])) == journal + more + FeedsStores(setup, faults, q, feeds[1..]);
      }
    }
  }

  lemma SweptAlike(t: Tables, present: set<Key>)
    ensures SameButFlags(t, Swept(t, present))
  {
  }

  lemma AlikeTransitive(a: Tables, b: Tables, c: Tables)
    requires SameButFlags(a, b) && SameButFlags(b, c)
    ensures SameButFlags(a, c)
  {
  }

  lemma CycleRecorded(setup: Setup, db: Db, cycle: Cycle, journal: seq<Arrival>)
    requires Consistent(db) && Records(journal, db.tables)
    ensures Records(journal + CycleStores(setup, db, cycle), CycleDone(setup, db, cycle).db.tables)
  {
    hide Consistent, FeedsDone, FeedsStores, Balanced, Swept, Active, Decide, ValidForIngest, SameButFlags, StoreAll;
    if !ValidForIngest(setup.cfg) || !cycle.provider.ready {
      assert journal + [] == journal;
      return;
    }
    StartBalanced(db);
    FeedsRecorded(setup, cycle.faults, Progress(Work(db, NO_COUNTS, {}), NO_SUMMARY, false), Feeds(cycle.provider.distributions), journal);
    var p := Enumerated(setup, db, cycle);
    SweptAlike(p.work.db.tables, p.work.present);
    AlikeTransitive(StoreAll(journal + CycleStores(setup, db, cycle)), p.work.db.tables, Swept(p.work.db.tables, p.work.present));
  }

  // Whatever was swept, failed or repeated in between: a run leaves the revisions and heads that its successful
  // stores leave by themselves.
  lemma {:induction false} RunRecorded(setup: Setup, db: Db, cycles: seq<Cycle>, journal: seq<Arrival>)
    requires Consistent(db) && Records(journal, db.tables)
    ensures Records(journal + Stores(setup, db, cycles), CyclesDone(setup, db, cycles).tables)
    decreases cycles
  {
    hide Consistent, Records, CycleDone, CycleStores;
    assert journal + [] == journal;
    if cycles != [] {
      var next, more := CycleDone(setup, db, cycles[0]).db, CycleStores(setup, db, cycles[0]);
      CycleEffect(setup, db, cycles[0]);
      CycleRecorded(setup, db, cycles[0], journal);
      RunRecorded(setup, next, cycles[1..], journal + more);
      assert journal + (more + Stores(setup, next, cycles[1..])) == journal + more + Stores(setup, next, cycles[1..]);
    }
  }

  lemma NewIsRecorded(setup: Setup, cycles: seq<Cycle>)
    ensures Records(Stores(setup, NEW, cycles), CyclesDone(setup, NEW, cycles).tables)
  {
    hide Stores, CyclesDone, Consistent;
    NewIsConsistent();
    assert Records([], NEW.tables);
    RunRecorded(setup, NEW, cycles, []);
    assert [] + Stores(setup, NEW, cycles) == Stores(setup, NEW, cycles);
  }

  lemma AlikeHolds(t: Tables, u: Tables, k: Key, doc: Document)
    requires SameButFlags(t, u)
    ensures Holds(t, k, doc) == Holds(u, k, doc)
  {
    assert Revisions(t, k) == Revisions(u, k);
  }

  // Two runs from an empty database, however cut into cycles, failed, swept and repeated: if the same documents
  // were stored under the same keys in whatever order, they leave the same advisories and revisions and, where
  // release date and history length are there, heads of the same rank.
  lemma SameStoresSameOutcome(setup: Setup, a: seq<Cycle>, b: seq<Cycle>, k: Key)
    requires Determined(Stores(setup, NEW, a))
    requires forall x :: x in Stores(setup, NEW, a) <==> x in Stores(setup, NEW, b)
    ensures var t, u := CyclesDone(setup, NEW, a).tables, CyclesDone(setup, NEW, b).tables;
      && (k in t.advisories <==> k in u.advisories)
      && (forall doc :: Holds(t, k, doc) <==> Holds(u, k, doc))
      && (k in t.advisories && Comparable(Stores(setup, NEW, a)) ==>
            HeadExists(t, k) && HeadExists(u, k) && SameRank(HeadDoc(t, k), HeadDoc(u, k)))
  {
    hide Stores, CyclesDone, Determined, Comparable, Holds, SameRank, StoreAll, Inv;
    var x, y := Stores(setup, NEW, a), Stores(setup, NEW, b);
    var t, u := CyclesDone(setup, NEW, a).tables, CyclesDone(setup, NEW, b).tables;
    NewIsRecorded(setup, a);
    NewIsRecorded(setup, b);
    SameContents(x, y, k);
    forall doc ensures Holds(t, k, doc) <==> Holds(u, k, doc) {
      AlikeHolds(StoreAll(x), t, k, doc);
      AlikeHolds(StoreAll(y), u, k, doc);
    }
    if k in t.advisories && Comparable(x) {
      SameHeads(x, y, k);
      HeadIsStored(StoreAll(x), k);
      HeadIsStored(StoreAll(y), k);
    }
  }
}
