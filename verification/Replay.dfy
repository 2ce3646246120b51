/** Later cycles over the same provider answers store nothing, withdraw nobody and revive nobody. */
module Replay {
  import opened Csaf
  import opened Config
  import opened Tables
  import History
  import opened FacetIndex
  import opened Store
  import opened Download
  import opened Ingest
  import opened Cycles
  import opened Agreement

  // The document of a file would meet its own revision again: no column of the revision key is NULL.
  predicate Keyed(setup: Setup, tlp: string, file: File) {
    KeyOf(setup, tlp, file).Some? ==>
      var doc := Verified(setup.crypto, file).value.doc;
      doc.version.Some? && doc.revLength.Some? && doc.status.Some?
  }

  // The file's revision is stored and its key among `present`.
  predicate FileIn(setup: Setup, t: Tables, present: set<Key>, tlp: string, file: File) {
    match KeyOf(setup, tlp, file)
    case None => true
    case Some(k) => Conflicts(t, k, Verified(setup.crypto, file).value.doc) && k in present
  }

  ghost predicate FilesIn(setup: Setup, t: Tables, present: set<Key>, tlp: string, files: seq<File>) {
    forall j :: 0 <= j < |files| ==> FileIn(setup, t, present, tlp, files[j])
  }

  ghost predicate FeedsIn(setup: Setup, t: Tables, present: set<Key>, feeds: seq<Feed>) {
    forall i :: 0 <= i < |feeds| ==> FilesIn(setup, t, present, feeds[i].listedAs, Enumerable(setup, feeds[i]))
  }

  ghost predicate FilesKeyed(setup: Setup, tlp: string, files: seq<File>) {
    forall j :: 0 <= j < |files| ==> Keyed(setup, tlp, files[j])
  }

  ghost predicate FeedsKeyed(setup: Setup, feeds: seq<Feed>) {
    forall i :: 0 <= i < |feeds| ==> FilesKeyed(setup, feeds[i].listedAs, Enumerable(setup, feeds[i]))
  }

  // ---------- A run that does not fail leaves every file in ----------

  lemma FileInMonotone(setup: Setup, t: Tables, t': Tables, present: set<Key>, present': set<Key>, tlp: string, file: File)
    requires FileIn(setup, t, present, tlp, file) && Preserves(t, t') && present <= present'
    ensures FileIn(setup, t', present', tlp, file)
  {
    hide Conflicts, Preserves, Verified;
    var key := KeyOf(setup, tlp, file);
    if key.Some? {
      ConflictsPreserved(t, t', key.value, Verified(setup.crypto, file).value.doc);
    }
  }

  lemma FilesInMonotone(setup: Setup, t: Tables, t': Tables, present: set<Key>, present': set<Key>, tlp: string, files: seq<File>)
    requires FilesIn(setup, t, present, tlp, files) && Preserves(t, t') && present <= present'
    ensures FilesIn(setup, t', present', tlp, files)
  {
    hide FileIn, Preserves;
    forall j | 0 <= j < |files| ensures FileIn(setup, t', present', tlp, files[j]) {
      FileInMonotone(setup, t, t', present, present', tlp, files[j]);
    }
  }

  lemma FileLeavesItIn(setup: Setup, faults: Faults, p: Progress, tlp: string, file: File)
    requires Balanced(p) && !p.failed && Keyed(setup, tlp, file)
    requires !FileDone(setup, faults, p, tlp, file).failed
    ensures var q := FileDone(setup, faults, p, tlp, file);
      FileIn(setup, q.work.db.tables, q.work.present, tlp, file)
  {
    hide Accepts, Admitted, Insertable, Agrees, Extracted, Linked, UniqueRevisions, Stored;
    var key := KeyOf(setup, tlp, file);
    if key.Some? {
      var doc := Verified(setup.crypto, file).value.doc;
      History.ReplayConflictsIff(p.work.db.tables, key.value, doc);
      hide Conflicts;
    }
  }

  lemma {:induction false} FilesLeaveThemIn(setup: Setup, faults: Faults, p: Progress, tlp: string, files: seq<File>)
    requires Balanced(p) && !p.failed && FilesKeyed(setup, tlp, files)
    requires !FilesDone(setup, faults, p, tlp, files).failed
    ensures var q := FilesDone(setup, faults, p, tlp, files);
      FilesIn(setup, q.work.db.tables, q.work.present, tlp, files)
    decreases files
  {
    hide FileDone, FileIn, Sound, Keyed, Preserves;
    if files != [] {
      var mid := FileDone(setup, faults, p, tlp, files[0]);
      assert !mid.failed;
      FileEffect(setup, faults, p, tlp, files[0]);
      FileLeavesItIn(setup, faults, p, tlp, files[0]);
      FilesLeaveThemIn(setup, faults, mid, tlp, files[1..]);
      FilesEffect(setup, faults, mid, tlp, files[1..]);
      var q := FilesDone(setup, faults, p, tlp, files);
      FileInMonotone(setup, mid.work.db.tables, q.work.db.tables, mid.work.present, q.work.present, tlp, files[0]);
      assert forall j :: 0 < j < |files| ==> files[1..][j - 1] == files[j];
    }
  }

  lemma FeedLeavesItIn(setup: Setup, faults: Faults, p: Progress, feed: Feed)
    requires Balanced(p) && !p.failed && FilesKeyed(setup, feed.listedAs, Enumerable(setup, feed))
    requires !FeedDone(setup, faults, p, feed).failed
    ensures var q := FeedDone(setup, faults, p, feed);
      FilesIn(setup, q.work.db.tables, q.work.present, feed.listedAs, Enumerable(setup, feed))
    ensures Balanced(FeedDone(setup, faults, p, feed))
  {
    hide FilesDone, Sound, IsPublishable, FileIn, Keyed;
    if Delivered(feed) && IsPublishable(setup.cfg, feed.listedAs) {
      FilesLeaveThemIn(setup, faults, p, feed.listedAs, feed.files);
      FilesEffect(setup, faults, p, feed.listedAs, feed.files);
    }
  }

  lemma {:induction false} FeedsLeaveThemIn(setup: Setup, faults: Faults, p: Progress, feeds: seq<Feed>)
    requires Balanced(p) && !p.failed && FeedsKeyed(setup, feeds)
    requires !FeedsDone(setup, faults, p, feeds).failed
    ensures var q := FeedsDone(setup, faults, p, feeds);
      FeedsIn(setup, q.work.db.tables, q.work.present, feeds)
    decreases feeds
  {
    hide FeedDone, FilesIn, FilesKeyed, Sound, Preserves;
    if feeds != [] {
      var mid := FeedDone(setup, faults, p, feeds[0]);
      assert !mid.failed;
      FeedLeavesItIn(setup, faults, p, feeds[0]);
      FeedsLeaveThemIn(setup, faults, mid, feeds[1..]);
      FeedsEffect(setup, faults, mid, feeds[1..]);
      var q := FeedsDone(setup, faults, p, feeds);
      FilesInMonotone(setup, mid.work.db.tables, q.work.db.tables, mid.work.present, q.work.present,
                      feeds[0].listedAs, Enumerable(setup, feeds[0]));
      assert forall i :: 0 < i < |feeds| ==> feeds[1..][i - 1] == feeds[i];
    }
  }

  // ---------- Going over them again changes nothing ----------

  // The database is as before and no revision was stored, wherever the run stopped.
  predicate Idle(p: Progress, q: Progress) {
    q.work.db == p.work.db && q.work.counts.stored == p.work.counts.stored
  }

  lemma FileReplayed(setup: Setup, faults: Faults, p: Progress, present: set<Key>, tlp: string, file: File)
    requires Consistent(p.work.db) && !p.failed
    requires FileIn(setup, p.work.db.tables, present, tlp, file) && present <= Active(p.work.db.tables)
    ensures Idle(p, FileDone(setup, faults, p, tlp, file))
  {
    hide Accepts, Admitted, Insertable, Conflicts, StoredDb, Consistent, Active;
    var key := KeyOf(setup, tlp, file);
    if key.Some? {
      RestoredDbIsSame(p.work.db, key.value, Verified(setup.crypto, file).value.doc);
    }
  }

  lemma {:induction false} FilesReplayed(setup: Setup, faults: Faults, p: Progress, present: set<Key>, tlp: string, files: seq<File>)
    requires Consistent(p.work.db) && !p.failed
    requires FilesIn(setup, p.work.db.tables, present, tlp, files) && present <= Active(p.work.db.tables)
    ensures Idle(p, FilesDone(setup, faults, p, tlp, files))
    decreases files
  {
    hide FileDone, FileIn, Consistent, Active;
    if files != [] {
      FileReplayed(setup, faults, p, present, tlp, files[0]);
      var mid := FileDone(setup, faults, p, tlp, files[0]);
      if !mid.failed {
        assert forall j :: 0 < j < |files| ==> files[1..][j - 1] == files[j];
        FilesReplayed(setup, faults, mid, present, tlp, files[1..]);
      }
    }
  }

  lemma {:induction false} FeedsReplayed(setup: Setup, faults: Faults, p: Progress, present: set<Key>, feeds: seq<Feed>)
    requires Consistent(p.work.db) && !p.failed
    requires FeedsIn(setup, p.work.db.tables, present, feeds) && present <= Active(p.work.db.tables)
    ensures Idle(p, FeedsDone(setup, faults, p, feeds))
    decreases feeds
  {
    hide FilesDone, FilesIn, Consistent, Active, IsPublishable;
    if feeds != [] {
      var feed := feeds[0];
      if Delivered(feed) && IsPublishable(setup.cfg, feed.listedAs) {
        FilesReplayed(setup, faults, p, present, feed.listedAs, feed.files);
      }
      var mid := FeedDone(setup, faults, p, feed);
      if !mid.failed {
        assert forall i :: 0 < i < |feeds| ==> feeds[1..][i - 1] == feeds[i];
        FeedsReplayed(setup, faults, mid, present, feeds[1..]);
      }
    }
  }

  // ---------- How many files reach the store ----------

  // The files of one feed that are verified, admitted and have a key.
  function KeyedFiles(setup: Setup, tlp: string, files: seq<File>): nat
    decreases files
  {
    if files == [] then 0
    else (if KeyOf(setup, tlp, files[0]).Some? then 1 else 0) + KeyedFiles(setup, tlp, files[1..])
  }

  function StoreCalls(setup: Setup, feeds: seq<Feed>): nat
    decreases feeds
  {
    if feeds == [] then 0
    else KeyedFiles(setup, feeds[0].listedAs, Enumerable(setup, feeds[0])) + StoreCalls(setup, feeds[1..])
  }

  function StoresCounted(p: Progress): nat {
    p.work.counts.stored + p.work.counts.duplicate
  }

  lemma FileCounted(setup: Setup, faults: Faults, p: Progress, tlp: string, file: File)
    requires !p.failed && !FileDone(setup, faults, p, tlp, file).failed
    ensures StoresCounted(FileDone(setup, faults, p, tlp, file)) == StoresCounted(p) + if KeyOf(setup, tlp, file).Some? then 1 else 0
  {
    hide Verified, Admitted, StoredDb, Conflicts, Insertable;
  }

  lemma {:induction false} FilesCounted(setup: Setup, faults: Faults, p: Progress, tlp: string, files: seq<File>)
    requires !p.failed && !FilesDone(setup, faults, p, tlp, files).failed
    ensures StoresCounted(FilesDone(setup, faults, p, tlp, files)) == StoresCounted(p) + KeyedFiles(setup, tlp, files)
    decreases files
  {
    hide FileDone, KeyOf, StoresCounted;
    if files != [] {
      var q := FileDone(setup, faults, p, tlp, files[0]);
      assert !q.failed;
      FileCounted(setup, faults, p, tlp, files[0]);
      FilesCounted(setup, faults, q, tlp, files[1..]);
    }
  }

  lemma FeedCounted(setup: Setup, faults: Faults, p: Progress, feed: Feed)
    requires !p.failed && !FeedDone(setup, faults, p, feed).failed
    ensures StoresCounted(FeedDone(setup, faults, p, feed))
      == StoresCounted(p) + KeyedFiles(setup, feed.listedAs, Enumerable(setup, feed))
  {
    hide FilesDone, IsPublishable, KeyOf;
    if Delivered(feed) && IsPublishable(setup.cfg, feed.listedAs) {
      FilesCounted(setup, faults, p, feed.listedAs, feed.files);
    }
  }

  // A run that does not fail makes one successful store call for each of them.
  lemma {:induction false} FeedsCounted(setup: Setup, faults: Faults, p: Progress, feeds: seq<Feed>)
    requires !p.failed && !FeedsDone(setup, faults, p, feeds).failed
    ensures StoresCounted(FeedsDone(setup, faults, p, feeds)) == StoresCounted(p) + StoreCalls(setup, feeds)
    decreases feeds
  {
    hide FeedDone, KeyedFiles, StoresCounted;
    if feeds != [] {
      var q := FeedDone(setup, faults, p, feeds[0]);
      assert !q.failed;
      FeedCounted(setup, faults, p, feeds[0]);
      FeedsCounted(setup, faults, q, feeds[1..]);
    }
  }

  // ---------- The whole cycle ----------

  // The cycle came as far as a sweep or did not fail; after a sweep it may still fail to record the watermark.
  predicate GotThrough(r: Report) {
    r.swept || !r.failed
  }

  lemma FirstLeavesAllIn(setup: Setup, db: Db, cycle: Cycle)
    requires Consistent(db) && FeedsKeyed(setup, Feeds(cycle.provider.distributions))
    requires GotThrough(CycleDone(setup, db, cycle))
    ensures var r := CycleDone(setup, db, cycle);
      && FeedsIn(setup, r.db.tables, r.progress.work.present, Feeds(cycle.provider.distributions))
      && r.progress.work.present <= Active(r.db.tables)
  {
    hide Consistent, FeedsDone, FeedsIn, FeedsKeyed, Active, Preserves, CycleDone, Swept, Follows, Balanced, Feeds, Documents;
    CycleShape(setup, db, cycle);
    EnumeratedEffect(setup, db, cycle);
    var p := Enumerated(setup, db, cycle);
    var feeds := Feeds(cycle.provider.distributions);
    StartBalanced(db);
    FeedsLeaveThemIn(setup, cycle.faults, Progress(Work(db, NO_COUNTS, {}), NO_SUMMARY, false), feeds);
    if CycleDone(setup, db, cycle).swept {
      SweptEffect(p.work.db.tables, p.work.present);
      FeedsInMonotone(setup, p.work.db.tables, Swept(p.work.db.tables, p.work.present), p.work.present, feeds);
    }
  }

  lemma FeedsInMonotone(setup: Setup, t: Tables, t': Tables, present: set<Key>, feeds: seq<Feed>)
    requires FeedsIn(setup, t, present, feeds) && Preserves(t, t')
    ensures FeedsIn(setup, t', present, feeds)
  {
    hide FilesIn, Preserves;
    forall i | 0 <= i < |feeds| ensures FilesIn(setup, t', present, feeds[i].listedAs, Enumerable(setup, feeds[i])) {
      FilesInMonotone(setup, t, t', present, present, feeds[i].listedAs, Enumerable(setup, feeds[i]));
    }
  }

  // Sweeping to the active set is a no-op.
  lemma SweepToActiveIsNoOp(t: Tables)
    ensures Swept(t, Active(t)) == t
  {
    assert forall k :: k in t.advisories && t.advisories[k].withdrawn ==> t.advisories[k].(withdrawn := true) == t.advisories[k];
    assert Swept(t, Active(t)).advisories == t.advisories;
  }

  // Both guards let the sweep through.
  predicate GuardsPass(setup: Setup, provider: Provider, active: nat, present: nat) {
    EnumeratedAll(setup.cfg, Feeds(provider.distributions)) && present > 0 && !Implausible(active, present)
  }

  lemma SweepMeansGuards(setup: Setup, db: Db, cycle: Cycle)
    ensures var r := CycleDone(setup, db, cycle);
      var p := Enumerated(setup, db, cycle);
      var pass := GuardsPass(setup, cycle.provider, |Active(p.work.db.tables)|, |p.work.present|);
      (r.swept ==> pass) && (!r.failed && pass ==> r.swept)
  {
    hide FeedsDone, EnumeratedAll, ValidForIngest, Swept, Active, Implausible;
  }

  // Runs over the same feeds that do not fail have the same keys present.
  lemma SamePresent(setup: Setup, a: Db, b: Db, x: Cycle, y: Cycle)
    requires x.provider == y.provider && !Enumerated(setup, a, x).failed && !Enumerated(setup, b, y).failed
    ensures Enumerated(setup, a, x).work.present == Enumerated(setup, b, y).work.present
  {
    hide FeedsDone, Arrives;
    var feeds := Feeds(x.provider.distributions);
    FeedsPresent(setup, x.faults, Progress(Work(a, NO_COUNTS, {}), NO_SUMMARY, false), feeds);
    FeedsPresent(setup, y.faults, Progress(Work(b, NO_COUNTS, {}), NO_SUMMARY, false), feeds);
  }

  // The tables and the derived tables agree; only the watermark may differ.
  predicate SameTables(a: Db, b: Db) {
    a.tables == b.tables && a.ix == b.ix
  }

  // A later cycle makes the sweep decision of the first again or stops before it.
  lemma LaterSweepIsIdle(setup: Setup, db: Db, first: Cycle, cur: Db, later: Cycle)
    requires Consistent(db) && later.provider == first.provider && GotThrough(CycleDone(setup, db, first))
    requires SameTables(cur, CycleDone(setup, db, first).db)
    requires Enumerated(setup, cur, later).work.db == cur && CycleDone(setup, cur, later).swept
    ensures SameTables(CycleDone(setup, cur, later).db, cur)
  {
    hide Consistent, CycleDone, Enumerated, GuardsPass, Active, Swept;
    CycleShape(setup, db, first);
    CycleShape(setup, cur, later);
    SamePresent(setup, db, cur, first, later);
    SweepMeansGuards(setup, db, first);
    SweepMeansGuards(setup, cur, later);
    assert CycleDone(setup, db, first).swept;
    SweepIsBounded(setup, db, first);
    SweepToActiveIsNoOp(cur.tables);
    SweepKeepsIndex(setup, cur, later);
  }

  lemma SweepKeepsIndex(setup: Setup, db: Db, cycle: Cycle)
    requires CycleDone(setup, db, cycle).swept
    ensures CycleDone(setup, db, cycle).db.ix == Enumerated(setup, db, cycle).work.db.ix
  {
    hide FeedsDone, Decide, ValidForIngest, Swept, Active;
  }

  // Once a cycle has swept or succeeded, a later one over the same answers stores nothing and leaves revisions,
  // heads, tombstones and derived tables as they are, whatever it meets itself; if it gets through, each file
  // it stores again is a duplicate.
  lemma LaterIsIdle(setup: Setup, db: Db, first: Cycle, cur: Db, later: Cycle)
    requires Consistent(db) && later.provider == first.provider && GotThrough(CycleDone(setup, db, first))
    requires FeedsKeyed(setup, Feeds(first.provider.distributions))
    requires SameTables(cur, CycleDone(setup, db, first).db)
    ensures SameTables(CycleDone(setup, cur, later).db, cur)
    ensures var r := CycleDone(setup, cur, later);
      && r.progress.work.counts.stored == 0
      && (GotThrough(r) ==> r.progress.work.counts.duplicate == StoreCalls(setup, Feeds(first.provider.distributions)))
  {
    hide Consistent, FeedsDone, Active, FeedsIn, FeedsKeyed, CycleDone, StoreCalls;
    var r1 := CycleDone(setup, db, first);
    var feeds, start := Feeds(first.provider.distributions), Progress(Work(cur, NO_COUNTS, {}), NO_SUMMARY, false);
    CycleEffect(setup, db, first);
    WatermarkConsistent(r1.db, cur.watermark);
    assert cur == r1.db.(watermark := cur.watermark);
    FirstLeavesAllIn(setup, db, first);
    FeedsReplayed(setup, later.faults, start, r1.progress.work.present, feeds);
    CycleShape(setup, cur, later);
    if GotThrough(CycleDone(setup, cur, later)) {
      FeedsCounted(setup, later.faults, start, feeds);
    }
    if CycleDone(setup, cur, later).swept {
      LaterSweepIsIdle(setup, db, first, cur, later);
    } else {
      UnsweptDb(setup, cur, later);
    }
  }

  lemma UnsweptDb(setup: Setup, db: Db, cycle: Cycle)
    requires !CycleDone(setup, db, cycle).swept
    ensures var r := CycleDone(setup, db, cycle);
      SameTables(r.db, db) || SameTables(r.db, Enumerated(setup, db, cycle).work.db)
  {
    hide FeedsDone, Decide, ValidForIngest, Swept, Active;
  }

  // Whether the first cycle swept, was refused by a guard or was unhealthy: the second changes no table and
  // counts only duplicates.
  lemma ReplayIsNoOp(setup: Setup, db: Db, first: Cycle, second: Cycle)
    requires Consistent(db) && second.provider == first.provider
    requires FeedsKeyed(setup, Feeds(first.provider.distributions))
    requires GotThrough(CycleDone(setup, db, first))
    ensures var r1 := CycleDone(setup, db, first);
      var r2 := CycleDone(setup, r1.db, second);
      && r2.db.tables == r1.db.tables && r2.db.ix == r1.db.ix
      && r2.progress.work.counts.stored == 0
      && (GotThrough(r2) ==> r2.progress.work.counts.duplicate == r1.progress.work.counts.stored + r1.progress.work.counts.duplicate)
  {
    hide FeedsDone, CycleDone, StoreCalls, Consistent, FeedsKeyed;
    LaterIsIdle(setup, db, first, CycleDone(setup, db, first).db, second);
    CycleShape(setup, db, first);
    FeedsCounted(setup, first.faults, Progress(Work(db, NO_COUNTS, {}), NO_SUMMARY, false), Feeds(first.provider.distributions));
  }

  // As long as the provider answers the same, no cycle after one that swept or succeeded changes the tables,
  // wherever it fails.
  lemma ReplaysConverge(setup: Setup, db: Db, first: Cycle, later: seq<Cycle>)
    requires Consistent(db) && GotThrough(CycleDone(setup, db, first))
    requires forall i :: 0 <= i < |later| ==> later[i].provider == first.provider
    requires FeedsKeyed(setup, Feeds(first.provider.distributions))
    ensures SameTables(CyclesDone(setup, db, [first] + later), CycleDone(setup, db, first).db)
  {
    hide CycleDone, Consistent, FeedsKeyed;
    assert ([first] + later)[1..] == later;
    LaterCyclesAreIdle(setup, db, first, CycleDone(setup, db, first).db, later);
  }

  lemma {:induction false} LaterCyclesAreIdle(setup: Setup, db: Db, first: Cycle, cur: Db, later: seq<Cycle>)
    requires Consistent(db) && GotThrough(CycleDone(setup, db, first))
    requires forall i :: 0 <= i < |later| ==> later[i].provider == first.provider
    requires FeedsKeyed(setup, Feeds(first.provider.distributions))
    requires SameTables(cur, CycleDone(setup, db, first).db)
    ensures SameTables(CyclesDone(setup, cur, later), cur)
    decreases later
  {
    hide CycleDone, Consistent, FeedsKeyed, StoreCalls;
    if later != [] {
      LaterIsIdle(setup, db, first, cur, later[0]);
      LaterCyclesAreIdle(setup, db, first, CycleDone(setup, cur, later[0]).db, later[1..]);
    }
  }

  // So a large retirement the fraction guard refused does not converge over later cycles: while the provider
  // answers the same, whoever was active stays active, arrived or not.
  lemma RefusedSweepStaysRefused(setup: Setup, db: Db, first: Cycle, later: seq<Cycle>)
    requires Consistent(db) && !CycleDone(setup, db, first).failed
    requires var p := Enumerated(setup, db, first); Implausible(|Active(p.work.db.tables)|, |p.work.present|)
    requires forall i :: 0 <= i < |later| ==> later[i].provider == first.provider
    requires FeedsKeyed(setup, Feeds(first.provider.distributions))
    ensures Active(db.tables) <= Active(CyclesDone(setup, db, [first] + later).tables)
  {
    hide CycleDone, CyclesDone, Consistent, FeedsKeyed, Enumerated, Implausible, Active;
    SweepMeansGuards(setup, db, first);
    CycleEffect(setup, db, first);
    ReplaysConverge(setup, db, first, later);
  }

  // Why the revision key must not be NULL: such a document is stored once more by every replay.
  lemma NullKeyIsStoredAgain(cfg: Config, w: Work, tlp: string, doc: Document)
    requires Sound(w) && Admitted(cfg, tlp, doc).Some? && Insertable(doc)
    requires doc.revLength.None? || doc.status.None?
    ensures var (once, _) := Handled(cfg, NO_FAULTS, w, tlp, doc);
      var (twice, failed) := Handled(cfg, NO_FAULTS, once, tlp, doc);
      && !failed && twice.counts.stored == w.counts.stored + 2
      && |twice.db.tables.documents| == |w.db.tables.documents| + 2
  {
    hide Admitted, AdvisoryKey, HeadsNewest, Agrees, Inv, Stored, Extracted, Conflicts;
    var k := Admitted(cfg, tlp, doc).value;
    var (once, _) := Handled(cfg, NO_FAULTS, w, tlp, doc);
    NullKeyAddsRow(w.db.tables, k, doc);
    StoredKeepsInv(w.db.tables, k, doc);
    NullKeyAddsRow(once.db.tables, k, doc);
  }

  lemma NullKeyAddsRow(t: Tables, k: Key, doc: Document)
    requires Inv(t) && (doc.revLength.None? || doc.status.None?)
    ensures !Conflicts(t, k, doc)
    ensures |Stored(t, k, doc).documents| == |t.documents| + 1
  {
    NullNeverConflicts(t, k, doc);
    hide Linked, UniqueRevisions, Newer, Conflicts, Stored;
    StoredNewRevision(t, k, doc);
    OneMoreRow(t.documents, Stored(t, k, doc).documents, t.nextId);
  }

  lemma NullNeverConflicts(t: Tables, k: Key, doc: Document)
    requires doc.revLength.None? || doc.status.None?
    ensures !Conflicts(t, k, doc)
  {
  }

  lemma OneMoreRow(rows: map<nat, Row>, rows': map<nat, Row>, id: nat)
    requires id !in rows && forall i :: i in rows' <==> i in rows || i == id
    ensures |rows'| == |rows| + 1
  {
    assert rows'.Keys == rows.Keys + {id};
  }
}
