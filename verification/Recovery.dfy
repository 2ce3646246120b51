/** What cycles before it leave behind makes no difference to a cycle that succeeds over the same answers. */
module Recovery {
  import opened Text
  import opened Csaf
  import opened Config
  import opened Tables
  import opened FacetIndex
  import opened Store
  import opened Download
  import opened Ingest
  import opened Cycles
  import opened Agreement
  import opened Replay

  // ---------- Two runs in step ----------

  // Both runs are at the same file, have the same keys present and made the same number of store calls;
  // nothing is said about their databases.
  predicate InStep(p: Progress, q: Progress) {
    && p.failed == q.failed && p.sum == q.sum && p.work.present == q.work.present
    && p.work.counts.stored + p.work.counts.duplicate == q.work.counts.stored + q.work.counts.duplicate
  }

  // What a file does to a run, short of its database, does not depend on the database.
  lemma FileInStep(setup: Setup, faults: Faults, p: Progress, q: Progress, tlp: string, file: File)
    requires InStep(p, q) && !p.failed
    ensures InStep(FileDone(setup, faults, p, tlp, file), FileDone(setup, faults, q, tlp, file))
  {
    hide Verified, Admitted, StoredDb, Conflicts, Insertable;
  }

  lemma {:induction false} FilesInStep(setup: Setup, faults: Faults, p: Progress, q: Progress, tlp: string, files: seq<File>)
    requires InStep(p, q)
    ensures InStep(FilesDone(setup, faults, p, tlp, files), FilesDone(setup, faults, q, tlp, files))
    decreases files
  {
    hide FileDone;
    if !p.failed && files != [] {
      FileInStep(setup, faults, p, q, tlp, files[0]);
      FilesInStep(setup, faults, FileDone(setup, faults, p, tlp, files[0]), FileDone(setup, faults, q, tlp, files[0]), tlp, files[1..]);
    }
  }

  lemma FeedInStep(setup: Setup, faults: Faults, p: Progress, q: Progress, feed: Feed)
    requires InStep(p, q)
    ensures InStep(FeedDone(setup, faults, p, feed), FeedDone(setup, faults, q, feed))
  {
    hide FilesDone, IsPublishable;
    FilesInStep(setup, faults, p, q, feed.listedAs, feed.files);
  }

  lemma {:induction false} FeedsInStep(setup: Setup, faults: Faults, p: Progress, q: Progress, feeds: seq<Feed>)
    requires InStep(p, q)
    ensures InStep(FeedsDone(setup, faults, p, feeds), FeedsDone(setup, faults, q, feeds))
    decreases feeds
  {
    hide FeedDone;
    if !p.failed && feeds != [] {
      FeedInStep(setup, faults, p, q, feeds[0]);
      FeedsInStep(setup, faults, FeedDone(setup, faults, p, feeds[0]), FeedDone(setup, faults, q, feeds[0]), feeds[1..]);
    }
  }

  // ---------- Two runs from the same tables ----------

  // Whatever their faults: as long as neither fails, they keep the same tables.
  lemma FileSameTables(setup: Setup, f: Faults, g: Faults, p: Progress, q: Progress, tlp: string, file: File)
    requires SameTables(p.work.db, q.work.db) && !p.failed && !q.failed
    requires !FileDone(setup, f, p, tlp, file).failed && !FileDone(setup, g, q, tlp, file).failed
    ensures SameTables(FileDone(setup, f, p, tlp, file).work.db, FileDone(setup, g, q, tlp, file).work.db)
  {
    hide Verified, Admitted, Conflicts, Insertable, Stored, Extracted;
  }

  lemma {:induction false} FilesSameTables(setup: Setup, f: Faults, g: Faults, p: Progress, q: Progress, tlp: string, files: seq<File>)
    requires SameTables(p.work.db, q.work.db) && !p.failed && !q.failed
    requires !FilesDone(setup, f, p, tlp, files).failed && !FilesDone(setup, g, q, tlp, files).failed
    ensures SameTables(FilesDone(setup, f, p, tlp, files).work.db, FilesDone(setup, g, q, tlp, files).work.db)
    decreases files
  {
    hide FileDone, SameTables;
    if files != [] {
      FileSameTables(setup, f, g, p, q, tlp, files[0]);
      FilesSameTables(setup, f, g, FileDone(setup, f, p, tlp, files[0]), FileDone(setup, g, q, tlp, files[0]), tlp, files[1..]);
    }
  }

  lemma FeedSameTables(setup: Setup, f: Faults, g: Faults, p: Progress, q: Progress, feed: Feed)
    requires SameTables(p.work.db, q.work.db) && !p.failed && !q.failed
    requires !FeedDone(setup, f, p, feed).failed && !FeedDone(setup, g, q, feed).failed
    ensures SameTables(FeedDone(setup, f, p, feed).work.db, FeedDone(setup, g, q, feed).work.db)
  {
    hide FilesDone, IsPublishable, SameTables;
    if Delivered(feed) && IsPublishable(setup.cfg, feed.listedAs) {
      FilesSameTables(setup, f, g, p, q, feed.listedAs, feed.files);
    }
  }

  lemma {:induction false} FeedsSameTables(setup: Setup, f: Faults, g: Faults, p: Progress, q: Progress, feeds: seq<Feed>)
    requires SameTables(p.work.db, q.work.db) && !p.failed && !q.failed
    requires !FeedsDone(setup, f, p, feeds).failed && !FeedsDone(setup, g, q, feeds).failed
    ensures SameTables(FeedsDone(setup, f, p, feeds).work.db, FeedsDone(setup, g, q, feeds).work.db)
    decreases feeds
  {
    hide FeedDone, SameTables;
    if feeds != [] {
      FeedSameTables(setup, f, g, p, q, feeds[0]);
      FeedsSameTables(setup, f, g, FeedDone(setup, f, p, feeds[0]), FeedDone(setup, g, q, feeds[0]), feeds[1..]);
    }
  }

  // ---------- Starting over after an interruption ----------

  // x is interrupted somewhere; z starts over on what x left, y on what x started from. If y gets through,
  // both end with the same tables: z first goes over files x had stored, then catches up with y.
  lemma {:induction false} FilesResumed(setup: Setup, f: Faults, g: Faults, x: Progress, y: Progress, z: Progress,
                                        tlp: string, files: seq<File>)
    requires Balanced(x) && !x.failed && !y.failed && InStep(y, z) && FilesKeyed(setup, tlp, files)
    requires SameTables(x.work.db, y.work.db) && SameTables(z.work.db, FilesDone(setup, f, x, tlp, files).work.db)
    requires Consistent(z.work.db) && !FilesDone(setup, g, y, tlp, files).failed
    ensures SameTables(FilesDone(setup, g, y, tlp, files).work.db, FilesDone(setup, g, z, tlp, files).work.db)
    decreases files
  {
    hide FileDone, Sound, Keyed, FileIn, Grows, Consistent, SameTables;
    if files != [] {
      var file := files[0];
      var x1, y1, z1 := FileDone(setup, f, x, tlp, file), FileDone(setup, g, y, tlp, file), FileDone(setup, g, z, tlp, file);
      assert !y1.failed;
      FileInStep(setup, g, y, z, tlp, file);
      if x1.failed {
        FailedFileKeepsDb(setup, f, x, tlp, file);
        TablesTransitive(y.work.db, x.work.db, z.work.db);
        FilesInStep(setup, g, y, z, tlp, files);
        FilesSameTables(setup, g, g, y, z, tlp, files);
      } else {
        FileSameTables(setup, f, g, x, y, tlp, file);
        FileEffect(setup, f, x, tlp, file);
        FileLeavesItIn(setup, f, x, tlp, file);
        FilesEffect(setup, f, x1, tlp, files[1..]);
        FileStaysIn(setup, x1.work, FilesDone(setup, f, x, tlp, files).work, z.work.db, tlp, file);
        FileReplayed(setup, g, z, x1.work.present, tlp, file);
        assert forall j :: 0 < j < |files| ==> files[1..][j - 1] == files[j];
        FilesResumed(setup, f, g, x1, y1, z1, tlp, files[1..]);
      }
    } else {
      TablesTransitive(y.work.db, x.work.db, z.work.db);
    }
  }

  lemma TablesTransitive(a: Db, b: Db, c: Db)
    requires (SameTables(a, b) || SameTables(b, a)) && (SameTables(b, c) || SameTables(c, b))
    ensures SameTables(a, c)
  {
  }

  lemma FailedFileKeepsDb(setup: Setup, faults: Faults, p: Progress, tlp: string, file: File)
    requires FileDone(setup, faults, p, tlp, file).failed
    ensures FileDone(setup, faults, p, tlp, file).work == p.work
  {
    hide Verified, Admitted, StoredDb, Conflicts, Insertable;
  }

  // A file that is in stays in, and its key active, as the run goes on.
  lemma FileStaysIn(setup: Setup, w: Work, w': Work, db: Db, tlp: string, file: File)
    requires Sound(w) && Grows(w, w') && FileIn(setup, w.db.tables, w.present, tlp, file) && SameTables(db, w'.db)
    ensures FileIn(setup, db.tables, w.present, tlp, file) && w.present <= Active(db.tables)
  {
    hide Consistent, FileIn, Active, Preserves;
    FileInMonotone(setup, w.db.tables, w'.db.tables, w.present, w.present, tlp, file);
  }

  lemma FilesStayIn(setup: Setup, w: Work, w': Work, db: Db, tlp: string, files: seq<File>)
    requires Sound(w) && Grows(w, w') && FilesIn(setup, w.db.tables, w.present, tlp, files) && SameTables(db, w'.db)
    ensures FilesIn(setup, db.tables, w.present, tlp, files) && w.present <= Active(db.tables)
  {
    hide Consistent, FilesIn, Active, Preserves;
    FilesInMonotone(setup, w.db.tables, w'.db.tables, w.present, w.present, tlp, files);
  }

  lemma FeedResumed(setup: Setup, f: Faults, g: Faults, x: Progress, y: Progress, z: Progress, feed: Feed)
    requires Balanced(x) && !x.failed && !y.failed && InStep(y, z) && FilesKeyed(setup, feed.listedAs, Enumerable(setup, feed))
    requires SameTables(x.work.db, y.work.db) && SameTables(z.work.db, FeedDone(setup, f, x, feed).work.db)
    requires Consistent(z.work.db) && !FeedDone(setup, g, y, feed).failed
    ensures SameTables(FeedDone(setup, g, y, feed).work.db, FeedDone(setup, g, z, feed).work.db)
  {
    hide FilesDone, IsPublishable, Sound, FilesKeyed, Consistent, SameTables;
    if Delivered(feed) && IsPublishable(setup.cfg, feed.listedAs) {
      FilesResumed(setup, f, g, x, y, z, feed.listedAs, feed.files);
    } else {
      TablesTransitive(y.work.db, x.work.db, z.work.db);
    }
  }

  lemma FeedReplayed(setup: Setup, faults: Faults, p: Progress, present: set<Key>, feed: Feed)
    requires Consistent(p.work.db) && !p.failed && present <= Active(p.work.db.tables)
    requires FilesIn(setup, p.work.db.tables, present, feed.listedAs, Enumerable(setup, feed))
    ensures Idle(p, FeedDone(setup, faults, p, feed))
  {
    hide FilesDone, FilesIn, Consistent, Active, IsPublishable;
    if Delivered(feed) && IsPublishable(setup.cfg, feed.listedAs) {
      FilesReplayed(setup, faults, p, present, feed.listedAs, feed.files);
    }
  }

  lemma {:induction false} FeedsResumed(setup: Setup, f: Faults, g: Faults, x: Progress, y: Progress, z: Progress, feeds: seq<Feed>)
    requires Balanced(x) && !x.failed && !y.failed && InStep(y, z) && FeedsKeyed(setup, feeds)
    requires SameTables(x.work.db, y.work.db) && SameTables(z.work.db, FeedsDone(setup, f, x, feeds).work.db)
    requires Consistent(z.work.db) && !FeedsDone(setup, g, y, feeds).failed
    ensures SameTables(FeedsDone(setup, g, y, feeds).work.db, FeedsDone(setup, g, z, feeds).work.db)
    decreases feeds
  {
    hide FeedDone, Sound, FilesKeyed, FilesIn, Grows, Consistent, SameTables;
    if feeds != [] {
      var feed := feeds[0];
      var x1, y1, z1 := FeedDone(setup, f, x, feed), FeedDone(setup, g, y, feed), FeedDone(setup, g, z, feed);
      assert !y1.failed;
      FeedInStep(setup, g, y, z, feed);
      if x1.failed {
        FeedResumed(setup, f, g, x, y, z, feed);
        FeedsInStep(setup, g, y1, z1, feeds[1..]);
        FeedsSameTables(setup, g, g, y1, z1, feeds[1..]);
      } else {
        FeedSameTables(setup, f, g, x, y, feed);
        FeedLeavesItIn(setup, f, x, feed);
        FeedsEffect(setup, f, x1, feeds[1..]);
        FilesStayIn(setup, x1.work, FeedsDone(setup, f, x, feeds).work, z.work.db, feed.listedAs, Enumerable(setup, feed));
        FeedReplayed(setup, g, z, x1.work.present, feed);
        assert forall i :: 0 < i < |feeds| ==> feeds[1..][i - 1] == feeds[i];
        FeedsResumed(setup, f, g, x1, y1, z1, feeds[1..]);
      }
    } else {
      TablesTransitive(y.work.db, x.work.db, z.work.db);
    }
  }

  // ---------- The whole cycle ----------

  function Start(db: Db): Progress {
    Progress(Work(db, NO_COUNTS, {}), NO_SUMMARY, false)
  }

  // The enumeration of a cycle fails alike from any two databases, and has the same keys present.
  lemma EnumerationsInStep(setup: Setup, a: Db, b: Db, cycle: Cycle)
    ensures InStep(Enumerated(setup, a, cycle), Enumerated(setup, b, cycle))
  {
    FeedsInStep(setup, cycle.faults, Start(a), Start(b), Feeds(cycle.provider.distributions));
  }

  // Only the guard looks at the database, and it does not refuse what an earlier cycle over the same
  // answers swept.
  lemma DecidedAlike(setup: Setup, a: Db, b: Db, cycle: Cycle)
    requires InStep(Enumerated(setup, a, cycle), Enumerated(setup, b, cycle))
    requires var s, t := Enumerated(setup, a, cycle).work.db.tables, Enumerated(setup, b, cycle).work.db.tables;
      var n := |Enumerated(setup, a, cycle).work.present|;
      Implausible(|Active(s)|, n) == Implausible(|Active(t)|, n)
    ensures var r, r' := CycleDone(setup, a, cycle), CycleDone(setup, b, cycle);
      r.failed == r'.failed && r.swept == r'.swept
  {
    hide FeedsDone, EnumeratedAll, ValidForIngest, Swept, Active, Implausible;
  }

  // A report is determined by its enumeration and its two decisions.
  lemma ReportShape(setup: Setup, db: Db, cycle: Cycle)
    ensures var r := CycleDone(setup, db, cycle);
      var p := Enumerated(setup, db, cycle);
      && (p.failed ==> r.failed)
      && (r.swept ==> r.db.tables == Swept(p.work.db.tables, p.work.present) && r.db.ix == p.work.db.ix && !p.failed)
      && (!r.swept ==> SameTables(r.db, p.work.db) || r == Report(db, Start(db), true, false))
      && (!r.failed ==> r.db.watermark == Some(cycle.now))
      && (r == Report(db, Start(db), true, false) || (ValidForIngest(setup.cfg) && cycle.provider.ready))
  {
    hide FeedsDone, Decide, ValidForIngest, Swept, Active;
  }

  // The first cycle did not sweep: the second enumeration catches up with the one that starts from db.
  lemma ResumedEnumeration(setup: Setup, db: Db, first: Cycle, cur: Db, last: Cycle)
    requires Consistent(db) && Consistent(cur) && last.provider == first.provider
    requires FeedsKeyed(setup, Feeds(last.provider.distributions))
    requires SameTables(cur, Enumerated(setup, db, first).work.db) && !Enumerated(setup, db, last).failed
    ensures SameTables(Enumerated(setup, db, last).work.db, Enumerated(setup, cur, last).work.db)
  {
    hide Consistent, FeedsDone, FeedsKeyed, Balanced;
    StartBalanced(db);
    FeedsResumed(setup, first.faults, last.faults, Start(db), Start(db), Start(cur), Feeds(last.provider.distributions));
  }

  // The first cycle swept: the second enumeration finds everything in place.
  lemma EnumerationAfterSweep(setup: Setup, db: Db, first: Cycle, last: Cycle)
    requires Consistent(db) && last.provider == first.provider && FeedsKeyed(setup, Feeds(last.provider.distributions))
    requires CycleDone(setup, db, first).swept && !Enumerated(setup, db, last).failed
    ensures var cur := CycleDone(setup, db, first).db;
      var x, y, z := Enumerated(setup, db, first), Enumerated(setup, db, last), Enumerated(setup, cur, last);
      && z.work.db == cur
      && SameTables(x.work.db, y.work.db)
      && x.work.present == y.work.present == z.work.present == Active(cur.tables)
  {
    hide Consistent, FeedsDone, FeedsKeyed, FeedsIn, CycleDone, Active, Swept;
    var r := CycleDone(setup, db, first);
    CycleEffect(setup, db, first);
    FirstLeavesAllIn(setup, db, first);
    FeedsReplayed(setup, last.faults, Start(r.db), r.progress.work.present, Feeds(last.provider.distributions));
    CycleShape(setup, db, first);
    SweepIsBounded(setup, db, first);
    SamePresent(setup, db, db, first, last);
    EnumerationsInStep(setup, db, r.db, last);
    FeedsSameTables(setup, first.faults, last.faults, Start(db), Start(db), Feeds(last.provider.distributions));
  }

  // One cycle before, however it went, makes no difference.
  lemma AfterOneCycle(setup: Setup, db: Db, first: Cycle, last: Cycle)
    requires Consistent(db) && last.provider == first.provider && FeedsKeyed(setup, Feeds(last.provider.distributions))
    ensures var alone, r := CycleDone(setup, db, last), CycleDone(setup, CycleDone(setup, db, first).db, last);
      r.failed == alone.failed && (!alone.failed ==> r.db == alone.db)
  {
    hide Consistent, FeedsKeyed, CycleDone, Enumerated, Active, Swept, ValidForIngest, Implausible;
    var r1 := CycleDone(setup, db, first);
    var cur := r1.db;
    CycleEffect(setup, db, first);
    ReportShape(setup, db, first);
    ReportShape(setup, db, last);
    ReportShape(setup, cur, last);
    EnumerationsInStep(setup, db, cur, last);
    if cur == db || Enumerated(setup, db, last).failed {
    } else if !r1.swept {
      ResumedEnumeration(setup, db, first, cur, last);
      DecidedAlike(setup, db, cur, last);
    } else {
      EnumerationAfterSweep(setup, db, first, last);
      SweepMeansGuards(setup, db, first);
      NothingIsPlausible(|Active(cur.tables)|);
      DecidedAlike(setup, db, cur, last);
      SweepMeansGuards(setup, db, last);
      SweepToActiveIsNoOp(cur.tables);
    }
  }

  lemma NothingIsPlausible(n: nat)
    ensures !Implausible(n, n)
  {
  }

  // Cycles that were interrupted anywhere, or not, leave nothing behind that matters: over the same answers
  // the last cycle fails exactly when it would have failed without them, and otherwise leaves exactly the
  // state it would have left without them.
  lemma {:induction false} RecoveryIsClean(setup: Setup, db: Db, earlier: seq<Cycle>, last: Cycle)
    requires Consistent(db) && FeedsKeyed(setup, Feeds(last.provider.distributions))
    requires forall i :: 0 <= i < |earlier| ==> earlier[i].provider == last.provider
    ensures var alone, r := CycleDone(setup, db, last), CycleDone(setup, CyclesDone(setup, db, earlier), last);
      r.failed == alone.failed && (!alone.failed ==> r.db == alone.db)
    decreases earlier
  {
    hide Consistent, FeedsKeyed, CycleDone;
    if earlier != [] {
      CycleEffect(setup, db, earlier[0]);
      AfterOneCycle(setup, db, earlier[0], last);
      RecoveryIsClean(setup, CycleDone(setup, db, earlier[0]).db, earlier[1..], last);
    }
  }
}
