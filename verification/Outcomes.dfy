/** What a cycle reports: exactly when it fails, what it counts, and what it does not look at. */
module Outcomes {
  import opened Text
  import opened Csaf
  import opened Config
  import opened Tables
  import opened FacetIndex
  import opened Store
  import opened Download
  import opened Ingest
  import opened Cycles
  import opened Agreement
  import opened Replay

  // ---------- The files a run goes over ----------

  function FilesProcessed(setup: Setup, feeds: seq<Feed>): nat
    decreases feeds
  {
    if feeds == [] then 0 else |Enumerable(setup, feeds[0])| + FilesProcessed(setup, feeds[1..])
  }

  function FilesVerified(setup: Setup, files: seq<File>): nat
    decreases files
  {
    if files == [] then 0
    else (if Verified(setup.crypto, files[0]).Some? then 1 else 0) + FilesVerified(setup, files[1..])
  }

  function FeedsVerified(setup: Setup, feeds: seq<Feed>): nat
    decreases feeds
  {
    if feeds == [] then 0 else FilesVerified(setup, Enumerable(setup, feeds[0])) + FeedsVerified(setup, feeds[1..])
  }

  // Files of delivered feeds whose label is not publishable.
  function FilesRestricted(setup: Setup, feeds: seq<Feed>): nat
    decreases feeds
  {
    if feeds == [] then 0
    else
      (if feeds[0].hasUrl && feeds[0].loads && !IsPublishable(setup.cfg, feeds[0].listedAs) then |feeds[0].files| else 0)
      + FilesRestricted(setup, feeds[1..])
  }

  // ---------- When an enumeration fails ----------

  function FilesHandled(p: Progress): nat {
    p.sum.verified + p.sum.skipped
  }

  // Of the next `keyed` store calls one is the faulty one.
  predicate CallFails(faults: Faults, p: Progress, keyed: nat) {
    faults.storeCall.Some? && StoresCounted(p) <= faults.storeCall.value < StoresCounted(p) + keyed
  }

  // Before one of the next `files` files the run is cancelled.
  predicate Stops(faults: Faults, p: Progress, files: nat) {
    files > 0 && faults.cancelled.Some? && faults.cancelled.value < FilesHandled(p) + files
  }

  function Keyed1(setup: Setup, tlp: string, file: File): nat {
    if KeyOf(setup, tlp, file).Some? then 1 else 0
  }

  lemma FileOutcome(setup: Setup, faults: Faults, p: Progress, tlp: string, file: File)
    requires !p.failed
    ensures var q := FileDone(setup, faults, p, tlp, file);
      && (q.failed <==> Poisons(setup, tlp, file) || CallFails(faults, p, Keyed1(setup, tlp, file)) || Stops(faults, p, 1))
      && (!q.failed ==> FilesHandled(q) == FilesHandled(p) + 1 && StoresCounted(q) == StoresCounted(p) + Keyed1(setup, tlp, file))
  {
    hide Accepts, Admitted, StoredDb, Conflicts, Insertable;
  }

  lemma {:induction false} FilesOutcome(setup: Setup, faults: Faults, p: Progress, tlp: string, files: seq<File>)
    requires !p.failed
    ensures var q := FilesDone(setup, faults, p, tlp, files);
      && (q.failed <==>
            || (exists j :: 0 <= j < |files| && Poisons(setup, tlp, files[j]))
            || CallFails(faults, p, KeyedFiles(setup, tlp, files)) || Stops(faults, p, |files|))
      && (!q.failed ==> FilesHandled(q) == FilesHandled(p) + |files| && StoresCounted(q) == StoresCounted(p) + KeyedFiles(setup, tlp, files))
    decreases files
  {
    hide FileDone, Poisons, KeyOf, FilesHandled, StoresCounted;
    if files != [] {
      var q := FileDone(setup, faults, p, tlp, files[0]);
      FileOutcome(setup, faults, p, tlp, files[0]);
      if !q.failed {
        FilesOutcome(setup, faults, q, tlp, files[1..]);
        assert forall j :: 0 < j < |files| ==> files[1..][j - 1] == files[j];
      }
    }
  }

  lemma FeedOutcome(setup: Setup, faults: Faults, p: Progress, feed: Feed)
    requires !p.failed
    ensures var q, files := FeedDone(setup, faults, p, feed), Enumerable(setup, feed);
      && (q.failed <==>
            || PoisonedFeed(setup, feed)
            || CallFails(faults, p, KeyedFiles(setup, feed.listedAs, files)) || Stops(faults, p, |files|))
      && (!q.failed ==>
            FilesHandled(q) == FilesHandled(p) + |files| && StoresCounted(q) == StoresCounted(p) + KeyedFiles(setup, feed.listedAs, files))
  {
    hide FilesDone, Poisons, IsPublishable;
    if Delivered(feed) && IsPublishable(setup.cfg, feed.listedAs) {
      FilesOutcome(setup, faults, p, feed.listedAs, feed.files);
    }
  }

  // A run fails exactly if it comes upon a document the insert rejects, the store call that fails, or the file
  // before which it is cancelled.
  lemma {:induction false} FeedsOutcome(setup: Setup, faults: Faults, p: Progress, feeds: seq<Feed>)
    requires !p.failed
    ensures FeedsDone(setup, faults, p, feeds).failed <==>
      || Poisoned(setup, feeds)
      || CallFails(faults, p, StoreCalls(setup, feeds)) || Stops(faults, p, FilesProcessed(setup, feeds))
    decreases feeds
  {
    hide FeedDone, PoisonedFeed, KeyedFiles, FilesHandled, StoresCounted, Enumerable;
    if feeds != [] {
      var q := FeedDone(setup, faults, p, feeds[0]);
      FeedOutcome(setup, faults, p, feeds[0]);
      if !q.failed {
        FeedsOutcome(setup, faults, q, feeds[1..]);
        assert forall i :: 0 < i < |feeds| ==> feeds[1..][i - 1] == feeds[i];
      }
    }
  }

  // ---------- When a cycle fails ----------

  // A cycle fails exactly if it is not configured, the metadata does not load, the enumeration comes upon one
  // of the three, the file processor fails, the count fails when every publishable feed probes and something is
  // present, the sweep fails when the guard lets it through besides, or the watermark cannot be recorded.
  lemma CycleFailsIff(setup: Setup, db: Db, cycle: Cycle)
    requires Consistent(db)
    ensures var p := Enumerated(setup, db, cycle);
      var feeds, faults := Feeds(cycle.provider.distributions), cycle.faults;
      var active := Active(p.work.db.tables);
      CycleDone(setup, db, cycle).failed <==>
        || setup.cfg.providerUrl == "" || setup.cfg.publishable == [] || !cycle.provider.ready
        || Poisoned(setup, feeds)
        || (faults.storeCall.Some? && faults.storeCall.value < StoreCalls(setup, feeds))
        || (faults.cancelled.Some? && faults.cancelled.value < FilesProcessed(setup, feeds))
        || faults.process
        || (EnumeratedAll(setup.cfg, feeds) && p.work.present != {}
            && (faults.count || (faults.sweep && (|active| >= 10 ==> 2 * |active - p.work.present| <= |active|))))
        || faults.watermark
  {
    hide Consistent, Follows, FeedsDone, EnumeratedAll, Swept, Active, Implausible, Poisoned, Feeds, StoreCalls, FilesProcessed;
    EnumeratedEffect(setup, db, cycle);
    var p := Enumerated(setup, db, cycle);
    Difference(Active(p.work.db.tables), p.work.present);
    GuardIsHalf(|Active(p.work.db.tables)|, |p.work.present|);
    assert |p.work.present| == 0 <==> p.work.present == {};
    FeedsOutcome(setup, cycle.faults, Progress(Work(db, NO_COUNTS, {}), NO_SUMMARY, false), Feeds(cycle.provider.distributions));
  }

  // ---------- What a run counts ----------

  lemma FileTallied(setup: Setup, faults: Faults, p: Progress, tlp: string, file: File)
    requires !p.failed && !FileDone(setup, faults, p, tlp, file).failed
    ensures var q := FileDone(setup, faults, p, tlp, file);
      var verified := if Verified(setup.crypto, file).Some? then 1 else 0;
      && q.sum == Summary(p.sum.verified + verified, p.sum.skipped + 1 - verified, p.sum.skippedFeed)
      && q.work.counts.skippedTlp == p.work.counts.skippedTlp + verified - Keyed1(setup, tlp, file)
  {
    hide Accepts, Admitted, StoredDb, Conflicts, Insertable;
  }

  lemma {:induction false} FilesTallied(setup: Setup, faults: Faults, p: Progress, tlp: string, files: seq<File>)
    requires !p.failed && !FilesDone(setup, faults, p, tlp, files).failed
    ensures var q, verified := FilesDone(setup, faults, p, tlp, files), FilesVerified(setup, files);
      && verified <= |files|
      && q.sum == Summary(p.sum.verified + verified, p.sum.skipped + |files| - verified, p.sum.skippedFeed)
      && q.work.counts.skippedTlp == p.work.counts.skippedTlp + verified - KeyedFiles(setup, tlp, files)
    decreases files
  {
    hide FileDone, Verified, KeyOf;
    if files != [] {
      assert !FileDone(setup, faults, p, tlp, files[0]).failed;
      FileTallied(setup, faults, p, tlp, files[0]);
      FilesTallied(setup, faults, FileDone(setup, faults, p, tlp, files[0]), tlp, files[1..]);
    }
  }

  lemma FeedTallied(setup: Setup, faults: Faults, p: Progress, feed: Feed)
    requires !p.failed && !FeedDone(setup, faults, p, feed).failed
    ensures var q, files := FeedDone(setup, faults, p, feed), Enumerable(setup, feed);
      var verified := FilesVerified(setup, files);
      && verified <= |files|
      && q.sum == Summary(p.sum.verified + verified, p.sum.skipped + |files| - verified,
                          p.sum.skippedFeed + FilesRestricted(setup, [feed]))
      && q.work.counts.skippedTlp == p.work.counts.skippedTlp + verified - KeyedFiles(setup, feed.listedAs, files)
  {
    hide FilesDone, IsPublishable, Verified, KeyOf;
    assert [feed][1..] == [];
    if Delivered(feed) && IsPublishable(setup.cfg, feed.listedAs) {
      FilesTallied(setup, faults, p, feed.listedAs, feed.files);
    }
  }

  // A run that does not fail counts as verified the files that verify, as skipped those that do not, as gated
  // the verified ones without a key, and as skipped with their feed the files of restricted feeds.
  lemma {:induction false} FeedsTallied(setup: Setup, faults: Faults, p: Progress, feeds: seq<Feed>)
    requires !p.failed && !FeedsDone(setup, faults, p, feeds).failed
    ensures var q, verified := FeedsDone(setup, faults, p, feeds), FeedsVerified(setup, feeds);
      && verified <= FilesProcessed(setup, feeds)
      && q.sum == Summary(p.sum.verified + verified, p.sum.skipped + FilesProcessed(setup, feeds) - verified,
                          p.sum.skippedFeed + FilesRestricted(setup, feeds))
      && q.work.counts.skippedTlp == p.work.counts.skippedTlp + verified - StoreCalls(setup, feeds)
    decreases feeds
  {
    hide FeedDone, FilesVerified, KeyedFiles, Enumerable, IsPublishable;
    if feeds != [] {
      assert !FeedDone(setup, faults, p, feeds[0]).failed;
      assert [feeds[0]][1..] == [] && [feeds[0]][0] == feeds[0];
      FeedTallied(setup, faults, p, feeds[0]);
      FeedsTallied(setup, faults, FeedDone(setup, faults, p, feeds[0]), feeds[1..]);
    }
  }

  // The rows a run has added so far are those it counted as stored.
  ghost predicate RowsMatch(p: Progress, q: Progress) {
    |q.work.db.tables.documents| - |p.work.db.tables.documents| == q.work.counts.stored - p.work.counts.stored
  }

  lemma FileRows(setup: Setup, faults: Faults, p: Progress, tlp: string, file: File)
    requires Balanced(p) && !p.failed
    ensures RowsMatch(p, FileDone(setup, faults, p, tlp, file))
  {
    hide Accepts, Admitted, Insertable, Agrees, Extracted, HeadsNewest, Linked, UniqueRevisions, Stored, Conflicts, AdvisoryKey;
    var key := KeyOf(setup, tlp, file);
    if key.Some? {
      var t, doc := p.work.db.tables, Verified(setup.crypto, file).value.doc;
      if Conflicts(t, key.value, doc) {
        StoredDuplicate(t, key.value, doc);
      } else {
        StoredNewRevision(t, key.value, doc);
        OneMoreRow(t.documents, Stored(t, key.value, doc).documents, t.nextId);
      }
    }
    hide NewRevision;
  }

  lemma {:induction false} FilesRows(setup: Setup, faults: Faults, p: Progress, tlp: string, files: seq<File>)
    requires Balanced(p) && !p.failed
    ensures RowsMatch(p, FilesDone(setup, faults, p, tlp, files))
    decreases files
  {
    hide FileDone, Sound, Grows;
    if files != [] {
      FileRows(setup, faults, p, tlp, files[0]);
      FileEffect(setup, faults, p, tlp, files[0]);
      if !FileDone(setup, faults, p, tlp, files[0]).failed {
        FilesRows(setup, faults, FileDone(setup, faults, p, tlp, files[0]), tlp, files[1..]);
      }
    }
  }

  lemma {:induction false} FeedsRows(setup: Setup, faults: Faults, p: Progress, feeds: seq<Feed>)
    requires Balanced(p) && !p.failed
    ensures RowsMatch(p, FeedsDone(setup, faults, p, feeds))
    decreases feeds
  {
    hide FilesDone, Sound, Grows, IsPublishable;
    if feeds != [] {
      FilesRows(setup, faults, p, feeds[0].listedAs, feeds[0].files);
      FilesEffect(setup, faults, p, feeds[0].listedAs, feeds[0].files);
      if !FeedDone(setup, faults, p, feeds[0]).failed {
        FeedsRows(setup, faults, FeedDone(setup, faults, p, feeds[0]), feeds[1..]);
      }
    }
  }

  // A cycle adds exactly as many rows as it counts as stored, failed or not.
  lemma StoredCountsRows(setup: Setup, db: Db, cycle: Cycle)
    requires Consistent(db)
    ensures var r := CycleDone(setup, db, cycle);
      |r.db.tables.documents| == |db.tables.documents| + r.progress.work.counts.stored
  {
    hide Consistent, FeedsDone, Decide, ValidForIngest, Active, Balanced;
    StartBalanced(db);
    FeedsRows(setup, cycle.faults, Progress(Work(db, NO_COUNTS, {}), NO_SUMMARY, false), Feeds(cycle.provider.distributions));
  }

  // ---------- A restricted feed makes no difference ----------

  // The same run with some more files skipped with their feed.
  function Bumped(p: Progress, n: nat): Progress {
    p.(sum := p.sum.(skippedFeed := p.sum.skippedFeed + n))
  }

  lemma FileBumped(setup: Setup, faults: Faults, p: Progress, n: nat, tlp: string, file: File)
    ensures FileDone(setup, faults, Bumped(p, n), tlp, file) == Bumped(FileDone(setup, faults, p, tlp, file), n)
  {
    hide Verified, Admitted, StoredDb, Conflicts, Insertable;
  }

  lemma {:induction false} FilesBumped(setup: Setup, faults: Faults, p: Progress, n: nat, tlp: string, files: seq<File>)
    ensures FilesDone(setup, faults, Bumped(p, n), tlp, files) == Bumped(FilesDone(setup, faults, p, tlp, files), n)
    decreases files
  {
    hide FileDone;
    if !p.failed && files != [] {
      FileBumped(setup, faults, p, n, tlp, files[0]);
      FilesBumped(setup, faults, FileDone(setup, faults, p, tlp, files[0]), n, tlp, files[1..]);
    }
  }

  lemma {:induction false} FeedsBumped(setup: Setup, faults: Faults, p: Progress, n: nat, feeds: seq<Feed>)
    ensures FeedsDone(setup, faults, Bumped(p, n), feeds) == Bumped(FeedsDone(setup, faults, p, feeds), n)
    decreases feeds
  {
    hide FilesDone, IsPublishable;
    if !p.failed && feeds != [] {
      FilesBumped(setup, faults, p, n, feeds[0].listedAs, feeds[0].files);
      FeedsBumped(setup, faults, FeedDone(setup, faults, p, feeds[0]), n, feeds[1..]);
    }
  }

  lemma {:induction false} FeedsAppended(setup: Setup, faults: Faults, p: Progress, a: seq<Feed>, b: seq<Feed>)
    ensures FeedsDone(setup, faults, p, a + b) == FeedsDone(setup, faults, FeedsDone(setup, faults, p, a), b)
    decreases a
  {
    hide FeedDone;
    if a == [] {
      assert a + b == b;
    } else if !p.failed {
      FeedsAppended(setup, faults, FeedDone(setup, faults, p, a[0]), a[1..], b);
      assert (a + b)[0] == a[0] && (a + b)[1..] == a[1..] + b;
    }
  }

  // Neither label of the feed, that of the metadata and that it is listed under, is publishable.
  predicate Restricted(cfg: Config, feed: Feed) {
    !IsPublishable(cfg, feed.tlp.GetOr("")) && !IsPublishable(cfg, feed.listedAs)
  }

  lemma InsertedFeed(setup: Setup, faults: Faults, p: Progress, a: seq<Feed>, feed: Feed, b: seq<Feed>) returns (n: nat)
    requires Restricted(setup.cfg, feed)
    ensures FeedsDone(setup, faults, p, a + [feed] + b) == Bumped(FeedsDone(setup, faults, p, a + b), n)
  {
    hide IsPublishable, FilesDone;
    var q := FeedsDone(setup, faults, p, a);
    FeedsAppended(setup, faults, p, a, b);
    FeedsAppended(setup, faults, p, a + [feed], b);
    FeedsAppended(setup, faults, p, a, [feed]);
    assert [feed][0] == feed && [feed][1..] == [];
    n := if !q.failed && Delivered(feed) then |feed.files| else 0;
    assert FeedsDone(setup, faults, q, [feed]) == Bumped(q, n);
    FeedsBumped(setup, faults, q, n, b);
  }

  lemma RestrictedIsNotProbed(cfg: Config, a: seq<Feed>, feed: Feed, b: seq<Feed>)
    requires Restricted(cfg, feed)
    ensures EnumeratedAll(cfg, a + [feed] + b) == EnumeratedAll(cfg, a + b)
  {
    hide IsPublishable;
    var more, less := a + [feed] + b, a + b;
    forall i | 0 <= i < |less| ensures less[i] in more && (less[i] in a || less[i] in b) {
      assert i < |a| ==> more[i] == less[i];
      assert i >= |a| ==> more[i + 1] == less[i];
    }
    forall i | 0 <= i < |more| ensures more[i] == feed || more[i] in less {
      assert i < |a| ==> less[i] == more[i];
      assert i > |a| ==> less[i - 1] == more[i];
    }
  }

  // A cycle does the same with and without a restricted feed, wherever it is listed and whatever it answers.
  lemma RestrictedFeedIsIgnored(setup: Setup, db: Db, more: Cycle, less: Cycle, a: seq<Feed>, feed: Feed, b: seq<Feed>)
    requires Restricted(setup.cfg, feed)
    requires Feeds(more.provider.distributions) == a + [feed] + b && Feeds(less.provider.distributions) == a + b
    requires more.provider.ready == less.provider.ready && more.faults == less.faults && more.now == less.now
    ensures var r, r' := CycleDone(setup, db, more), CycleDone(setup, db, less);
      r.db == r'.db && r.failed == r'.failed && r.swept == r'.swept && r.progress.work == r'.progress.work
  {
    hide FeedsDone, EnumeratedAll, Feeds, Swept, Active, Implausible, ValidForIngest, Restricted;
    var n := InsertedFeed(setup, more.faults, Progress(Work(db, NO_COUNTS, {}), NO_SUMMARY, false), a, feed, b);
    RestrictedIsNotProbed(setup.cfg, a, feed, b);
  }

  // So it may load or fail to, at either time, and list what it likes.
  lemma RestrictedAnswersAreIgnored(setup: Setup, db: Db, one: Cycle, two: Cycle, a: seq<Feed>, f: Feed, g: Feed, b: seq<Feed>)
    requires Restricted(setup.cfg, f) && Restricted(setup.cfg, g)
    requires Feeds(one.provider.distributions) == a + [f] + b && Feeds(two.provider.distributions) == a + [g] + b
    requires one.provider.ready == two.provider.ready && one.faults == two.faults && one.now == two.now
    ensures var r, r' := CycleDone(setup, db, one), CycleDone(setup, db, two);
      r.db == r'.db && r.failed == r'.failed && r.swept == r'.swept && r.progress.work == r'.progress.work
  {
    hide CycleDone, Feeds, Restricted;
    var without := one.(provider := one.provider.(distributions := [Some(a + b)]));
    FeedsOfOne(a + b);
    RestrictedFeedIsIgnored(setup, db, one, without, a, f, b);
    RestrictedFeedIsIgnored(setup, db, two, without, a, g, b);
  }
}
