/** Cycles against the provider: when a sweep agrees with what the provider lists, and when a cycle succeeds. */
module Agreement {
  import opened Text
  import opened Csaf
  import opened Config
  import opened Tables
  import opened Store
  import opened Download
  import opened Ingest
  import opened Cycles

  // ---------- The keys a run delivers ----------

  // The key under which a file ends up in the store, if it is verified and admitted.
  function KeyOf(setup: Setup, tlp: string, file: File): Option<Key> {
    match Verified(setup.crypto, file)
    case None => None
    case Some(advisory) => Admitted(setup.cfg, tlp, advisory.doc)
  }

  // The files a feed contributes.
  function Enumerable(setup: Setup, feed: Feed): seq<File> {
    if Delivered(feed) && IsPublishable(setup.cfg, feed.listedAs) then feed.files else []
  }

  predicate ArrivesFrom(setup: Setup, feed: Feed, j: int, k: Key) {
    0 <= j < |Enumerable(setup, feed)| && KeyOf(setup, feed.listedAs, Enumerable(setup, feed)[j]) == Some(k)
  }

  ghost predicate Arrives(setup: Setup, feeds: seq<Feed>, k: Key) {
    exists i, j :: 0 <= i < |feeds| && ArrivesFrom(setup, feeds[i], j, k)
  }

  lemma FilePresent(setup: Setup, faults: Faults, p: Progress, tlp: string, file: File)
    requires !FileDone(setup, faults, p, tlp, file).failed && !p.failed
    ensures var q := FileDone(setup, faults, p, tlp, file);
      forall k :: k in q.work.present <==> k in p.work.present || KeyOf(setup, tlp, file) == Some(k)
  {
    hide Verified, Admitted, StoredDb, Conflicts, Insertable;
  }

  lemma {:induction false} FilesPresent(setup: Setup, faults: Faults, p: Progress, tlp: string, files: seq<File>)
    requires !p.failed && !FilesDone(setup, faults, p, tlp, files).failed
    ensures var q := FilesDone(setup, faults, p, tlp, files);
      forall k :: k in q.work.present <==>
        k in p.work.present || exists j :: 0 <= j < |files| && KeyOf(setup, tlp, files[j]) == Some(k)
    decreases files
  {
    hide FileDone, KeyOf;
    if files != [] {
      var q := FileDone(setup, faults, p, tlp, files[0]);
      assert !q.failed;
      FilePresent(setup, faults, p, tlp, files[0]);
      FilesPresent(setup, faults, q, tlp, files[1..]);
      forall k ensures (exists j :: 0 <= j < |files| && KeyOf(setup, tlp, files[j]) == Some(k))
        <==> KeyOf(setup, tlp, files[0]) == Some(k) || exists j :: 0 <= j < |files[1..]| && KeyOf(setup, tlp, files[1..][j]) == Some(k)
      {
        if j :| 0 <= j < |files| && KeyOf(setup, tlp, files[j]) == Some(k) {
          assert j > 0 ==> files[1..][j - 1] == files[j];
        }
      }
    }
  }

  lemma FeedPresent(setup: Setup, faults: Faults, p: Progress, feed: Feed)
    requires !p.failed && !FeedDone(setup, faults, p, feed).failed
    ensures var q := FeedDone(setup, faults, p, feed);
      forall k :: k in q.work.present <==> k in p.work.present || Arrives(setup, [feed], k)
  {
    hide FilesDone, KeyOf, IsPublishable;
    assert [feed][0] == feed;
    if Delivered(feed) && IsPublishable(setup.cfg, feed.listedAs) {
      FilesPresent(setup, faults, p, feed.listedAs, feed.files);
      forall k ensures (exists j :: 0 <= j < |feed.files| && KeyOf(setup, feed.listedAs, feed.files[j]) == Some(k))
        <==> Arrives(setup, [feed], k)
      {
        if j :| 0 <= j < |feed.files| && KeyOf(setup, feed.listedAs, feed.files[j]) == Some(k) {
          assert ArrivesFrom(setup, [feed][0], j, k);
        }
      }
    }
  }

  lemma ArrivesSplit(setup: Setup, feeds: seq<Feed>, k: Key)
    requires feeds != []
    ensures Arrives(setup, feeds, k) <==> Arrives(setup, [feeds[0]], k) || Arrives(setup, feeds[1..], k)
  {
    hide ArrivesFrom;
    if i, j :| 0 <= i < |feeds| && ArrivesFrom(setup, feeds[i], j, k) {
      if i > 0 {
        assert feeds[1..][i - 1] == feeds[i];
      } else {
        assert [feeds[0]][0] == feeds[i];
      }
    }
  }

  // A run that does not fail has present exactly the keys that arrived.
  lemma {:induction false} FeedsPresent(setup: Setup, faults: Faults, p: Progress, feeds: seq<Feed>)
    requires !p.failed && !FeedsDone(setup, faults, p, feeds).failed
    ensures var q := FeedsDone(setup, faults, p, feeds);
      forall k :: k in q.work.present <==> k in p.work.present || Arrives(setup, feeds, k)
    decreases feeds
  {
    hide FeedDone, Arrives;
    if feeds == [] {
      NothingArrives(setup);
    } else {
      var q := FeedDone(setup, faults, p, feeds[0]);
      assert !q.failed;
      FeedPresent(setup, faults, p, feeds[0]);
      FeedsPresent(setup, faults, q, feeds[1..]);
      forall k ensures Arrives(setup, feeds, k) <==> Arrives(setup, [feeds[0]], k) || Arrives(setup, feeds[1..], k) {
        ArrivesSplit(setup, feeds, k);
      }
    }
  }

  lemma NothingArrives(setup: Setup)
    ensures forall k :: !Arrives(setup, [], k)
  {
  }

  // ---------- Agreement with the provider ----------

  // The provider publishes k: a publishable feed of the metadata lists a well-formed publishable document with that key.
  ghost predicate Published(setup: Setup, feeds: seq<Feed>, k: Key) {
    exists i, j :: 0 <= i < |feeds| && 0 <= j < |feeds[i].files| && Publishes(setup, feeds[i], feeds[i].files[j], k)
  }

  predicate Publishes(setup: Setup, feed: Feed, file: File, k: Key) {
    && feed.hasUrl && IsPublishable(setup.cfg, feed.listedAs)
    && file.decoding.doc.Some?
    && Admitted(setup.cfg, feed.listedAs, file.decoding.doc.value) == Some(k)
  }

  lemma ArrivedIsPublished(setup: Setup, feeds: seq<Feed>, k: Key)
    requires Arrives(setup, feeds, k)
    ensures Published(setup, feeds, k)
  {
    hide Accepts, Admitted, IsPublishable;
    var i, j :| 0 <= i < |feeds| && ArrivesFrom(setup, feeds[i], j, k);
    AcceptedDecodes(setup.crypto, feeds[i].files[j]);
    assert Publishes(setup, feeds[i], feeds[i].files[j], k);
  }

  lemma AcceptedDecodes(crypto: Crypto, file: File)
    ensures Verified(crypto, file).Some? ==>
      file.decoding.doc.Some? && Verified(crypto, file).value.doc == file.decoding.doc.value
  {
    hide Concat;
  }

  lemma SweepLeavesArrived(setup: Setup, db: Db, cycle: Cycle)
    requires Consistent(db) && CycleDone(setup, db, cycle).swept
    ensures var active := Active(CycleDone(setup, db, cycle).db.tables);
      forall k :: k in active <==> Arrives(setup, Feeds(cycle.provider.distributions), k)
  {
    hide Consistent, Active, CycleDone, FeedsDone, Arrives;
    SweepIsBounded(setup, db, cycle);
    CycleShape(setup, db, cycle);
    FeedsPresent(setup, cycle.faults, Progress(Work(db, NO_COUNTS, {}), NO_SUMMARY, false), Feeds(cycle.provider.distributions));
  }

  // After a sweep nothing is active that the provider does not publish, and everything it publishes is
  // active exactly when each such key arrived through some loaded feed and verified file.
  lemma SweepAgreesIff(setup: Setup, db: Db, cycle: Cycle)
    requires Consistent(db) && CycleDone(setup, db, cycle).swept
    ensures var feeds := Feeds(cycle.provider.distributions);
      var active := Active(CycleDone(setup, db, cycle).db.tables);
      && (forall k :: k in active ==> Published(setup, feeds, k))
      && ((forall k :: k in active <==> Published(setup, feeds, k))
          <==> forall k :: Published(setup, feeds, k) ==> Arrives(setup, feeds, k))
  {
    hide Consistent, Active, CycleDone, Arrives, Published;
    SweepLeavesArrived(setup, db, cycle);
    var feeds := Feeds(cycle.provider.distributions);
    forall k | Arrives(setup, feeds, k) ensures Published(setup, feeds, k) {
      ArrivedIsPublished(setup, feeds, k);
    }
  }

  // Each feed answers the later probe as it answered the enumeration, under the label of the metadata.
  ghost predicate SameAnswers(cfg: Config, feeds: seq<Feed>) {
    forall i :: 0 <= i < |feeds| && feeds[i].hasUrl ==>
      feeds[i].loads == feeds[i].probes && IsPublishable(cfg, feeds[i].tlp.GetOr("")) == IsPublishable(cfg, feeds[i].listedAs)
  }

  ghost predicate NothingSkipped(setup: Setup, feeds: seq<Feed>) {
    forall i, j :: 0 <= i < |feeds| && 0 <= j < |Enumerable(setup, feeds[i])| ==>
      Verified(setup.crypto, Enumerable(setup, feeds[i])[j]).Some?
  }

  lemma PublishedArrives(setup: Setup, feeds: seq<Feed>, k: Key)
    requires EnumeratedAll(setup.cfg, feeds) && SameAnswers(setup.cfg, feeds) && NothingSkipped(setup, feeds)
    requires Published(setup, feeds, k)
    ensures Arrives(setup, feeds, k)
  {
    hide Accepts, Admitted, IsPublishable;
    var i, j :| 0 <= i < |feeds| && 0 <= j < |feeds[i].files| && Publishes(setup, feeds[i], feeds[i].files[j], k);
    assert Relevant(setup.cfg, feeds[i]);
    assert Enumerable(setup, feeds[i])[j] == feeds[i].files[j];
    AcceptedDecodes(setup.crypto, feeds[i].files[j]);
    assert ArrivesFrom(setup, feeds[i], j, k);
  }

  // With stable answers and no skipped file a sweep leaves active exactly what the provider publishes.
  lemma ProviderAgreement(setup: Setup, db: Db, cycle: Cycle)
    requires Consistent(db) && CycleDone(setup, db, cycle).swept
    requires SameAnswers(setup.cfg, Feeds(cycle.provider.distributions))
    requires NothingSkipped(setup, Feeds(cycle.provider.distributions))
    ensures var active := Active(CycleDone(setup, db, cycle).db.tables);
      forall k :: k in active <==> Published(setup, Feeds(cycle.provider.distributions), k)
  {
    SweepAgreesIff(setup, db, cycle);
    SweptWasHealthy(setup, db, cycle);
    hide Consistent, Active, CycleDone, Arrives, Published, SameAnswers, NothingSkipped, EnumeratedAll;
    var feeds := Feeds(cycle.provider.distributions);
    forall k | Published(setup, feeds, k) ensures Arrives(setup, feeds, k) {
      PublishedArrives(setup, feeds, k);
    }
  }

  lemma SweptWasHealthy(setup: Setup, db: Db, cycle: Cycle)
    requires CycleDone(setup, db, cycle).swept
    ensures EnumeratedAll(setup.cfg, Feeds(cycle.provider.distributions))
    ensures CycleDone(setup, db, cycle).progress.work.present != {}
  {
    hide FeedsDone, EnumeratedAll, ValidForIngest, Swept, Active, Implausible;
  }

  // ---------- When a cycle succeeds ----------

  // A file whose document is verified and admitted but that the INSERT rejects.
  predicate Poisons(setup: Setup, tlp: string, file: File) {
    KeyOf(setup, tlp, file).Some? && !Insertable(Verified(setup.crypto, file).value.doc)
  }

  ghost predicate PoisonedFeed(setup: Setup, feed: Feed) {
    exists j :: 0 <= j < |Enumerable(setup, feed)| && Poisons(setup, feed.listedAs, Enumerable(setup, feed)[j])
  }

  ghost predicate Poisoned(setup: Setup, feeds: seq<Feed>) {
    exists i :: 0 <= i < |feeds| && PoisonedFeed(setup, feeds[i])
  }

  lemma FileFailsIff(setup: Setup, p: Progress, tlp: string, file: File)
    requires !p.failed
    ensures FileDone(setup, NO_FAULTS, p, tlp, file).failed <==> Poisons(setup, tlp, file)
  {
    hide Accepts, Admitted, Conflicts, StoredDb, Insertable;
  }

  lemma {:induction false} FilesFailIff(setup: Setup, p: Progress, tlp: string, files: seq<File>)
    requires !p.failed
    ensures FilesDone(setup, NO_FAULTS, p, tlp, files).failed <==> exists j :: 0 <= j < |files| && Poisons(setup, tlp, files[j])
    decreases files
  {
    hide FileDone, Poisons;
    if files != [] {
      var q := FileDone(setup, NO_FAULTS, p, tlp, files[0]);
      FileFailsIff(setup, p, tlp, files[0]);
      if !q.failed {
        FilesFailIff(setup, q, tlp, files[1..]);
        assert forall j :: 0 < j < |files| ==> files[1..][j - 1] == files[j];
      }
    }
  }

  lemma FeedFailsIff(setup: Setup, p: Progress, feed: Feed)
    requires !p.failed
    ensures FeedDone(setup, NO_FAULTS, p, feed).failed <==> PoisonedFeed(setup, feed)
  {
    hide FilesDone, Poisons, IsPublishable;
    if Delivered(feed) && IsPublishable(setup.cfg, feed.listedAs) {
      FilesFailIff(setup, p, feed.listedAs, feed.files);
      assert Enumerable(setup, feed) == feed.files;
    } else {
      assert Enumerable(setup, feed) == [];
    }
  }

  lemma {:induction false} FeedsFailIff(setup: Setup, p: Progress, feeds: seq<Feed>)
    requires !p.failed
    ensures FeedsDone(setup, NO_FAULTS, p, feeds).failed <==> Poisoned(setup, feeds)
    decreases feeds
  {
    hide PoisonedFeed, FeedDone;
    if feeds != [] {
      var q := FeedDone(setup, NO_FAULTS, p, feeds[0]);
      FeedFailsIff(setup, p, feeds[0]);
      if !q.failed {
        FeedsFailIff(setup, q, feeds[1..]);
        assert forall i :: 0 < i < |feeds| ==> feeds[1..][i - 1] == feeds[i];
      }
    }
  }

  // When nothing around it fails, a cycle succeeds exactly if it is configured, the metadata loads, and no
  // verified publishable document is one the INSERT rejects: a single such document stops every cycle.
  lemma FaultFreeCycleSucceedsIff(setup: Setup, db: Db, provider: Provider, now: int)
    ensures CycleDone(setup, db, Cycle(provider, NO_FAULTS, now)).failed
      <==> !ValidForIngest(setup.cfg) || !provider.ready || Poisoned(setup, Feeds(provider.distributions))
  {
    hide FeedsDone, EnumeratedAll, ValidForIngest, Poisoned, Implausible, Swept, Active;
    FeedsFailIff(setup, Progress(Work(db, NO_COUNTS, {}), NO_SUMMARY, false), Feeds(provider.distributions));
  }
}
