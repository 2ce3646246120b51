/** Where stored revisions come from, and when a cycle fails, spelled out in what the provider answered. */
module Provenance {
  import opened Text
  import opened Csaf
  import opened Config
  import opened Tables
  import opened History
  import opened Store
  import opened Download
  import opened Ingest
  import opened Cycles
  import opened Agreement
  import opened Journal

  // ---------- What the provider offers ----------

  // The file was loaded whole within 32 MiB, decodes to the document, matches the strongest checksum offered
  // and carries a signature that verifies.
  ghost predicate Genuine(crypto: Crypto, file: File, doc: Document) {
    var body := Concat(file.response.chunks);
    && file.response.reachable && file.response.statusOk && !file.response.broken
    && |body| <= 32 * 1024 * 1024 && file.decoding.doc == Some(doc)
    && (if file.sha512.Absent? then file.sha256 == SideFile.Loaded(crypto.sha256(body))
        else file.sha512 == SideFile.Loaded(crypto.sha512(body)))
    && file.signature.Loaded? && crypto.verify(file.signature.content, body)
  }

  // The document is labelled publishable and names its tracking id and publisher; trimmed they are the key.
  ghost predicate Names(cfg: Config, doc: Document, k: Key) {
    && doc.tlp.Some? && IsPublishable(cfg, doc.tlp.value)
    && doc.trackingId.Some? && TrimSpace(doc.trackingId.value) == k.trackingId != ""
    && doc.publisher.Some? && TrimSpace(doc.publisher.value) == k.publisher != ""
  }

  // A listed feed with a URL and a publishable label loaded, and one of its files is that document.
  ghost predicate OfferedBy(setup: Setup, provider: Provider, x: Arrival, feed: Feed, file: File) {
    && IsListed(provider.distributions, feed) && feed.hasUrl && feed.loads && IsPublishable(setup.cfg, feed.listedAs)
    && file in feed.files && Genuine(setup.crypto, file, x.doc) && Names(setup.cfg, x.doc, x.key)
  }

  ghost predicate Offers(setup: Setup, provider: Provider, x: Arrival) {
    exists feed, file :: OfferedBy(setup, provider, x, feed, file)
  }

  // ---------- What a cycle stores ----------

  lemma KeyOfMeans(setup: Setup, tlp: string, file: File, x: Arrival)
    ensures (KeyOf(setup, tlp, file) == Some(x.key) && Verified(setup.crypto, file).value.doc == x.doc)
      <==> IsPublishable(setup.cfg, tlp) && Genuine(setup.crypto, file, x.doc) && Names(setup.cfg, x.doc, x.key)
  {
    hide Concat, IsPublishable, TrimSpace;
  }

  // A successful store call of file: its document, under its key, with a version and all columns castable.
  ghost predicate StoreOf(setup: Setup, tlp: string, file: File, x: Arrival) {
    KeyOf(setup, tlp, file) == Some(x.key) && Verified(setup.crypto, file).value.doc == x.doc
  }

  lemma FileStoresMean(setup: Setup, faults: Faults, p: Progress, tlp: string, file: File, x: Arrival)
    requires !p.failed
    ensures x in FileStores(setup, faults, p, tlp, file) ==>
      StoreOf(setup, tlp, file, x) && x.doc.version.Some? && x.doc.castable
    ensures !FileDone(setup, faults, p, tlp, file).failed && StoreOf(setup, tlp, file, x) ==>
      x in FileStores(setup, faults, p, tlp, file)
  {
    hide Accepts, Admitted, StoredDb, Conflicts;
  }

  lemma {:induction false} FilesStoresMean(setup: Setup, faults: Faults, p: Progress, tlp: string, files: seq<File>, x: Arrival)
    ensures x in FilesStores(setup, faults, p, tlp, files) ==>
      x.doc.version.Some? && x.doc.castable && exists file :: file in files && StoreOf(setup, tlp, file, x)
    ensures !FilesDone(setup, faults, p, tlp, files).failed && (exists file :: file in files && StoreOf(setup, tlp, file, x)) ==>
      x in FilesStores(setup, faults, p, tlp, files)
    decreases files
  {
    hide FileDone, FileStores, StoreOf;
    if !p.failed && files != [] {
      FileStoresMean(setup, faults, p, tlp, files[0], x);
      FilesStoresMean(setup, faults, FileDone(setup, faults, p, tlp, files[0]), tlp, files[1..], x);
      FailedStays(setup, faults, FileDone(setup, faults, p, tlp, files[0]), tlp, files[1..]);
      assert forall f :: f in files <==> f == files[0] || f in files[1..];
    }
  }

  lemma FailedStays(setup: Setup, faults: Faults, p: Progress, tlp: string, files: seq<File>)
    ensures p.failed ==> FilesDone(setup, faults, p, tlp, files).failed
  {
  }

  // Feed leads to the store call x.
  ghost predicate FeedStoresIt(setup: Setup, feed: Feed, x: Arrival) {
    feed.hasUrl && feed.loads && IsPublishable(setup.cfg, feed.listedAs)
    && exists file :: file in feed.files && StoreOf(setup, feed.listedAs, file, x)
  }

  lemma FeedStoresMean(setup: Setup, faults: Faults, p: Progress, feed: Feed, x: Arrival)
    ensures x in FeedStores(setup, faults, p, feed) ==> x.doc.version.Some? && x.doc.castable && FeedStoresIt(setup, feed, x)
    ensures !FeedDone(setup, faults, p, feed).failed && FeedStoresIt(setup, feed, x) ==> x in FeedStores(setup, faults, p, feed)
  {
    hide FilesDone, FilesStores, StoreOf, IsPublishable;
    FilesStoresMean(setup, faults, p, feed.listedAs, feed.files, x);
  }

  lemma {:induction false} FeedsStoresMean(setup: Setup, faults: Faults, p: Progress, feeds: seq<Feed>, x: Arrival)
    ensures x in FeedsStores(setup, faults, p, feeds) ==>
      x.doc.version.Some? && x.doc.castable && exists feed :: feed in feeds && FeedStoresIt(setup, feed, x)
    ensures !FeedsDone(setup, faults, p, feeds).failed && (exists feed :: feed in feeds && FeedStoresIt(setup, feed, x)) ==>
      x in FeedsStores(setup, faults, p, feeds)
    decreases feeds
  {
    hide FeedDone, FeedStores, FeedStoresIt;
    if !p.failed && feeds != [] {
      var q := FeedDone(setup, faults, p, feeds[0]);
      FeedStoresMean(setup, faults, p, feeds[0], x);
      FeedsStoresMean(setup, faults, q, feeds[1..], x);
      assert q.failed ==> FeedsDone(setup, faults, q, feeds[1..]).failed;
      assert forall f :: f in feeds <==> f == feeds[0] || f in feeds[1..];
    }
  }

  lemma OffersMeans(setup: Setup, provider: Provider, x: Arrival)
    ensures Offers(setup, provider, x) <==> exists feed :: feed in Feeds(provider.distributions) && FeedStoresIt(setup, feed, x)
  {
    hide Feeds, IsListed, IsPublishable, Genuine, Names, StoreOf;
    forall feed ensures feed in Feeds(provider.distributions) <==> IsListed(provider.distributions, feed) {
      FeedsAreListed(provider.distributions, feed);
    }
    if feed, file :| OfferedBy(setup, provider, x, feed, file) {
      StoreOfMeans(setup, feed.listedAs, file, x);
      assert FeedStoresIt(setup, feed, x);
    }
    if feed :| feed in Feeds(provider.distributions) && FeedStoresIt(setup, feed, x) {
      var file :| file in feed.files && StoreOf(setup, feed.listedAs, file, x);
      StoreOfMeans(setup, feed.listedAs, file, x);
      assert OfferedBy(setup, provider, x, feed, file);
    }
  }

  lemma StoreOfMeans(setup: Setup, tlp: string, file: File, x: Arrival)
    ensures StoreOf(setup, tlp, file, x)
      <==> IsPublishable(setup.cfg, tlp) && Genuine(setup.crypto, file, x.doc) && Names(setup.cfg, x.doc, x.key)
  {
    KeyOfMeans(setup, tlp, file, x);
  }

  // A cycle stores nothing but what the provider offers and the insert takes; if its enumeration does not fail it
  // stores all that is offered.
  lemma CycleStoresWhatIsOffered(setup: Setup, db: Db, cycle: Cycle, x: Arrival)
    ensures x in CycleStores(setup, db, cycle) ==>
      Offers(setup, cycle.provider, x) && x.doc.version.Some? && x.doc.castable
    ensures !CycleDone(setup, db, cycle).failed ==>
      (x in CycleStores(setup, db, cycle) <==> Offers(setup, cycle.provider, x))
  {
    hide FeedsDone, FeedsStores, Offers, Decide, Swept, Active, ValidForIngest, FeedStoresIt;
    OffersMeans(setup, cycle.provider, x);
    FeedsStoresMean(setup, cycle.faults, Progress(Work(db, NO_COUNTS, {}), NO_SUMMARY, false), Feeds(cycle.provider.distributions), x);
  }

  // So every store of a run was offered in one of its cycles.
  lemma {:induction false} RunStoresWhatIsOffered(setup: Setup, db: Db, cycles: seq<Cycle>, x: Arrival)
    requires x in Stores(setup, db, cycles)
    ensures exists c :: c in cycles && Offers(setup, c.provider, x)
    ensures x.doc.version.Some? && x.doc.castable
    decreases cycles
  {
    hide CycleStores, Offers, CycleDone;
    if x in CycleStores(setup, db, cycles[0]) {
      CycleStoresWhatIsOffered(setup, db, cycles[0], x);
    } else {
      RunStoresWhatIsOffered(setup, CycleDone(setup, db, cycles[0]).db, cycles[1..], x);
    }
  }

  // And every row of a portal that started empty, and each of its advisories.
  lemma RowsWereOffered(setup: Setup, cycles: seq<Cycle>, id: nat)
    requires id in CyclesDone(setup, NEW, cycles).tables.documents
    ensures var row := CyclesDone(setup, NEW, cycles).tables.documents[id];
      && row.doc.version.Some? && row.doc.castable
      && exists c :: c in cycles && Offers(setup, c.provider, Arrival(row.advisory, row.doc))
  {
    hide CyclesDone, Stores, Offers, StoreAll, Inv, RevisionsDiffer, HasRevision;
    NewIsRecorded(setup, cycles);
    EveryRevisionIsHeld(Stores(setup, NEW, cycles));
    var row := CyclesDone(setup, NEW, cycles).tables.documents[id];
    RunStoresWhatIsOffered(setup, NEW, cycles, Arrival(row.advisory, row.doc));
  }

  // Over any run from an empty database: for each successful store call a row with its version, history length
  // and status is there, no two rows of an advisory agree in all three, and an advisory is there exactly if some
  // call named its key.
  lemma RunHoldsEveryRevision(setup: Setup, cycles: seq<Cycle>)
    ensures var t, journal := CyclesDone(setup, NEW, cycles).tables, Stores(setup, NEW, cycles);
      && RevisionsDiffer(t)
      && (forall x :: x in journal ==> HasRevision(t, x.key, x.doc.version, x.doc.revLength, x.doc.status))
      && (forall k :: k in t.advisories <==> exists x :: x in journal && x.key == k)
  {
    hide CyclesDone, Stores, StoreAll, Inv;
    NewIsRecorded(setup, cycles);
    EveryRevisionIsHeld(Stores(setup, NEW, cycles));
  }

  // A sweep leaves active exactly the keys the provider offers.
  lemma SweepLeavesOffered(setup: Setup, db: Db, cycle: Cycle, k: Key)
    requires Consistent(db) && CycleDone(setup, db, cycle).swept
    ensures k in Active(CycleDone(setup, db, cycle).db.tables) <==> exists doc :: Offers(setup, cycle.provider, Arrival(k, doc))
  {
    hide Consistent, Active, CycleDone, Offers, Arrives, FeedStoresIt;
    SweepLeavesArrived(setup, db, cycle);
    ArrivesMeans(setup, Feeds(cycle.provider.distributions), k);
    forall doc {
      OffersMeans(setup, cycle.provider, Arrival(k, doc));
    }
  }

  // The document of a file that has a key.
  ghost function VerifiedDoc(setup: Setup, tlp: string, file: File): Document
    requires KeyOf(setup, tlp, file).Some?
  {
    Verified(setup.crypto, file).value.doc
  }

  lemma ArrivesMeans(setup: Setup, feeds: seq<Feed>, k: Key)
    ensures Arrives(setup, feeds, k) <==> exists feed, doc :: feed in feeds && FeedStoresIt(setup, feed, Arrival(k, doc))
  {
    hide IsPublishable, KeyOf;
    if i, j :| 0 <= i < |feeds| && ArrivesFrom(setup, feeds[i], j, k) {
      var file := Enumerable(setup, feeds[i])[j];
      var doc := VerifiedDoc(setup, feeds[i].listedAs, file);
      assert file in feeds[i].files && StoreOf(setup, feeds[i].listedAs, file, Arrival(k, doc));
      assert feeds[i] in feeds && FeedStoresIt(setup, feeds[i], Arrival(k, doc));
    }
    if feed, doc :| feed in feeds && FeedStoresIt(setup, feed, Arrival(k, doc)) {
      var file :| file in feed.files && StoreOf(setup, feed.listedAs, file, Arrival(k, doc));
      var i :| 0 <= i < |feeds| && feeds[i] == feed;
      var j :| 0 <= j < |feed.files| && feed.files[j] == file;
      assert Enumerable(setup, feeds[i]) == feed.files;
      assert ArrivesFrom(setup, feeds[i], j, k);
    }
  }
}
