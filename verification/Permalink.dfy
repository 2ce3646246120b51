/** Permalink lookups: once stored, a key is never reported as unknown again. */
module Permalink {
  import opened Text
  import opened Csaf
  import Gate = Config
  import opened Tables
  import opened FacetIndex
  import opened Store
  import F = Filters
  import Download
  import opened Ingest
  import opened Cycles
  import opened Agreement
  import Journal
  import Provenance

  datatype Lookup = NotFound | Gone | Found(doc: Document)

  // GetByPublisherTrackingID, with the head read from latest_document_id.
  function Resolve(t: Tables, k: Key, publishable: seq<string>): Lookup {
    if k !in t.advisories || t.advisories[k].head.None? || t.advisories[k].head.value !in t.documents then NotFound
    else
      var doc := t.documents[t.advisories[k].head.value].doc;
      if doc.tlp.None? || Upper(doc.tlp.value) !in publishable then NotFound
      else if t.advisories[k].withdrawn then Gone
      else Found(doc)
  }

  // A latest row of that publisher and tracking id whose label, in upper case, is among the publishable ones.
  predicate IsHit(row: Row, publisher: string, trackingId: string, publishable: seq<string>) {
    && row.advisory.publisher == publisher && row.advisory.trackingId == trackingId
    && row.latest == Some(true)
    && row.doc.tlp.Some? && Upper(row.doc.tlp.value) in publishable
  }

  // The query joins documents on the latest flag instead; it never finds two rows.
  method GetByPublisherTrackingId(store: Database, publisher: string, trackingId: string, publishable: seq<string>)
    returns (r: Lookup)
    requires Inv(store.Rows())
    ensures r == Resolve(store.Rows(), Key(trackingId, publisher), publishable)
    ensures r.NotFound? <==> forall id :: id in store.documents ==> !IsHit(store.documents[id], publisher, trackingId, publishable)
    ensures !r.NotFound? ==>
      var k := Key(trackingId, publisher); k in store.advisories && (r.Gone? <==> store.advisories[k].withdrawn)
    ensures r.Found? ==>
      exists id :: id in store.documents && IsHit(store.documents[id], publisher, trackingId, publishable) && store.documents[id].doc == r.doc
  {
    hide Inv;
    var k := Key(trackingId, publisher);
    var hits := set id | id in store.documents && store.documents[id].advisory == k
      && store.documents[id].latest == Some(true) && store.documents[id].doc.tlp.Some?
      && Upper(store.documents[id].doc.tlp.value) in publishable;
    assert forall id :: id in hits <==> id in store.documents && IsHit(store.documents[id], publisher, trackingId, publishable);
    if hits == {} {
      if k in store.advisories {
        HeadIsStored(store.Rows(), k);
        assert store.advisories[k].head.value !in hits;
      }
      return NotFound;
    }
    var id :| id in hits;
    LatestIsHead(store.Rows(), id);
    return if store.advisories[k].withdrawn then Gone else Found(store.documents[id].doc);
  }

  lemma LatestIsHead(t: Tables, id: nat)
    requires Inv(t) && IsLatest(t, id)
    ensures var k := t.documents[id].advisory; k in t.advisories && t.advisories[k].head == Some(id)
  {
    hide UniqueRevisions;
  }

  const MAX_SEGMENT_BYTES := 256

  predicate IsSegment(part: string) {
    0 < |part| <= MAX_SEGMENT_BYTES
  }

  // The HTTP status of a permalink request.
  function PermalinkStatus(t: Tables, publisher: string, trackingId: string, publishable: seq<string>): int {
    if !IsSegment(publisher) || !IsSegment(trackingId) then 400
    else
      match Resolve(t, Key(trackingId, publisher), publishable)
      case NotFound => 404
      case Gone => 410
      case Found(_) => 200
  }

  // ---------- Everything ingested passes the SQL gate ----------

  ghost predicate IsTlpSet(cfg: Gate.Config, publishable: seq<string>) {
    forall name :: name in publishable <==> Gate.InTlpSet(cfg, name)
  }

  // The SQL gate admits exactly the labels the Go gate admits and no blank surrounds.
  ghost predicate GatesAgree(cfg: Gate.Config, publishable: seq<string>) {
    forall name {:trigger Gate.IsPublishable(cfg, name)} ::
      Upper(name) in publishable <==> Gate.IsPublishable(cfg, name) && NoOuterBlanks(name)
  }

  // They agree for every configuration Load builds and the label set it expands to.
  lemma LoadedGatesAgree(cfg: Gate.Config, publishable: seq<string>)
    requires Gate.Loaded(cfg) && IsTlpSet(cfg, publishable)
    ensures GatesAgree(cfg, publishable)
  {
    hide Gate.Loaded, Gate.InTlpSet, Gate.IsPublishable;
    forall name ensures Upper(name) in publishable <==> Gate.IsPublishable(cfg, name) && NoOuterBlanks(name) {
      Gate.GateAgreement(cfg, name);
    }
  }

  // Every stored document has a publishable label and, if `trimmed`, no blanks around it.
  ghost predicate Gated(t: Tables, cfg: Gate.Config, trimmed: bool) {
    forall id :: id in t.documents ==> Passes(t.documents[id].doc, cfg, trimmed)
  }

  predicate Passes(doc: Document, cfg: Gate.Config, trimmed: bool) {
    doc.tlp.Some? && Gate.IsPublishable(cfg, doc.tlp.value) && (trimmed ==> NoOuterBlanks(doc.tlp.value))
  }

  // No document the provider delivers has blanks around its TLP label.
  ghost predicate Trimmed(setup: Setup, feeds: seq<Feed>) {
    forall i :: 0 <= i < |feeds| ==> FilesTrimmed(setup, feeds[i].listedAs, Enumerable(setup, feeds[i]))
  }

  ghost predicate FilesTrimmed(setup: Setup, tlp: string, files: seq<Download.File>) {
    forall j :: 0 <= j < |files| ==> FileTrimmed(setup, tlp, files[j])
  }

  predicate FileTrimmed(setup: Setup, tlp: string, file: Download.File) {
    KeyOf(setup, tlp, file).Some? ==>
      var doc := Download.Verified(setup.crypto, file).value.doc;
      doc.tlp.Some? && NoOuterBlanks(doc.tlp.value)
  }

  lemma AdmittedPasses(cfg: Gate.Config, tlp: string, doc: Document)
    requires Admitted(cfg, tlp, doc).Some?
    ensures Passes(doc, cfg, false)
  {
    hide AdvisoryKey, Gate.IsPublishable, NoOuterBlanks;
  }

  lemma StoredGated(t: Tables, k: Key, doc: Document, cfg: Gate.Config, trimmed: bool)
    requires Inv(t) && Gated(t, cfg, trimmed) && Passes(doc, cfg, trimmed)
    ensures Gated(Stored(t, k, doc), cfg, trimmed)
  {
    hide Linked, UniqueRevisions, SameRevision, Newer, Passes;
    if Conflicts(t, k, doc) {
      StoredDuplicate(t, k, doc);
    } else {
      StoredNewRevision(t, k, doc);
    }
    hide Stored;
  }

  lemma FileGated(setup: Setup, faults: Faults, p: Progress, tlp: string, file: Download.File, trimmed: bool)
    requires Balanced(p) && !p.failed && Gated(p.work.db.tables, setup.cfg, trimmed)
    requires trimmed ==> FileTrimmed(setup, tlp, file)
    ensures Gated(FileDone(setup, faults, p, tlp, file).work.db.tables, setup.cfg, trimmed)
  {
    hide Download.Accepts, Admitted, Insertable, Agrees, Extracted, Linked, UniqueRevisions, HeadsNewest, Stored, Gated, Conflicts;
    var key := KeyOf(setup, tlp, file);
    if key.Some? {
      var doc := Download.Verified(setup.crypto, file).value.doc;
      AdmittedPasses(setup.cfg, tlp, doc);
      StoredGated(p.work.db.tables, key.value, doc, setup.cfg, trimmed);
    }
    hide Passes;
  }

  lemma {:induction false} FilesGated(setup: Setup, faults: Faults, p: Progress, tlp: string, files: seq<Download.File>,
                                      trimmed: bool)
    requires Balanced(p) && !p.failed && Gated(p.work.db.tables, setup.cfg, trimmed)
    requires trimmed ==> FilesTrimmed(setup, tlp, files)
    ensures Gated(FilesDone(setup, faults, p, tlp, files).work.db.tables, setup.cfg, trimmed)
    decreases files
  {
    hide FileDone, FileTrimmed, Sound, Gated, Grows;
    if files != [] {
      FileGated(setup, faults, p, tlp, files[0], trimmed);
      FileEffect(setup, faults, p, tlp, files[0]);
      var mid := FileDone(setup, faults, p, tlp, files[0]);
      if !mid.failed {
        assert forall j :: 0 < j < |files| ==> files[1..][j - 1] == files[j];
        FilesGated(setup, faults, mid, tlp, files[1..], trimmed);
      }
    }
  }

  lemma {:induction false} FeedsGated(setup: Setup, faults: Faults, p: Progress, feeds: seq<Feed>, trimmed: bool)
    requires Balanced(p) && !p.failed && Gated(p.work.db.tables, setup.cfg, trimmed)
    requires trimmed ==> Trimmed(setup, feeds)
    ensures Gated(FeedsDone(setup, faults, p, feeds).work.db.tables, setup.cfg, trimmed)
    decreases feeds
  {
    hide FilesDone, FilesTrimmed, Sound, Gated, Gate.IsPublishable, Grows;
    if feeds != [] {
      var feed := feeds[0];
      if Delivered(feed) && Gate.IsPublishable(setup.cfg, feed.listedAs) {
        FilesGated(setup, faults, p, feed.listedAs, feed.files, trimmed);
        FilesEffect(setup, faults, p, feed.listedAs, feed.files);
      }
      var mid := FeedDone(setup, faults, p, feed);
      if !mid.failed {
        assert forall i :: 0 < i < |feeds| ==> feeds[1..][i - 1] == feeds[i];
        FeedsGated(setup, faults, mid, feeds[1..], trimmed);
      }
    }
  }

  lemma CycleGated(setup: Setup, db: Db, cycle: Cycle, trimmed: bool)
    requires Consistent(db) && Gated(db.tables, setup.cfg, trimmed)
    requires trimmed ==> Trimmed(setup, Feeds(cycle.provider.distributions))
    ensures Gated(CycleDone(setup, db, cycle).db.tables, setup.cfg, trimmed)
  {
    hide Consistent, Trimmed, FeedsDone, CycleDone, Active, Gated, Swept, Balanced;
    var start := Progress(Work(db, NO_COUNTS, {}), NO_SUMMARY, false);
    StartBalanced(db);
    FeedsGated(setup, cycle.faults, start, Feeds(cycle.provider.distributions), trimmed);
    var p := Enumerated(setup, db, cycle);
    SweptGated(p.work.db.tables, p.work.present, setup.cfg, trimmed);
    CycleShape(setup, db, cycle);
  }

  lemma SweptGated(t: Tables, present: set<Key>, cfg: Gate.Config, trimmed: bool)
    ensures Gated(Swept(t, present), cfg, trimmed) == Gated(t, cfg, trimmed)
  {
  }

  // Any cycles keep every stored label publishable; on trimmed labels they keep it trimmed.
  lemma {:induction false} RunGated(setup: Setup, db: Db, cycles: seq<Cycle>, trimmed: bool)
    requires Consistent(db) && Gated(db.tables, setup.cfg, trimmed)
    requires trimmed ==> forall i :: 0 <= i < |cycles| ==> Trimmed(setup, Feeds(cycles[i].provider.distributions))
    ensures Gated(CyclesDone(setup, db, cycles).tables, setup.cfg, trimmed)
    decreases cycles
  {
    hide Consistent, Trimmed, CycleDone, Gated;
    if cycles != [] {
      CycleGated(setup, db, cycles[0], trimmed);
      CycleEffect(setup, db, cycles[0]);
      RunGated(setup, CycleDone(setup, db, cycles[0]).db, cycles[1..], trimmed);
    }
  }

  // ---------- Stability ----------

  // The joined row of the list query.
  function Joined(db: Db, id: nat): F.Row
    requires id in db.tables.documents && db.tables.documents[id].advisory in db.tables.advisories
  {
    var row := db.tables.documents[id];
    F.Row(id, row.latest, db.tables.advisories[row.advisory].withdrawn,
        row.doc.tlp, row.doc.publisher, row.doc.category, row.doc.lang, row.doc.critical, row.doc.released,
        CvesOf(db.ix, id), set p | p in PairsOf(db.ix, id))
  }

  function HeadLabel(t: Tables, k: Key): string
    requires HeadExists(t, k)
  {
    HeadDoc(t, k).tlp.GetOr("")
  }

  // The lookup of k is unknown exactly when blanks surround the label of its head; otherwise it is found while
  // k is active and withdrawn while it is not. It is found exactly when the head row is in the unfiltered list.
  ghost predicate Resolved(db: Db, k: Key, publishable: seq<string>, fts: F.Fts) {
    && SoleHeadOf(db.tables, k)
    && var lookup := Resolve(db.tables, k, publishable);
    && (lookup == NotFound <==> !NoOuterBlanks(HeadLabel(db.tables, k)))
    && (lookup != NotFound ==> lookup == if k in Active(db.tables) then Found(HeadDoc(db.tables, k)) else Gone)
    && (lookup.Found? <==>
          F.Selected(F.Request(F.NO_FILTERS, publishable, fts), Joined(db, db.tables.advisories[k].head.value)))
  }

  // That is so for each key once stored, after any sequence of cycles.
  lemma PermalinkStability(setup: Setup, db: Db, cycles: seq<Cycle>, publishable: seq<string>, k: Key, fts: F.Fts)
    requires GatesAgree(setup.cfg, publishable)
    requires Consistent(db) && Gated(db.tables, setup.cfg, false) && k in db.tables.advisories
    ensures Resolved(CyclesDone(setup, db, cycles), k, publishable, fts)
  {
    hide Consistent, GatesAgree, CyclesDone, Resolved, Gated, Active;
    RunGated(setup, db, cycles, false);
    SafetyOverRuns(setup, db, cycles);
    StoredKeyResolves(setup.cfg, CyclesDone(setup, db, cycles), k, publishable, fts);
  }

  lemma StoredKeyResolves(cfg: Gate.Config, db: Db, k: Key, publishable: seq<string>, fts: F.Fts)
    requires GatesAgree(cfg, publishable)
    requires Consistent(db) && Gated(db.tables, cfg, false) && k in db.tables.advisories
    ensures Resolved(db, k, publishable, fts)
  {
    hide Agrees, HeadsNewest, CvesOf, PairsOf, UniqueRevisions, F.Selected, Gate.IsPublishable, NoOuterBlanks;
    HeadIsStored(db.tables, k);
    hide Linked;
    F.NoFiltersSelect(F.Request(F.NO_FILTERS, publishable, fts), Joined(db, db.tables.advisories[k].head.value));
  }

  // So where no label has outer blanks a stored key is never unknown again.
  lemma TrimmedIsNeverUnknown(setup: Setup, db: Db, cycles: seq<Cycle>, publishable: seq<string>, k: Key)
    requires GatesAgree(setup.cfg, publishable)
    requires Consistent(db) && Gated(db.tables, setup.cfg, true) && k in db.tables.advisories
    requires forall i :: 0 <= i < |cycles| ==> Trimmed(setup, Feeds(cycles[i].provider.distributions))
    ensures Resolve(CyclesDone(setup, db, cycles).tables, k, publishable) != NotFound
  {
    hide Consistent, GatesAgree, CyclesDone, Trimmed, Active, Gate.IsPublishable, Resolve;
    PermalinkStability(setup, db, cycles, publishable, k, (_, _) => true);
    RunGated(setup, db, cycles, true);
  }

  ghost predicate SoleHeadOf(t: Tables, k: Key) {
    HeadExists(t, k) && t.documents[t.advisories[k].head.value].advisory == k
  }

  // The HTTP status of any permalink after any sequence of cycles: 400 exactly when a part is empty or longer than
  // 256 bytes, which ingestion does not check; otherwise 404 exactly when the key is not stored or blanks
  // surround the label of its head; and else 200 while it is active and 410 while it is withdrawn.
  lemma StatusOverRuns(setup: Setup, db: Db, cycles: seq<Cycle>, publishable: seq<string>, k: Key)
    requires GatesAgree(setup.cfg, publishable)
    requires Consistent(db) && Gated(db.tables, setup.cfg, false)
    ensures var end := CyclesDone(setup, db, cycles);
      && (k in end.tables.advisories ==> HeadExists(end.tables, k))
      && PermalinkStatus(end.tables, k.publisher, k.trackingId, publishable) ==
        if |k.publisher| == 0 || |k.publisher| > 256 || |k.trackingId| == 0 || |k.trackingId| > 256 then 400
        else if k !in end.tables.advisories || !NoOuterBlanks(HeadLabel(end.tables, k)) then 404
        else if k in Active(end.tables) then 200
        else 410
  {
    hide Consistent, GatesAgree, CyclesDone, Gated, Active, NoOuterBlanks;
    RunGated(setup, db, cycles, false);
    SafetyOverRuns(setup, db, cycles);
    var end := CyclesDone(setup, db, cycles);
    if k in end.tables.advisories {
      StatusOfStoredKey(setup.cfg, end, publishable, k);
    } else {
      assert Key(k.trackingId, k.publisher) == k;
    }
  }

  // From an empty database: a key no store call of the run named answers 404, if its parts fit; one that answers
  // 200 or 410 was named.
  lemma UnknownKeyIs404(setup: Setup, cycles: seq<Cycle>, publishable: seq<string>, k: Key)
    requires 0 < |k.publisher| <= 256 && 0 < |k.trackingId| <= 256
    ensures var t, journal := CyclesDone(setup, NEW, cycles).tables, Journal.Stores(setup, NEW, cycles);
      var status := PermalinkStatus(t, k.publisher, k.trackingId, publishable);
      && ((forall x :: x in journal ==> x.key != k) ==> status == 404)
      && (status == 200 || status == 410 ==> exists x :: x in journal && x.key == k)
  {
    hide CyclesDone, Journal.Stores;
    Provenance.RunHoldsEveryRevision(setup, cycles);
    assert Key(k.trackingId, k.publisher) == k;
  }

  lemma StatusOfStoredKey(cfg: Gate.Config, db: Db, publishable: seq<string>, k: Key)
    requires GatesAgree(cfg, publishable)
    requires Consistent(db) && Gated(db.tables, cfg, false) && k in db.tables.advisories
    ensures HeadExists(db.tables, k)
    ensures PermalinkStatus(db.tables, k.publisher, k.trackingId, publishable) ==
      if !IsSegment(k.publisher) || !IsSegment(k.trackingId) then 400
      else if !NoOuterBlanks(HeadLabel(db.tables, k)) then 404
      else if k in Active(db.tables) then 200
      else 410
  {
    hide Consistent, GatesAgree, Gated, Active, Resolve, IsSegment, NoOuterBlanks;
    StoredKeyResolves(cfg, db, k, publishable, (_, _) => true);
    assert k == Key(k.trackingId, k.publisher);
  }
}
