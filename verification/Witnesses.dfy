/** Inputs on which a sweep is refused for good, a failed cycle withdraws, and a published advisory is withdrawn. */
module Witnesses {
  import opened Text
  import opened Csaf
  import opened Config
  import Gate = Config
  import opened Tables
  import opened Store
  import opened Download
  import opened Ingest
  import opened Cycles
  import opened Agreement
  import opened Replay
  import opened Permalink

  // ---------- A provider that lists one file ----------

  function Healthy(tlp: string, file: File): Feed {
    Feed(true, Some(tlp), tlp, [file], true, true)
  }

  // Fails at the enumeration and recovers for the probe.
  function Recovered(tlp: string, file: File): Feed {
    Feed(true, Some(tlp), tlp, [file], false, true)
  }

  function Answer(feeds: seq<Feed>): Provider {
    Provider(true, [Some(feeds)])
  }

  // The file is accepted and stored under a.
  ghost predicate Delivers(setup: Setup, tlp: string, file: File, a: Key) {
    && ValidForIngest(setup.cfg) && IsPublishable(setup.cfg, tlp)
    && KeyOf(setup, tlp, file) == Some(a)
    && Insertable(Verified(setup.crypto, file).value.doc)
  }

  // The enumeration of a provider that lists a, and perhaps one feed that does not load.
  lemma OneArrives(setup: Setup, db: Db, tlp: string, listed: File, a: Key, rest: seq<Feed>, cycle: Cycle)
    requires Consistent(db) && Delivers(setup, tlp, listed, a)
    requires |rest| <= 1 && forall i :: 0 <= i < |rest| ==> !Delivered(rest[i])
    requires cycle.provider == Answer([Healthy(tlp, listed)] + rest)
    requires cycle.faults.storeCall.None? && cycle.faults.cancelled.None?
    ensures Feeds(cycle.provider.distributions) == [Healthy(tlp, listed)] + rest
    ensures var p := Enumerated(setup, db, cycle);
      && !p.failed && p.work.present == {a} && Active(p.work.db.tables) == Active(db.tables) + {a}
      && p.work.db == StoredDb(db, a, Verified(setup.crypto, listed).value.doc)
  {
    hide Consistent, Verified, Admitted, IsPublishable, Active, Conflicts, StoredDb, Insertable, ValidForIngest;
    var feeds, faults := [Healthy(tlp, listed)] + rest, cycle.faults;
    var start := Progress(Work(db, NO_COUNTS, {}), NO_SUMMARY, false);
    assert Feeds([Some(feeds)]) == feeds;
    var p := FileDone(setup, faults, start, tlp, listed);
    assert [listed][1..] == [] && FilesDone(setup, faults, start, tlp, [listed]) == p;
    assert FeedDone(setup, faults, start, feeds[0]) == p;
    assert feeds[1..] == rest;
    assert FeedsDone(setup, faults, p, rest) == p by {
      if rest != [] {
        assert rest[1..] == [];
      }
    }
    StoredDbEffect(db, a, Verified(setup.crypto, listed).value.doc);
  }

  lemma HealthyIsRelevant(setup: Setup, tlp: string, listed: File, rest: seq<Feed>)
    requires IsPublishable(setup.cfg, tlp) && forall i :: 0 <= i < |rest| ==> rest[i].probes
    ensures EnumeratedAll(setup.cfg, [Healthy(tlp, listed)] + rest)
  {
    hide IsPublishable;
    assert Relevant(setup.cfg, ([Healthy(tlp, listed)] + rest)[0]);
  }

  // A portal of ten or more whose provider retires all but one: the sweep is refused, and as long as the
  // provider answers the same nobody is ever withdrawn.
  lemma RetirementIsRefused(setup: Setup, db: Db, tlp: string, listed: File, a: Key, now: int, later: seq<Cycle>)
    requires Consistent(db) && |Active(db.tables)| >= 10
    requires Delivers(setup, tlp, listed, a) && Keyed(setup, tlp, listed)
    requires forall i :: 0 <= i < |later| ==> later[i].provider == Answer([Healthy(tlp, listed)])
    ensures var first := Cycle(Answer([Healthy(tlp, listed)]), NO_FAULTS, now);
      && !CycleDone(setup, db, first).failed
      && Active(db.tables) <= Active(CyclesDone(setup, db, [first] + later).tables)
  {
    hide Consistent, Keyed, IsPublishable, Active, CycleDone, CyclesDone, Enumerated, Poisons;
    var feeds := [Healthy(tlp, listed)];
    var first := Cycle(Answer(feeds), NO_FAULTS, now);
    assert feeds + [] == feeds;
    OneArrives(setup, db, tlp, listed, a, [], first);
    OneFileIsKeyed(setup, tlp, listed);
    NotPoisoned(setup, tlp, listed, a);
    FaultFreeCycleSucceedsIff(setup, db, first.provider, now);
    SubsetSize(Active(db.tables), Active(db.tables) + {a});
    RefusedSweepStaysRefused(setup, db, first, later);
  }

  lemma OneFileIsKeyed(setup: Setup, tlp: string, listed: File)
    requires Keyed(setup, tlp, listed)
    ensures FeedsKeyed(setup, [Healthy(tlp, listed)])
  {
    hide Keyed, IsPublishable;
  }

  lemma NotPoisoned(setup: Setup, tlp: string, listed: File, a: Key)
    requires Delivers(setup, tlp, listed, a)
    ensures !Poisoned(setup, [Healthy(tlp, listed)])
  {
    hide IsPublishable, Insertable, Verified, Admitted;
  }

  // A small portal whose provider retires b, with a watermark that cannot be recorded: the cycle fails and
  // b is withdrawn.
  lemma FailedCycleWithdraws(setup: Setup, db: Db, tlp: string, listed: File, a: Key, b: Key, now: int)
    requires Consistent(db) && b in Active(db.tables) && |Active(db.tables)| < 9
    requires Delivers(setup, tlp, listed, a) && a != b
    ensures var r := CycleDone(setup, db, Cycle(Answer([Healthy(tlp, listed)]), NO_FAULTS.(watermark := true), now));
      r.failed && b !in Active(r.db.tables)
  {
    hide Consistent, IsPublishable, Active, CycleDone, Enumerated, EnumeratedAll;
    var feeds := [Healthy(tlp, listed)];
    var cycle := Cycle(Answer(feeds), NO_FAULTS.(watermark := true), now);
    assert feeds + [] == feeds;
    OneArrives(setup, db, tlp, listed, a, [], cycle);
    HealthyIsRelevant(setup, tlp, listed, []);
    OneMore(Active(db.tables), a);
    SweepsIff(setup, db, cycle);
    SweepIsBounded(setup, db, cycle);
    CycleShape(setup, db, cycle);
  }

  lemma OneMore<T>(s: set<T>, x: T)
    ensures |s + {x}| <= |s| + 1
  {
  }

  // Why the answers must be stable: a feed that fails at the enumeration and recovers for the probe has its
  // active advisory withdrawn while the provider still publishes it.
  lemma RecoveredFeedIsWithdrawn(setup: Setup, db: Db, tlp: string, listed: File, missed: File, a: Key, b: Key, now: int)
    requires Consistent(db) && b in Active(db.tables) && |Active(db.tables)| < 9
    requires Delivers(setup, tlp, listed, a) && a != b
    requires KeyOf(setup, tlp, missed) == Some(b)
    ensures var feeds := [Healthy(tlp, listed), Recovered(tlp, missed)];
      var r := CycleDone(setup, db, Cycle(Answer(feeds), NO_FAULTS, now));
      !r.failed && Published(setup, feeds, b) && b !in Active(r.db.tables)
  {
    hide Consistent, IsPublishable, Active, CycleDone, Enumerated, EnumeratedAll, Verified, Admitted;
    var feeds := [Healthy(tlp, listed), Recovered(tlp, missed)];
    var cycle := Cycle(Answer(feeds), NO_FAULTS, now);
    assert [Healthy(tlp, listed)] + [Recovered(tlp, missed)] == feeds;
    OneArrives(setup, db, tlp, listed, a, [Recovered(tlp, missed)], cycle);
    HealthyIsRelevant(setup, tlp, listed, [Recovered(tlp, missed)]);
    OneMore(Active(db.tables), a);
    SweepsIff(setup, db, cycle);
    SweepIsBounded(setup, db, cycle);
    CycleShape(setup, db, cycle);
    AcceptedDecodes(setup.crypto, missed);
    assert Publishes(setup, feeds[1], feeds[1].files[0], b);
  }

  // ---------- Such inputs exist ----------

  // Any hash and any signature will do.
  const SETUP := Setup(Config("https://acme.example", [WHITE]), Crypto(_ => [], _ => [], (_, _) => true))

  function IdOf(n: nat): string {
    seq(n, _ => 'x')
  }

  function KeyAt(n: nat): Key {
    Key(IdOf(n), "ACME")
  }

  function DocumentAt(n: nat, tlp: string): Document {
    Document(Some(IdOf(n)), Some("ACME"), Some(tlp), Some("1"), Some(1), Some(Final), Some(0), None, None, None,
             "", [], [], [], true)
  }

  function FileLabelled(n: nat, tlp: string): File {
    File(Loaded([]), Absent, Loaded([]), Response(true, true, [], false), Decoding(0, Some(DocumentAt(n, tlp))))
  }

  function FileAt(n: nat): File {
    FileLabelled(n, WHITE)
  }

  // A portal of n advisories.
  function Portal(n: nat): Db {
    if n == 0 then NEW else StoredDb(Portal(n - 1), KeyAt(n), DocumentAt(n, WHITE))
  }

  lemma {:induction false} PortalHasN(n: nat)
    ensures Consistent(Portal(n)) && |Active(Portal(n).tables)| == n
    ensures forall k :: k in Active(Portal(n).tables) <==> exists i :: 1 <= i <= n && k == KeyAt(i)
  {
    hide Consistent, StoredDb, Active, KeyAt;
    if n == 0 {
      NewIsConsistent();
      NewIsEmpty();
    } else {
      PortalHasN(n - 1);
      StoredDbEffect(Portal(n - 1), KeyAt(n), DocumentAt(n, WHITE));
      forall i | 1 <= i < n ensures KeyAt(i) != KeyAt(n) {
        KeysDiffer(i, n);
      }
    }
  }

  lemma NewIsEmpty()
    ensures Active(NEW.tables) == {}
  {
  }

  lemma KeysDiffer(i: nat, n: nat)
    requires i != n
    ensures KeyAt(i) != KeyAt(n)
  {
    assert |IdOf(i)| != |IdOf(n)|;
  }

  lemma FileAtDelivers(n: nat)
    requires n > 0
    ensures Delivers(SETUP, WHITE, FileAt(n), KeyAt(n)) && Keyed(SETUP, WHITE, FileAt(n))
  {
    hide TrimSpace, Upper;
    CanonicalFixpoint(WHITE);
    FileLabelledDelivers(n, WHITE);
  }

  lemma FileLabelledDelivers(n: nat, tlp: string)
    requires n > 0 && IsPublishable(SETUP.cfg, tlp)
    ensures Delivers(SETUP, WHITE, FileLabelled(n, tlp), KeyAt(n)) && Keyed(SETUP, WHITE, FileLabelled(n, tlp))
    ensures Verified(SETUP.crypto, FileLabelled(n, tlp)).value.doc == DocumentAt(n, tlp)
  {
    hide TrimSpace, Upper;
    CanonicalFixpoint(WHITE);
    assert NoOuterBlanks("ACME") by {
      assert "ACME"[0] == 'A' && "ACME"[3] == 'E';
    }
    TrimSpaceFixpoint(IdOf(n));
    TrimSpaceFixpoint("ACME");
    assert Accepts(SETUP.crypto, FileLabelled(n, tlp));
  }

  // Ten advisories, of which the provider lists one from some day on: all ten stay active.
  lemma {:induction false} TenStayForever(later: seq<Cycle>)
    requires forall i :: 0 <= i < |later| ==> later[i].provider == Answer([Healthy(WHITE, FileAt(1))])
    ensures var first := Cycle(Answer([Healthy(WHITE, FileAt(1))]), NO_FAULTS, 0);
      forall n :: 1 <= n <= 10 ==> KeyAt(n) in Active(CyclesDone(SETUP, Portal(10), [first] + later).tables)
  {
    hide Consistent, Active, CyclesDone, Portal, Delivers, Keyed, KeyAt, FileAt;
    PortalHasN(10);
    FileAtDelivers(1);
    RetirementIsRefused(SETUP, Portal(10), WHITE, FileAt(1), KeyAt(1), 0, later);
  }

  // Two advisories, of which the provider lists the first; only the watermark fails.
  lemma SecondOfTwoIsWithdrawn()
    ensures KeyAt(2) in Active(Portal(2).tables)
    ensures var r := CycleDone(SETUP, Portal(2), Cycle(Answer([Healthy(WHITE, FileAt(1))]), NO_FAULTS.(watermark := true), 0));
      r.failed && KeyAt(2) !in Active(r.db.tables)
    ensures var feeds := [Healthy(WHITE, FileAt(1)), Recovered(WHITE, FileAt(2))];
      var r := CycleDone(SETUP, Portal(2), Cycle(Answer(feeds), NO_FAULTS, 0));
      !r.failed && Published(SETUP, feeds, KeyAt(2)) && KeyAt(2) !in Active(r.db.tables)
  {
    hide Consistent, Active, CycleDone, Portal, KeyAt, FileAt, Published;
    PortalHasN(2);
    KeysDiffer(1, 2);
    FileAtDelivers(1);
    FileAtDelivers(2);
    FailedCycleWithdraws(SETUP, Portal(2), WHITE, FileAt(1), KeyAt(1), KeyAt(2), 0);
    RecoveredFeedIsWithdrawn(SETUP, Portal(2), WHITE, FileAt(1), FileAt(2), KeyAt(1), KeyAt(2), 0);
  }

  // The cycle that lists one file with a blank before its label, over an empty database.
  const BLANK_CYCLE := Cycle(Answer([Healthy(WHITE, FileLabelled(1, " WHITE"))]), NO_FAULTS, 0)

  // The document passes the Go gate, is stored and active, and its permalink answers 404.
  lemma BlankLabelIsUnknown(publishable: seq<string>)
    requires IsTlpSet(SETUP.cfg, publishable)
    ensures var r := CycleDone(SETUP, NEW, BLANK_CYCLE);
      && !r.failed && KeyAt(1) in Active(r.db.tables)
      && PermalinkStatus(r.db.tables, KeyAt(1).publisher, KeyAt(1).trackingId, publishable) == 404
  {
    hide Consistent, Active, CycleDone, PermalinkStatus, IsTlpSet, GatesAgree, Gated, FileLabelled;
    BlankIsStored();
    OneKnownLabel();
    NewIsConsistent();
    CycleEffect(SETUP, NEW, BLANK_CYCLE);
    NothingIsGated(SETUP.cfg);
    CycleGated(SETUP, NEW, BLANK_CYCLE, false);
    LoadedGatesAgree(SETUP.cfg, publishable);
    StatusOfStoredKey(SETUP.cfg, CycleDone(SETUP, NEW, BLANK_CYCLE).db, publishable, KeyAt(1));
  }

  lemma BlankIsStored()
    ensures var r := CycleDone(SETUP, NEW, BLANK_CYCLE);
      && !r.failed && KeyAt(1) in Active(r.db.tables)
      && HeadExists(r.db.tables, KeyAt(1)) && HeadLabel(r.db.tables, KeyAt(1)) == " WHITE"
  {
    hide Consistent, Active, CycleDone, Enumerated, StoredDb, FileLabelled, IsPublishable, Delivers, Keyed, Poisoned, KeyAt;
    var feeds := [Healthy(WHITE, FileLabelled(1, " WHITE"))];
    assert feeds + [] == feeds;
    OneKnownLabel();
    GatesDisagreeOnBlanks(SETUP.cfg);
    FileLabelledDelivers(1, " WHITE");
    NewIsConsistent();
    OneArrives(SETUP, NEW, WHITE, FileLabelled(1, " WHITE"), KeyAt(1), [], BLANK_CYCLE);
    NotPoisoned(SETUP, WHITE, FileLabelled(1, " WHITE"), KeyAt(1));
    FaultFreeCycleSucceedsIff(SETUP, NEW, BLANK_CYCLE.provider, 0);
    FirstHead(KeyAt(1), DocumentAt(1, " WHITE"));
    HeadAfterCycle(SETUP, NEW, BLANK_CYCLE, KeyAt(1));
    CycleShape(SETUP, NEW, BLANK_CYCLE);
    if CycleDone(SETUP, NEW, BLANK_CYCLE).swept {
      SweepIsBounded(SETUP, NEW, BLANK_CYCLE);
    }
  }

  lemma OneKnownLabel()
    ensures Gate.Loaded(SETUP.cfg) && WHITE in SETUP.cfg.publishable && ValidForIngest(SETUP.cfg)
  {
  }

  lemma NothingIsGated(cfg: Config)
    ensures Gated(NEW.tables, cfg, false)
  {
  }

  lemma FirstHead(k: Key, doc: Document)
    ensures var t := StoredDb(NEW, k, doc).tables; HeadExists(t, k) && HeadDoc(t, k) == doc
  {
    EmptyInv();
    StoredNewRevision(NO_ROWS, k, doc);
    hide Stored;
  }

  lemma EmptyInv()
    ensures Inv(NO_ROWS)
  {
  }

  // A sweep leaves heads alone.
  lemma HeadAfterCycle(setup: Setup, db: Db, cycle: Cycle, k: Key)
    requires !CycleDone(setup, db, cycle).failed && HeadExists(Enumerated(setup, db, cycle).work.db.tables, k)
    ensures var t := CycleDone(setup, db, cycle).db.tables;
      HeadExists(t, k) && HeadDoc(t, k) == HeadDoc(Enumerated(setup, db, cycle).work.db.tables, k)
  {
    hide CycleDone, Enumerated;
    CycleShape(setup, db, cycle);
  }
}
