/** One ingestion cycle: enumeration, the persistence handler, the feed probe, the sweep guards and RunOnce. */
module Ingest {
  import opened Text
  import opened Csaf
  import opened Config
  import opened Tables
  import opened Store
  import opened Download

  // ---------- What the outside world answers ----------

  // A ROLIE feed of the provider metadata. `loads` is whether the file processor could load it, which then
  // lists `files` under the label `listedAs`; a failure there is swallowed. `probes` is whether the later
  // health probe could load it.
  datatype Feed = Feed(hasUrl: bool, tlp: Option<string>, listedAs: string, files: seq<File>, loads: bool, probes: bool)

  // `ready`: metadata and keys load. A distribution without ROLIE is None.
  datatype Provider = Provider(ready: bool, distributions: seq<Option<seq<Feed>>>)

  // What goes wrong around the provider's answers: a store call (by its number), cancellation (seen before
  // that file), the file processor itself, and the three later statements.
  datatype Faults = Faults(
    storeCall: Option<nat>, cancelled: Option<nat>, process: bool,
    count: bool, sweep: bool, watermark: bool)

  const NO_FAULTS := Faults(None, None, false, false, false, false)

  datatype Cycle = Cycle(provider: Provider, faults: Faults, now: int)

  datatype Setup = Setup(cfg: Config, crypto: Crypto)

  // ---------- Specification ----------

  datatype Counts = Counts(stored: nat, duplicate: nat, skippedTlp: nat)

  datatype Summary = Summary(verified: nat, skipped: nat, skippedFeed: nat)

  datatype Health = Health(expected: nat, loaded: nat, enumeratedAll: bool)

  // What the handler changes.
  datatype Work = Work(db: Db, counts: Counts, present: set<Key>)

  datatype Progress = Progress(work: Work, sum: Summary, failed: bool)

  const NO_COUNTS := Counts(0, 0, 0)
  const NO_SUMMARY := Summary(0, 0, 0)

  // The key under which a verified advisory is stored, if it passes the gate and has one.
  function Admitted(cfg: Config, tlp: string, doc: Document): Option<Key> {
    if !IsPublishable(cfg, tlp) || doc.tlp.None? || !IsPublishable(cfg, doc.tlp.value) then None
    else AdvisoryKey(doc)
  }

  function Commits(faults: Faults, counts: Counts): bool {
    faults.storeCall != Some(counts.stored + counts.duplicate)
  }

  // Persister.Handle: the new state, and whether it returned an error.
  function Handled(cfg: Config, faults: Faults, w: Work, tlp: string, doc: Document): (Work, bool) {
    match Admitted(cfg, tlp, doc)
    case None => (w.(counts := w.counts.(skippedTlp := w.counts.skippedTlp + 1)), false)
    case Some(k) =>
      match StoreOutcome(w.db, k, doc, Commits(faults, w.counts))
      case Failed => (w, true)
      case Inserted =>
        (Work(StoredDb(w.db, k, doc), w.counts.(stored := w.counts.stored + 1), w.present + {k}), false)
      case Duplicate =>
        (Work(StoredDb(w.db, k, doc), w.counts.(duplicate := w.counts.duplicate + 1), w.present + {k}), false)
  }

  predicate Cancelled(faults: Faults, sum: Summary) {
    faults.cancelled.Some? && sum.verified + sum.skipped >= faults.cancelled.value
  }

  // One turn of the loop over files in Downloader.Run.
  function FileDone(setup: Setup, faults: Faults, p: Progress, tlp: string, file: File): Progress {
    if Cancelled(faults, p.sum) then p.(failed := true)
    else
      match Verified(setup.crypto, file)
      case None => p.(sum := p.sum.(skipped := p.sum.skipped + 1))
      case Some(advisory) =>
        var (w, failed) := Handled(setup.cfg, faults, p.work, tlp, advisory.doc);
        if failed then Progress(w, p.sum, true)
        else Progress(w, p.sum.(verified := p.sum.verified + 1), false)
  }

  function FilesDone(setup: Setup, faults: Faults, p: Progress, tlp: string, files: seq<File>): Progress
    decreases files
  {
    if p.failed || files == [] then p
    else FilesDone(setup, faults, FileDone(setup, faults, p, tlp, files[0]), tlp, files[1..])
  }

  predicate Delivered(feed: Feed) {
    feed.hasUrl && feed.loads
  }

  function FeedDone(setup: Setup, faults: Faults, p: Progress, feed: Feed): Progress {
    if !Delivered(feed) then p
    else if !IsPublishable(setup.cfg, feed.listedAs) then p.(sum := p.sum.(skippedFeed := p.sum.skippedFeed + |feed.files|))
    else FilesDone(setup, faults, p, feed.listedAs, feed.files)
  }

  function FeedsDone(setup: Setup, faults: Faults, p: Progress, feeds: seq<Feed>): Progress
    decreases feeds
  {
    if p.failed || feeds == [] then p
    else FeedsDone(setup, faults, FeedDone(setup, faults, p, feeds[0]), feeds[1..])
  }

  function Feeds(distributions: seq<Option<seq<Feed>>>): seq<Feed>
    decreases distributions
  {
    if distributions == [] then [] else distributions[0].GetOr([]) + Feeds(distributions[1..])
  }

  // A feed whose health the sweep depends on.
  predicate Relevant(cfg: Config, feed: Feed) {
    feed.hasUrl && IsPublishable(cfg, feed.tlp.GetOr(""))
  }

  predicate EnumeratedAll(cfg: Config, feeds: seq<Feed>) {
    && (exists i :: 0 <= i < |feeds| && Relevant(cfg, feeds[i]))
    && (forall i :: 0 <= i < |feeds| && Relevant(cfg, feeds[i]) ==> feeds[i].probes)
  }

  const MAX_WITHDRAW_FRACTION: real := 0.5
  const MIN_CORPUS_FOR_GUARD := 10

  // Layer 2b: active minus present, clamped at zero, is too large a part of the corpus.
  predicate Implausible(active: int, present: int) {
    var wouldWithdraw := if active - present < 0 then 0 else active - present;
    active >= MIN_CORPUS_FOR_GUARD && wouldWithdraw as real > MAX_WITHDRAW_FRACTION * (active as real)
  }

  datatype SweepDecision = Skip | Error | Sweep

  function Decide(cfg: Config, faults: Faults, feeds: seq<Feed>, active: int, present: int): SweepDecision {
    if !EnumeratedAll(cfg, feeds) || present == 0 then Skip
    else if faults.count then Error
    else if Implausible(active, present) then Skip
    else if faults.sweep then Error
    else Sweep
  }

  predicate ValidForIngest(cfg: Config) {
    cfg.providerUrl != "" && cfg.publishable != []
  }

  // The outcome of RunOnce.
  datatype Report = Report(db: Db, progress: Progress, failed: bool, swept: bool)

  function Enumerated(setup: Setup, db: Db, cycle: Cycle): Progress {
    FeedsDone(setup, cycle.faults, Progress(Work(db, NO_COUNTS, {}), NO_SUMMARY, false), Feeds(cycle.provider.distributions))
  }

  function CycleDone(setup: Setup, db: Db, cycle: Cycle): Report {
    var start := Progress(Work(db, NO_COUNTS, {}), NO_SUMMARY, false);
    if !ValidForIngest(setup.cfg) || !cycle.provider.ready then Report(db, start, true, false)
    else
      var p := Enumerated(setup, db, cycle);
      var stored := p.work.db;
      if p.failed || cycle.faults.process then Report(stored, p, true, false)
      else
        var feeds := Feeds(cycle.provider.distributions);
        match Decide(setup.cfg, cycle.faults, feeds, |Active(stored.tables)|, |p.work.present|)
        case Error => Report(stored, p, true, false)
        case Skip => Finished(p, stored, cycle, false)
        case Sweep => Finished(p, stored.(tables := Swept(stored.tables, p.work.present)), cycle, true)
  }

  // The watermark comes last.
  function Finished(p: Progress, db: Db, cycle: Cycle, swept: bool): Report {
    if cycle.faults.watermark then Report(db, p, true, swept)
    else Report(db.(watermark := Some(cycle.now)), p, false, swept)
  }

  // ---------- The code ----------

  class Persister {
    const cfg: Config
    const store: Database
    const faults: Faults
    var counts: Counts
    var present: set<Key>

    ghost function Current(): Work
      reads this, store, store.facets
    {
      Work(store.State(), counts, present)
    }

    constructor (cfg: Config, store: Database, faults: Faults)
      ensures this.cfg == cfg && this.store == store && this.faults == faults
      ensures counts == NO_COUNTS && present == {}
    {
      this.cfg, this.store, this.faults := cfg, store, faults;
      counts, present := NO_COUNTS, {};
    }

    method Handle(tlp: string, doc: Document) returns (failed: bool)
      requires Inv(store.Rows())
      modifies this, store, store.facets
      ensures Inv(store.Rows())
      ensures (Current(), failed) == Handled(cfg, faults, old(Current()), tlp, doc)
    {
      hide Inv, StoredDb, AdvisoryKey, IsPublishable, Conflicts;
      if !IsPublishable(cfg, tlp) {
        counts := counts.(skippedTlp := counts.skippedTlp + 1);
        return false;
      }
      if doc.tlp.None? || !IsPublishable(cfg, doc.tlp.value) {
        counts := counts.(skippedTlp := counts.skippedTlp + 1);
        return false;
      }
      var key := AdvisoryKey(doc);
      if key.None? {
        counts := counts.(skippedTlp := counts.skippedTlp + 1);
        return false;
      }
      var outcome := store.StoreDocument(key.value, doc, Commits(faults, counts));
      if outcome == Failed {
        return true;
      }
      if outcome == Inserted {
        counts := counts.(stored := counts.stored + 1);
      } else {
        counts := counts.(duplicate := counts.duplicate + 1);
      }
      present := present + {key.value};
      return false;
    }

    // The map's keys in some order.
    method Present() returns (keys: seq<Key>)
      ensures (set k | k in keys) == present && |keys| == |present|
    {
      keys := [];
      var rest := present;
      while rest != {}
        invariant forall k :: k in keys <==> k in present && k !in rest
        invariant |keys| + |rest| == |present|
        decreases rest
      {
        var k :| k in rest;
        rest := rest - {k};
        keys := keys + [k];
      }
    }
  }

  method ProcessFile(setup: Setup, persister: Persister, tlp: string, file: File) returns (ok: bool, failed: bool)
    requires Inv(persister.store.Rows()) && persister.cfg == setup.cfg
    modifies persister, persister.store, persister.store.facets
    ensures Inv(persister.store.Rows())
    ensures match Verified(setup.crypto, file)
      case None => !ok && !failed && persister.Current() == old(persister.Current())
      case Some(advisory) =>
        ok == !failed &&
        (persister.Current(), failed) == Handled(setup.cfg, persister.faults, old(persister.Current()), tlp, advisory.doc)
  {
    var advisory := VerifyFile(setup.crypto, file);
    if advisory.None? {
      return false, false;
    }
    failed := persister.Handle(tlp, advisory.value.doc);
    ok := !failed;
  }

  // The callback the file processor runs for one feed.
  method ProcessFeed(setup: Setup, persister: Persister, sum0: Summary, tlp: string, files: seq<File>)
    returns (sum: Summary, failed: bool)
    requires Inv(persister.store.Rows()) && persister.cfg == setup.cfg
    modifies persister, persister.store, persister.store.facets
    ensures Inv(persister.store.Rows())
    ensures Progress(persister.Current(), sum, failed) ==
      if !IsPublishable(setup.cfg, tlp)
      then Progress(old(persister.Current()), sum0.(skippedFeed := sum0.skippedFeed + |files|), false)
      else FilesDone(setup, persister.faults, Progress(old(persister.Current()), sum0, false), tlp, files)
  {
    hide Inv, IsPublishable, Handled, Verified;
    sum, failed := sum0, false;
    if !IsPublishable(setup.cfg, tlp) {
      return sum.(skippedFeed := sum.skippedFeed + |files|), false;
    }
    ghost var goal := FilesDone(setup, persister.faults, Progress(persister.Current(), sum, false), tlp, files);
    for i := 0 to |files|
      invariant Inv(persister.store.Rows())
      invariant FilesDone(setup, persister.faults, Progress(persister.Current(), sum, false), tlp, files[i..]) == goal
    {
      assert files[i..][0] == files[i] && files[i..][1..] == files[i + 1..];
      if Cancelled(persister.faults, sum) {
        return sum, true;
      }
      var ok, bad := ProcessFile(setup, persister, tlp, files[i]);
      if bad {
        return sum, true;
      }
      if ok {
        sum := sum.(verified := sum.verified + 1);
      } else {
        sum := sum.(skipped := sum.skipped + 1);
      }
    }
  }

  // Downloader.Run over the feeds the file processor delivers.
  method Run(setup: Setup, persister: Persister, feeds: seq<Feed>) returns (sum: Summary, failed: bool)
    requires Inv(persister.store.Rows()) && persister.cfg == setup.cfg
    modifies persister, persister.store, persister.store.facets
    ensures Inv(persister.store.Rows())
    ensures Progress(persister.Current(), sum, failed) ==
      var p := FeedsDone(setup, persister.faults, Progress(old(persister.Current()), NO_SUMMARY, false), feeds);
      p.(failed := p.failed || persister.faults.process)
  {
    hide Inv, IsPublishable, FilesDone;
    sum, failed := NO_SUMMARY, false;
    ghost var goal := FeedsDone(setup, persister.faults, Progress(persister.Current(), sum, false), feeds);
    for i := 0 to |feeds|
      invariant Inv(persister.store.Rows())
      invariant FeedsDone(setup, persister.faults, Progress(persister.Current(), sum, false), feeds[i..]) == goal
    {
      assert feeds[i..][0] == feeds[i] && feeds[i..][1..] == feeds[i + 1..];
      if Delivered(feeds[i]) {
        sum, failed := ProcessFeed(setup, persister, sum, feeds[i].listedAs, feeds[i].files);
        if failed {
          return;
        }
      }
    }
    failed := persister.faults.process;
  }

  // How many feeds have a URL and a publishable label and, if asked for, load on the probe.
  function CountFeeds(cfg: Config, feeds: seq<Feed>, probing: bool): nat {
    if feeds == [] then 0
    else
      var last := feeds[|feeds| - 1];
      CountFeeds(cfg, feeds[..|feeds| - 1], probing)
      + if last.hasUrl && IsPublishable(cfg, last.tlp.GetOr("")) && (probing ==> last.probes) then 1 else 0
  }

  // The counters after some feeds.
  ghost predicate Tallied(cfg: Config, feeds: seq<Feed>, expected: nat, loaded: nat) {
    && expected == CountFeeds(cfg, feeds, false) && loaded == CountFeeds(cfg, feeds, true)
    && loaded <= expected
    && (expected > 0 <==> exists i :: 0 <= i < |feeds| && Relevant(cfg, feeds[i]))
    && (loaded == expected <==> forall i :: 0 <= i < |feeds| && Relevant(cfg, feeds[i]) ==> feeds[i].probes)
  }

  lemma TalliedStep(cfg: Config, feeds: seq<Feed>, feed: Feed, expected: nat, loaded: nat)
    requires Tallied(cfg, feeds, expected, loaded)
    ensures Tallied(cfg, feeds + [feed],
                    if Relevant(cfg, feed) then expected + 1 else expected,
                    if Relevant(cfg, feed) && feed.probes then loaded + 1 else loaded)
  {
    hide IsPublishable;
    var more := feeds + [feed];
    assert more[..|feeds|] == feeds;
    assert more[|feeds|] == feed && forall i :: 0 <= i < |feeds| ==> more[i] == feeds[i];
  }

  // Feeds flattens the distributions that have ROLIE feeds, in order.
  lemma {:induction false} FeedsFlatten(a: seq<Option<seq<Feed>>>, b: seq<Option<seq<Feed>>>)
    ensures Feeds(a + b) == Feeds(a) + Feeds(b)
  {
    if a == [] {
      assert a + b == b;
    } else {
      FeedsFlatten(a[1..], b);
      assert (a + b)[1..] == a[1..] + b;
    }
  }

  lemma FeedsOfOne(feeds: seq<Feed>)
    ensures Feeds([Some(feeds)]) == feeds && Feeds([None]) == []
  {
  }

  // Some distribution lists the feed.
  ghost predicate IsListed(distributions: seq<Option<seq<Feed>>>, feed: Feed) {
    exists d :: 0 <= d < |distributions| && distributions[d].Some? && feed in distributions[d].value
  }

  lemma {:induction false} FeedsAreListed(distributions: seq<Option<seq<Feed>>>, feed: Feed)
    ensures feed in Feeds(distributions) <==> IsListed(distributions, feed)
  {
    if distributions != [] {
      var rest := distributions[1..];
      FeedsAreListed(rest, feed);
      if feed in Feeds(rest) {
        var d :| 0 <= d < |rest| && rest[d].Some? && feed in rest[d].value;
        assert distributions[d + 1] == rest[d];
      }
      if d :| 0 <= d < |distributions| && distributions[d].Some? && feed in distributions[d].value {
        assert d > 0 ==> rest[d - 1] == distributions[d];
      }
    }
  }

  // Every publishable feed of the metadata is probed once more.
  method CheckFeedHealth(cfg: Config, distributions: seq<Option<seq<Feed>>>) returns (health: Health)
    ensures health.expected == CountFeeds(cfg, Feeds(distributions), false)
    ensures health.loaded == CountFeeds(cfg, Feeds(distributions), true)
    ensures health.enumeratedAll == EnumeratedAll(cfg, Feeds(distributions))
    ensures health.enumeratedAll <==>
      && (exists f :: IsListed(distributions, f) && f.hasUrl && IsPublishable(cfg, f.tlp.GetOr("")))
      && (forall f :: (IsListed(distributions, f) && f.hasUrl && IsPublishable(cfg, f.tlp.GetOr(""))) ==> f.probes)
  {
    hide Relevant, Tallied, IsListed, EnumeratedAll, CountFeeds, IsPublishable;
    HealthMeans(cfg, distributions);
    var expected, loaded := 0, 0;
    ghost var seen: seq<Feed> := [];
    NothingTallied(cfg);
    for i := 0 to |distributions|
      invariant seen + Feeds(distributions[i..]) == Feeds(distributions)
      invariant Tallied(cfg, seen, expected, loaded)
    {
      var rest := distributions[i..];
      assert rest[0] == distributions[i] && rest[1..] == distributions[i + 1..];
      assert Feeds(rest) == distributions[i].GetOr([]) + Feeds(rest[1..]);
      if distributions[i].Some? {
        expected, loaded := ProbeFeeds(cfg, distributions[i].value, seen, expected, loaded);
      }
      assert seen + distributions[i].GetOr([]) + Feeds(rest[1..]) == seen + Feeds(rest);
      assert seen + [] == seen;
      seen := seen + distributions[i].GetOr([]);
    }
    assert seen + [] == seen && distributions[|distributions|..] == [];
    TalliedHealth(cfg, seen, expected, loaded);
    health := Health(expected, loaded, expected > 0 && loaded == expected);
  }

  // What the probe asks for, feed by feed.
  lemma HealthMeans(cfg: Config, distributions: seq<Option<seq<Feed>>>)
    ensures EnumeratedAll(cfg, Feeds(distributions)) <==>
      && (exists f :: IsListed(distributions, f) && f.hasUrl && IsPublishable(cfg, f.tlp.GetOr("")))
      && (forall f :: (IsListed(distributions, f) && f.hasUrl && IsPublishable(cfg, f.tlp.GetOr(""))) ==> f.probes)
  {
    hide IsPublishable, IsListed, Feeds;
    var feeds := Feeds(distributions);
    forall f ensures IsListed(distributions, f) <==> f in feeds {
      FeedsAreListed(distributions, f);
    }
    if n :| 0 <= n < |feeds| && Relevant(cfg, feeds[n]) {
      assert feeds[n] in feeds;
    }
  }

  lemma NothingTallied(cfg: Config)
    ensures Tallied(cfg, [], 0, 0)
  {
  }

  lemma TalliedHealth(cfg: Config, feeds: seq<Feed>, expected: nat, loaded: nat)
    requires Tallied(cfg, feeds, expected, loaded)
    ensures expected == CountFeeds(cfg, feeds, false) && loaded == CountFeeds(cfg, feeds, true)
    ensures (expected > 0 && loaded == expected) == EnumeratedAll(cfg, feeds)
  {
    hide Relevant;
  }

  // The inner loop, over the feeds of one distribution; `before` are the feeds already counted.
  method ProbeFeeds(cfg: Config, feeds: seq<Feed>, ghost before: seq<Feed>, expected0: nat, loaded0: nat)
    returns (expected: nat, loaded: nat)
    requires Tallied(cfg, before, expected0, loaded0)
    ensures Tallied(cfg, before + feeds, expected, loaded)
  {
    hide Relevant, Tallied;
    expected, loaded := expected0, loaded0;
    assert before + feeds[..0] == before;
    for i := 0 to |feeds|
      invariant Tallied(cfg, before + feeds[..i], expected, loaded)
    {
      TalliedStep(cfg, before + feeds[..i], feeds[i], expected, loaded);
      assert before + feeds[..i] + [feeds[i]] == before + feeds[..i + 1];
      if Relevant(cfg, feeds[i]) {
        expected := expected + 1;
        if feeds[i].probes {
          loaded := loaded + 1;
        }
      }
    }
    assert feeds[..|feeds|] == feeds;
  }

  method MaybeSweep(cfg: Config, store: Database, faults: Faults, health: Health, present: seq<Key>)
    returns (withdrawn: int, decision: SweepDecision)
    modifies store`advisories
    ensures decision ==
      if !health.enumeratedAll || |present| == 0 then Skip
      else if faults.count then Error
      else if Implausible(|Active(old(store.Rows()))|, |present|) then Skip
      else if faults.sweep then Error
      else Sweep
    ensures store.Rows() == if decision == Sweep then Swept(old(store.Rows()), set k | k in present) else old(store.Rows())
    ensures withdrawn == |Active(old(store.Rows())) - Active(store.Rows())|
  {
    assert Active(store.Rows()) - Active(store.Rows()) == {};
    if !health.enumeratedAll {
      return 0, Skip;
    }
    if |present| == 0 {
      return 0, Skip;
    }
    if faults.count {
      return 0, Error;
    }
    var active := store.CountActiveAdvisories();
    if active >= MIN_CORPUS_FOR_GUARD {
      var wouldWithdraw := active - |present|;
      if wouldWithdraw < 0 {
        wouldWithdraw := 0;
      }
      if wouldWithdraw as real > MAX_WITHDRAW_FRACTION * (active as real) {
        return 0, Skip;
      }
    }
    if faults.sweep {
      return 0, Error;
    }
    withdrawn := store.TombstoneAbsent(present);
    decision := Sweep;
  }

  // The run comes first, the probe of the feeds after it.
  method FetchAndVerify(setup: Setup, persister: Persister, provider: Provider)
    returns (sum: Summary, health: Health, failed: bool)
    requires Inv(persister.store.Rows()) && persister.cfg == setup.cfg
    modifies persister, persister.store, persister.store.facets
    ensures Inv(persister.store.Rows())
    ensures Progress(persister.Current(), sum, failed) ==
      var start := Progress(old(persister.Current()), NO_SUMMARY, false);
      if !ValidForIngest(setup.cfg) || !provider.ready then start.(failed := true)
      else
        var p := FeedsDone(setup, persister.faults, start, Feeds(provider.distributions));
        p.(failed := p.failed || persister.faults.process)
    ensures !failed ==> health.enumeratedAll == EnumeratedAll(setup.cfg, Feeds(provider.distributions))
  {
    hide Inv, FeedsDone, EnumeratedAll;
    health := Health(0, 0, false);
    if !ValidForIngest(setup.cfg) || !provider.ready {
      return NO_SUMMARY, health, true;
    }
    sum, failed := Run(setup, persister, Feeds(provider.distributions));
    if !failed {
      health := CheckFeedHealth(setup.cfg, provider.distributions);
    }
  }

  method RunOnce(setup: Setup, store: Database, cycle: Cycle) returns (counts: Counts, failed: bool)
    requires Inv(store.Rows())
    modifies store, store.facets
    ensures Inv(store.Rows())
    ensures var report := CycleDone(setup, old(store.State()), cycle);
      store.State() == report.db && counts == report.progress.work.counts && failed == report.failed
  {
    hide Inv, FeedsDone, EnumeratedAll, Implausible, Swept, Active, ValidForIngest;
    var persister := new Persister(setup.cfg, store, cycle.faults);
    var sum, health;
    sum, health, failed := FetchAndVerify(setup, persister, cycle.provider);
    counts := persister.counts;
    if failed {
      return;
    }
    var present := persister.Present();
    SweptKeepsInv(store.Rows(), persister.present);
    var withdrawn, decision := MaybeSweep(setup.cfg, store, cycle.faults, health, present);
    if decision == Error {
      return counts, true;
    }
    if cycle.faults.watermark {
      return counts, true;
    }
    store.SetWatermark(cycle.now);
  }
}
