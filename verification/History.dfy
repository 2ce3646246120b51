/** Whole histories of the revision store: every reachable state, and independence of arrival order. */
module History {
  import opened Text
  import opened Csaf
  import opened Tables

  // ---------- Every reachable state ----------

  datatype Step = Store(key: Key, doc: Document) | Sweep(present: set<Key>) | Delete(id: nat, lead: Option<nat>)

  ghost predicate Takes(t: Tables, step: Step, t': Tables) {
    match step
    case Store(k, doc) => t' == Stored(t, k, doc)
    case Sweep(present) => t' == Swept(t, present)
    case Delete(id, lead) => DeleteEnabled(t, id, lead) && t' == Deleted(t, id, lead)
  }

  ghost predicate Run(states: seq<Tables>, steps: seq<Step>) {
    && |states| == |steps| + 1
    && states[0] == NO_ROWS
    && forall i :: 0 <= i < |steps| ==> Takes(states[i], steps[i], states[i + 1])
  }

  // Every document a run stores has a release date and a history length.
  ghost predicate StoresRanked(steps: seq<Step>) {
    forall i :: 0 <= i < |steps| && steps[i].Store? ==> Ranked(steps[i].doc)
  }

  predicate LexAtMost(a: Document, b: Document)
    requires Ranked(a) && Ranked(b)
  {
    a.released.value < b.released.value || (a.released.value == b.released.value && a.revLength.value <= b.revLength.value)
  }

  // The head of an advisory is one of its rows, the only one flagged latest, and named by latest_document_id.
  ghost predicate SoleHead(t: Tables, k: Key) {
    k in t.advisories && t.advisories[k].head.Some? &&
    var h := t.advisories[k].head.value;
    h in Revisions(t, k) && forall id :: id in Revisions(t, k) ==> (IsLatest(t, id) <==> id == h)
  }

  ghost predicate HeadIsGreatest(t: Tables, k: Key)
    requires SoleHead(t, k) && AllRanked(t)
  {
    forall id :: id in Revisions(t, k) ==> LexAtMost(t.documents[id].doc, HeadDoc(t, k))
  }

  lemma InvGivesSoleHead(t: Tables, k: Key)
    requires Inv(t) && k in t.advisories
    ensures SoleHead(t, k)
  {
    hide SameRevision;
  }

  lemma NewestIsGreatest(t: Tables, k: Key)
    requires Inv(t) && AllRanked(t) && HeadsNewest(t) && k in t.advisories
    ensures SoleHead(t, k) && HeadIsGreatest(t, k)
  {
    InvGivesSoleHead(t, k);
  }

  lemma StepKeeps(t: Tables, step: Step, t': Tables)
    requires Inv(t) && HeadsNewest(t) && Takes(t, step, t')
    ensures Inv(t') && HeadsNewest(t')
    ensures AllRanked(t) && (step.Store? ==> Ranked(step.doc)) ==> AllRanked(t')
  {
    hide Linked, UniqueRevisions, Newer, Stored, Deleted;
    match step
    case Store(k, doc) =>
      StoredKeepsHeads(t, k, doc);
    case Sweep(present) =>
      SweptKeepsInv(t, present);
    case Delete(id, lead) =>
      DeletedKeepsInv(t, id, lead);
  }

  // In every state any sequence of stores, sweeps and single-row deletes can reach, each advisory has
  // exactly one head and no revision is newer than it; if nothing stored lacks a release date or a history
  // length, the head is the greatest revision.
  lemma {:induction false} HeadsOverRuns(states: seq<Tables>, steps: seq<Step>)
    requires Run(states, steps)
    ensures var t := states[|steps|];
      && Inv(t) && OneLatest(t)
      && (forall k :: k in t.advisories ==> SoleHead(t, k))
      && HeadsNewest(t)
      && (StoresRanked(steps) ==> AllRanked(t) && forall k :: k in t.advisories ==> HeadIsGreatest(t, k))
  {
    hide Takes, Linked, UniqueRevisions, SoleHead, HeadIsGreatest, AllRanked;
    var t := states[|steps|];
    if steps == [] {
      EmptyHolds();
    } else {
      var n := |steps| - 1;
      assert states[..n + 1][n] == states[n];
      HeadsOverRuns(states[..n + 1], steps[..n]);
      StepKeeps(states[n], steps[n], t);
    }
    LinkedHasOneLatest(t);
    forall k | k in t.advisories ensures SoleHead(t, k) {
      InvGivesSoleHead(t, k);
    }
    if StoresRanked(steps) {
      forall k | k in t.advisories ensures HeadIsGreatest(t, k) {
        NewestIsGreatest(t, k);
      }
    }
  }

  lemma EmptyHolds()
    ensures Inv(NO_ROWS) && AllRanked(NO_ROWS) && HeadsNewest(NO_ROWS) && HeadsEarliest(NO_ROWS)
  {
  }

  // ---------- Arrival order ----------

  datatype Arrival = Arrival(key: Key, doc: Document)

  function StoreAll(arrivals: seq<Arrival>): Tables {
    if arrivals == [] then NO_ROWS
    else
      var last := arrivals[|arrivals| - 1];
      Stored(StoreAll(arrivals[..|arrivals| - 1]), last.key, last.doc)
  }

  ghost predicate Comparable(arrivals: seq<Arrival>) {
    forall x :: x in arrivals ==> Ranked(x.doc)
  }

  // A revision key identifies the document. Without it ON CONFLICT DO NOTHING keeps whichever came first.
  ghost predicate Determined(arrivals: seq<Arrival>) {
    forall x, y :: x in arrivals && y in arrivals && x.key == y.key && SameRevision(x.doc, y.doc) ==> x.doc == y.doc
  }

  // Some row of k has these three columns.
  ghost predicate HasRevision(t: Tables, k: Key, version: Option<string>, revLength: Option<int>, status: Option<Status>) {
    exists id :: id in t.documents && t.documents[id].advisory == k && t.documents[id].doc.version == version
                 && t.documents[id].doc.revLength == revLength && t.documents[id].doc.status == status
  }

  // Rows come from arrivals, and an advisory is there for each key that arrived.
  ghost predicate FromArrivals(t: Tables, arrivals: seq<Arrival>) {
    && (forall id :: id in t.documents ==> Arrival(t.documents[id].advisory, t.documents[id].doc) in arrivals)
    && (forall k :: k in t.advisories <==> exists x :: x in arrivals && x.key == k)
  }

  // No two rows of an advisory agree in version, history length and status unless one of them is NULL.
  ghost predicate RevisionsDiffer(t: Tables) {
    && (forall i, j :: i in t.documents && j in t.documents && i != j && t.documents[i].advisory == t.documents[j].advisory ==>
          || t.documents[i].doc.version.None? || t.documents[i].doc.version != t.documents[j].doc.version
          || t.documents[i].doc.revLength.None? || t.documents[i].doc.revLength != t.documents[j].doc.revLength
          || t.documents[i].doc.status.None? || t.documents[i].doc.status != t.documents[j].doc.status)
  }

  // Whatever arrives in whatever order: for each arrival a row with its version, history length and status
  // is there, though two documents may share it.
  lemma {:induction false} EveryRevisionIsHeld(arrivals: seq<Arrival>)
    ensures var t := StoreAll(arrivals);
      && Inv(t) && FromArrivals(t, arrivals) && RevisionsDiffer(t)
      && forall x :: x in arrivals ==> HasRevision(t, x.key, x.doc.version, x.doc.revLength, x.doc.status)
  {
    hide Stored, HasRevision, FromArrivals, Linked, UniqueRevisions, RevisionsDiffer;
    if arrivals == [] {
      EmptyHolds();
      NothingArrived();
    } else {
      var front, last := arrivals[..|arrivals| - 1], arrivals[|arrivals| - 1];
      var s := StoreAll(front);
      EveryRevisionIsHeld(front);
      StoredKeepsInv(s, last.key, last.doc);
      assert arrivals == front + [last];
      ArrivalIsHeld(s, last);
      ArrivalIsNoted(s, front, last);
      forall x | x in front ensures HasRevision(StoreAll(arrivals), x.key, x.doc.version, x.doc.revLength, x.doc.status) {
        RevisionStays(s, last, x);
      }
    }
    InvMeansDiffer(StoreAll(arrivals));
  }

  lemma InvMeansDiffer(t: Tables)
    requires UniqueRevisions(t)
    ensures RevisionsDiffer(t)
  {
  }

  lemma NothingArrived()
    ensures FromArrivals(NO_ROWS, [])
  {
  }

  lemma ArrivalIsHeld(s: Tables, x: Arrival)
    requires Inv(s)
    ensures HasRevision(Stored(s, x.key, x.doc), x.key, x.doc.version, x.doc.revLength, x.doc.status)
  {
    hide Linked, UniqueRevisions, Newer;
    if Conflicts(s, x.key, x.doc) {
      StoredDuplicate(s, x.key, x.doc);
      var id :| id in s.documents && s.documents[id].advisory == x.key && SameRevision(x.doc, s.documents[id].doc);
      assert id in Stored(s, x.key, x.doc).documents;
    } else {
      StoredNewRevision(s, x.key, x.doc);
      assert s.nextId in Stored(s, x.key, x.doc).documents;
    }
  }

  lemma RevisionStays(s: Tables, last: Arrival, x: Arrival)
    requires Inv(s) && HasRevision(s, x.key, x.doc.version, x.doc.revLength, x.doc.status)
    ensures HasRevision(Stored(s, last.key, last.doc), x.key, x.doc.version, x.doc.revLength, x.doc.status)
  {
    hide Linked, UniqueRevisions, Newer, SameRevision;
    var id :| id in s.documents && s.documents[id].advisory == x.key && s.documents[id].doc.version == x.doc.version
      && s.documents[id].doc.revLength == x.doc.revLength && s.documents[id].doc.status == x.doc.status;
    if Conflicts(s, last.key, last.doc) {
      StoredDuplicate(s, last.key, last.doc);
    } else {
      StoredNewRevision(s, last.key, last.doc);
    }
    assert id in Stored(s, last.key, last.doc).documents;
  }

  lemma ArrivalIsNoted(s: Tables, front: seq<Arrival>, last: Arrival)
    requires Inv(s) && FromArrivals(s, front)
    ensures FromArrivals(Stored(s, last.key, last.doc), front + [last])
  {
    hide Linked, UniqueRevisions, Newer, Stored, SameRevision, Conflicts;
    assert last in front + [last];
    if Conflicts(s, last.key, last.doc) {
      StoredDuplicate(s, last.key, last.doc);
    } else {
      StoredNewRevision(s, last.key, last.doc);
    }
  }

  // Two arrivals under one key that differ in any one of the three columns are both there, in rows of their own.
  lemma TwoRevisionsTwoRows(arrivals: seq<Arrival>, x: Arrival, y: Arrival)
    requires x in arrivals && y in arrivals && x.key == y.key
    requires x.doc.version != y.doc.version || x.doc.revLength != y.doc.revLength || x.doc.status != y.doc.status
    ensures exists i, j :: i != j && i in Revisions(StoreAll(arrivals), x.key) && j in Revisions(StoreAll(arrivals), x.key)
  {
    hide StoreAll, FromArrivals, Inv;
    EveryRevisionIsHeld(arrivals);
    var t := StoreAll(arrivals);
    var i :| i in t.documents && t.documents[i].advisory == x.key && t.documents[i].doc.version == x.doc.version
      && t.documents[i].doc.revLength == x.doc.revLength && t.documents[i].doc.status == x.doc.status;
    var j :| j in t.documents && t.documents[j].advisory == y.key && t.documents[j].doc.version == y.doc.version
      && t.documents[j].doc.revLength == y.doc.revLength && t.documents[j].doc.status == y.doc.status;
    assert i in Revisions(t, x.key) && j in Revisions(t, x.key);
  }

  // Document `doc` is stored under `k`.
  ghost predicate Holds(t: Tables, k: Key, doc: Document) {
    exists id :: id in Revisions(t, k) && t.documents[id].doc == doc
  }

  // Arrival i leads its advisory: nothing that arrived is newer, and it is newer than all that came before it.
  ghost predicate FirstBest(arrivals: seq<Arrival>, k: Key, i: nat) {
    && i < |arrivals| && arrivals[i].key == k
    && (forall j :: 0 <= j < |arrivals| && arrivals[j].key == k ==> !Newer(arrivals[j].doc, arrivals[i].doc))
    && (forall j :: 0 <= j < i && arrivals[j].key == k ==> Newer(arrivals[i].doc, arrivals[j].doc))
  }

  // Exactly the arrivals are stored.
  ghost predicate Faithful(t: Tables, arrivals: seq<Arrival>) {
    && (forall x :: x in arrivals ==> Holds(t, x.key, x.doc))
    && (forall id :: id in t.documents ==> Arrival(t.documents[id].advisory, t.documents[id].doc) in arrivals)
    && (forall k :: k in t.advisories <==> exists x :: x in arrivals && x.key == k)
  }

  lemma SameRowsHold(t: Tables, t': Tables, k: Key, doc: Document)
    requires t'.documents == t.documents
    ensures Holds(t', k, doc) == Holds(t, k, doc)
  {
    assert Revisions(t', k) == Revisions(t, k);
  }

  lemma RepeatIsFaithful(t: Tables, t': Tables, arrivals: seq<Arrival>, last: Arrival)
    requires Faithful(t, arrivals) && last in arrivals
    requires t'.documents == t.documents && t'.advisories.Keys == t.advisories.Keys
    ensures Faithful(t', arrivals + [last])
  {
    forall x | x in arrivals ensures Holds(t', x.key, x.doc) {
      SameRowsHold(t, t', x.key, x.doc);
    }
    hide Holds;
    assert forall x :: x in arrivals + [last] <==> x in arrivals;
    assert forall k :: k in t'.advisories <==> k in t.advisories;
  }

  lemma DuplicateIsFaithful(t: Tables, arrivals: seq<Arrival>, last: Arrival)
    requires Inv(t) && Faithful(t, arrivals) && Conflicts(t, last.key, last.doc)
    requires Determined(arrivals + [last])
    ensures Faithful(Stored(t, last.key, last.doc), arrivals + [last])
  {
    hide SameRevision, Stored, Inv, Holds;
    var id :| id in t.documents && t.documents[id].advisory == last.key && SameRevision(last.doc, t.documents[id].doc);
    var earlier := Arrival(last.key, t.documents[id].doc);
    assert earlier in arrivals + [last] && last in arrivals + [last];
    assert earlier == last;
    StoredDuplicate(t, last.key, last.doc);
    RepeatIsFaithful(t, Stored(t, last.key, last.doc), arrivals, last);
  }

  lemma NewRevisionIsFaithful(t: Tables, arrivals: seq<Arrival>, last: Arrival, t': Tables)
    requires Inv(t) && Faithful(t, arrivals) && NewRevision(t, last.key, last.doc, t')
    ensures Faithful(t', arrivals + [last])
  {
    hide Newer, UniqueRevisions, Linked;
    assert t.nextId in Revisions(t', last.key);
    forall x | x in arrivals ensures Holds(t', x.key, x.doc) {
      var id :| id in Revisions(t, x.key) && t.documents[id].doc == x.doc;
      assert id in Revisions(t', x.key);
    }
    hide Holds;
  }

  lemma StoredIsFaithful(t: Tables, arrivals: seq<Arrival>, last: Arrival)
    requires Inv(t) && Faithful(t, arrivals)
    requires Determined(arrivals + [last])
    ensures Faithful(Stored(t, last.key, last.doc), arrivals + [last])
  {
    if Conflicts(t, last.key, last.doc) {
      DuplicateIsFaithful(t, arrivals, last);
    } else {
      StoredNewRevision(t, last.key, last.doc);
      NewRevisionIsFaithful(t, arrivals, last, Stored(t, last.key, last.doc));
    }
  }

  lemma {:induction false} StoreAllHolds(arrivals: seq<Arrival>)
    requires Determined(arrivals)
    ensures var t := StoreAll(arrivals);
      && Inv(t) && HeadsNewest(t) && Faithful(t, arrivals)
      && (Comparable(arrivals) ==> AllRanked(t) && HeadsEarliest(t))
  {
    hide Linked, UniqueRevisions, Newer, Stored, Ranked, SameRevision;
    if arrivals == [] {
      EmptyHolds();
    } else {
      var front, last := arrivals[..|arrivals| - 1], arrivals[|arrivals| - 1];
      assert arrivals == front + [last];
      FrontKeepsHypotheses(arrivals);
      StoreAllHolds(front);
      StoredKeepsHeads(StoreAll(front), last.key, last.doc);
      StoredIsFaithful(StoreAll(front), front, last);
    }
  }

  ghost predicate SameRank(a: Document, b: Document) {
    a.released == b.released && a.revLength == b.revLength
  }

  // Any two orders of the same arrivals, with any repeats, leave the same advisories and revisions.
  lemma SameContents(a: seq<Arrival>, b: seq<Arrival>, k: Key)
    requires Determined(a)
    requires forall x :: x in a <==> x in b
    ensures k in StoreAll(a).advisories <==> k in StoreAll(b).advisories
    ensures forall doc :: Holds(StoreAll(a), k, doc) <==> Holds(StoreAll(b), k, doc)
  {
    hide Inv, HeadsNewest, HeadsEarliest, AllRanked, Holds;
    StoreAllHolds(a);
    StoreAllHolds(b);
    hide StoreAll, Determined;
    forall doc ensures Holds(StoreAll(a), k, doc) <==> Holds(StoreAll(b), k, doc) {
      HoldsIffArrived(StoreAll(a), a, k, doc);
      HoldsIffArrived(StoreAll(b), b, k, doc);
    }
  }

  lemma HeadArrived(arrivals: seq<Arrival>, k: Key)
    requires Determined(arrivals) && k in StoreAll(arrivals).advisories
    ensures Inv(StoreAll(arrivals))
    ensures Arrival(k, HeadDoc(StoreAll(arrivals), k)) in arrivals
    ensures forall x :: x in arrivals && x.key == k ==> !Newer(x.doc, HeadDoc(StoreAll(arrivals), k))
  {
    hide Newer, UniqueRevisions;
    StoreAllHolds(arrivals);
    var t := StoreAll(arrivals);
    HeadIsStored(t, k);
    forall x | x in arrivals && x.key == k ensures !Newer(x.doc, HeadDoc(t, k)) {
      HeadDominates(t, arrivals, x);
    }
  }

  // They also leave heads of the same rank and, where ranks are distinct, the same heads.
  lemma SameHeads(a: seq<Arrival>, b: seq<Arrival>, k: Key)
    requires Comparable(a) && Determined(a)
    requires forall x :: x in a <==> x in b
    requires k in StoreAll(a).advisories
    ensures Inv(StoreAll(a)) && Inv(StoreAll(b)) && k in StoreAll(b).advisories
    ensures SameRank(HeadDoc(StoreAll(a), k), HeadDoc(StoreAll(b), k))
    ensures (forall x, y :: x in a && y in a && x.key == y.key == k && SameRank(x.doc, y.doc) ==> x == y) ==>
      HeadDoc(StoreAll(a), k) == HeadDoc(StoreAll(b), k)
  {
    SameContents(a, b, k);
    hide Inv, Determined, SameRevision, StoreAll, Holds, Newer, SameRank, Ranked;
    HeadArrived(a, k);
    HeadArrived(b, k);
    var x, y := Arrival(k, HeadDoc(StoreAll(a), k)), Arrival(k, HeadDoc(StoreAll(b), k));
    assert x in b && y in a;
    MutualIsSameRank(x.doc, y.doc);
  }

  lemma MutualIsSameRank(a: Document, b: Document)
    requires Ranked(a) && Ranked(b) && !Newer(a, b) && !Newer(b, a)
    ensures SameRank(a, b)
  {
  }

  lemma FirstBestExtends(arrivals: seq<Arrival>, k: Key, i: nat)
    requires Comparable(arrivals) && arrivals != [] && var n := |arrivals| - 1;
      FirstBest(arrivals[..n], k, i) && arrivals[n].key == k && Newer(arrivals[n].doc, arrivals[i].doc)
    ensures FirstBest(arrivals, k, |arrivals| - 1)
  {
    hide Newer, Ranked;
    var n := |arrivals| - 1;
    forall j | 0 <= j <= n && arrivals[j].key == k
      ensures !Newer(arrivals[j].doc, arrivals[n].doc) && (j < n ==> Newer(arrivals[n].doc, arrivals[j].doc))
    {
      assert arrivals[j] in arrivals && arrivals[n] in arrivals && arrivals[i] in arrivals;
      if j < n {
        assert arrivals[..n][j] == arrivals[j];
      }
      NewerIsStrictOrder(arrivals[n].doc, arrivals[i].doc, arrivals[j].doc);
      NewerStays(arrivals[n].doc, arrivals[i].doc, arrivals[j].doc);
    }
  }

  lemma FirstBestStays(arrivals: seq<Arrival>, k: Key, i: nat)
    requires arrivals != [] && FirstBest(arrivals[..|arrivals| - 1], k, i)
    requires forall x :: x in arrivals && x.key == k ==> !Newer(x.doc, arrivals[i].doc)
    ensures FirstBest(arrivals, k, i)
  {
    hide Newer;
    var front := arrivals[..|arrivals| - 1];
    assert forall j :: 0 <= j < |front| ==> front[j] == arrivals[j];
    assert forall j :: 0 <= j < |arrivals| ==> arrivals[j] in arrivals;
  }

  lemma FirstBestInRange(arrivals: seq<Arrival>, k: Key, i: nat)
    requires FirstBest(arrivals, k, i)
    ensures i < |arrivals|
  {
  }

  lemma OnlyArrivalIsFirstBest(arrivals: seq<Arrival>, k: Key)
    requires Comparable(arrivals) && arrivals != [] && arrivals[|arrivals| - 1].key == k
    requires forall x :: x in arrivals[..|arrivals| - 1] ==> x.key != k
    ensures FirstBest(arrivals, k, |arrivals| - 1)
  {
    var front, last := arrivals[..|arrivals| - 1], arrivals[|arrivals| - 1];
    assert last in arrivals;
    forall j | 0 <= j < |front| ensures arrivals[j].key != k {
      assert front[j] in front;
    }
  }

  // On ties the earliest arrival stays head.
  lemma {:induction false} HeadIsFirstBest(arrivals: seq<Arrival>, k: Key)
    returns (i: nat)
    requires Comparable(arrivals) && Determined(arrivals) && k in StoreAll(arrivals).advisories
    ensures Inv(StoreAll(arrivals))
    ensures FirstBest(arrivals, k, i) && HeadDoc(StoreAll(arrivals), k) == arrivals[i].doc
  {
    hide Newer, Stored, Inv, HeadDoc, FirstBest, Conflicts, AllRanked, Determined, Comparable, Faithful;
    var n := |arrivals| - 1;
    var front, last := arrivals[..n], arrivals[n];
    HeadArrived(arrivals, k);
    FrontKeepsHypotheses(arrivals);
    StoreAllHolds(front);
    HeadStep(StoreAll(front), last, k);
    if k !in StoreAll(front).advisories {
      i := n;
      AbsentKey(StoreAll(front), front, k);
      OnlyArrivalIsFirstBest(arrivals, k);
    } else {
      i := HeadIsFirstBest(front, k);
      hide StoreAll;
      FirstBestInRange(front, k, i);
      HeadIsStored(StoreAll(front), k);
      HeadIsStored(StoreAll(arrivals), k);
      if HeadDoc(StoreAll(arrivals), k) == HeadDoc(StoreAll(front), k) {
        FirstBestStays(arrivals, k, i);
      } else {
        FirstBestExtends(arrivals, k, i);
        i := n;
      }
    }
  }

  lemma FrontKeepsHypotheses(arrivals: seq<Arrival>)
    requires Determined(arrivals) && arrivals != []
    ensures Determined(arrivals[..|arrivals| - 1])
    ensures Comparable(arrivals) ==> Comparable(arrivals[..|arrivals| - 1])
  {
    hide SameRevision, Ranked;
  }

  lemma AbsentKey(t: Tables, arrivals: seq<Arrival>, k: Key)
    requires Faithful(t, arrivals) && k !in t.advisories
    ensures forall x :: x in arrivals ==> x.key != k
  {
    hide Holds;
  }

  lemma HeadStep(s: Tables, last: Arrival, k: Key)
    requires Inv(s) && HeadsNewest(s)
    ensures var t := Stored(s, last.key, last.doc);
      k in t.advisories ==> (Inv(t) &&
        if k !in s.advisories then k == last.key && HeadDoc(t, k) == last.doc
        else if k == last.key && Newer(last.doc, HeadDoc(s, k)) && !Conflicts(s, k, last.doc) then HeadDoc(t, k) == last.doc
        else HeadDoc(t, k) == HeadDoc(s, k))
  {
    hide Newer, SameRevision, UniqueRevisions;
    StoredKeepsInv(s, last.key, last.doc);
    if Conflicts(s, last.key, last.doc) {
      StoredDuplicate(s, last.key, last.doc);
    } else {
      StoredNewRevision(s, last.key, last.doc);
      if k in s.advisories {
        HeadIsStored(s, k);
      }
    }
    hide Stored;
  }

  lemma HoldsIffArrived(t: Tables, arrivals: seq<Arrival>, k: Key, doc: Document)
    requires Faithful(t, arrivals)
    ensures Holds(t, k, doc) <==> Arrival(k, doc) in arrivals
  {
  }

  lemma HeadDominates(t: Tables, arrivals: seq<Arrival>, x: Arrival)
    requires Inv(t) && HeadsNewest(t) && Faithful(t, arrivals) && x in arrivals
    ensures x.key in t.advisories && !Newer(x.doc, HeadDoc(t, x.key))
  {
    hide Newer, UniqueRevisions;
    var id :| id in Revisions(t, x.key) && t.documents[id].doc == x.doc;
  }

  // ---------- Why the hypotheses are needed ----------

  // A stored revision is recognised again exactly when none of its key columns is NULL.
  lemma ReplayConflictsIff(t: Tables, k: Key, doc: Document)
    requires Inv(t)
    ensures Conflicts(Stored(t, k, doc), k, doc) <==> doc.version.Some? && doc.revLength.Some? && doc.status.Some?
  {
    hide Linked, UniqueRevisions, Newer;
    var t' := Stored(t, k, doc);
    if Conflicts(t, k, doc) {
      StoredDuplicate(t, k, doc);
      var id :| id in t.documents && t.documents[id].advisory == k && SameRevision(doc, t.documents[id].doc);
      assert id in t'.documents;
    } else {
      StoredNewRevision(t, k, doc);
      assert t.nextId in t'.documents;
    }
  }

  // Some document can take over from a head exactly when the head's release date is not NULL.
  lemma HeadCanBeSupersededIff(t: Tables, k: Key)
    requires Inv(t) && k in t.advisories
    ensures (exists doc :: Newer(doc, HeadDoc(t, k))) <==> HeadDoc(t, k).released.Some?
  {
    var head := HeadDoc(t, k);
    if head.released.Some? {
      assert Newer(head.(released := Some(head.released.value + 1)), head);
    }
  }

  // Two documents that share a revision key: the first to arrive is the one row, whatever the second says.
  lemma FirstArrivalWins(k: Key, first: Document, second: Document)
    requires SameRevision(first, second)
    ensures var t := StoreAll([Arrival(k, first), Arrival(k, second)]);
      t.documents.Keys == {0} && t.documents[0].advisory == k && t.documents[0].doc == first
  {
    hide Newer;
    var one := [Arrival(k, first)];
    assert [Arrival(k, first), Arrival(k, second)][..1] == one && one[..0] == [];
    SameRevisionSymmetric(first, second);
    var t := StoreAll(one);
    assert one[|one| - 1] == Arrival(k, first) && StoreAll([]) == NO_ROWS;
    assert t == Stored(NO_ROWS, k, first);
    assert 0 in t.documents && t.documents[0].doc == first && t.documents[0].advisory == k;
    assert Conflicts(t, k, second);
  }
}
