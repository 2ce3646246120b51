/** The advisories and documents tables: what the statements and triggers do to them, as functions. */
module Tables {
  import opened Text
  import opened Csaf

  // advisories is keyed by its UNIQUE(tracking_id, publisher); head is latest_document_id.
  datatype Advisory = Advisory(head: Option<nat>, withdrawn: bool)

  // latest is nullable: NULL until the insert trigger sets it.
  datatype Row = Row(advisory: Key, latest: Option<bool>, doc: Document)

  datatype Tables = Tables(advisories: map<Key, Advisory>, documents: map<nat, Row>, nextId: nat)

  const NO_ROWS := Tables(map[], map[], 0)

  // ---------- SQL comparisons: true only when neither side is NULL ----------

  predicate Exceeds(a: Option<int>, b: Option<int>) {
    a.Some? && b.Some? && a.value > b.value
  }

  predicate Same<T(==)>(a: Option<T>, b: Option<T>) {
    a.Some? && b.Some? && a.value == b.value
  }

  // The takeover condition of update_advisory.
  predicate Newer(a: Document, b: Document) {
    || Exceeds(a.released, b.released)
    || (Same(a.released, b.released) && Exceeds(a.revLength, b.revLength))
  }

  // The columns of the revision unique key agree.
  predicate SameRevision(a: Document, b: Document) {
    Same(a.version, b.version) && Same(a.revLength, b.revLength) && Same(a.status, b.status)
  }

  // ORDER BY ... DESC puts NULLs first.
  predicate Above(a: Option<int>, b: Option<int>) {
    (a.None? && b.Some?) || Exceeds(a, b)
  }

  predicate SortsBefore(a: Document, b: Document) {
    Above(a.released, b.released) || (a.released == b.released && Above(a.revLength, b.revLength))
  }

  // ---------- The statements ----------

  function Active(t: Tables): set<Key> {
    set k | k in t.advisories && !t.advisories[k].withdrawn
  }

  function Upserted(t: Tables, k: Key): Tables {
    var advisory := if k in t.advisories then t.advisories[k].(withdrawn := false) else Advisory(None, false);
    t.(advisories := t.advisories[k := advisory])
  }

  predicate Conflicts(t: Tables, k: Key, doc: Document) {
    exists id :: id in t.documents && t.documents[id].advisory == k && SameRevision(doc, t.documents[id].doc)
  }

  function Appended(t: Tables, k: Key, doc: Document): Tables {
    t.(documents := t.documents[t.nextId := Row(k, None, doc)], nextId := t.nextId + 1)
  }

  function Crowned(t: Tables, id: nat): Tables
    requires id in t.documents && t.documents[id].advisory in t.advisories
  {
    var k := t.documents[id].advisory;
    t.(documents := t.documents[id := t.documents[id].(latest := Some(true))],
       advisories := t.advisories[k := t.advisories[k].(head := Some(id))])
  }

  function Deposed(t: Tables, id: nat): Tables
    requires id in t.documents
  {
    t.(documents := t.documents[id := t.documents[id].(latest := Some(false))])
  }

  // update_advisory, with the current head read from latest_document_id.
  function Promoted(t: Tables, id: nat): Tables
    requires id in t.documents && t.documents[id].advisory in t.advisories
  {
    var head := t.advisories[t.documents[id].advisory].head;
    if head.None? || head.value !in t.documents then Crowned(t, id)
    else if Newer(t.documents[id].doc, t.documents[head.value].doc) then Crowned(Deposed(t, head.value), id)
    else t
  }

  // A committed StoreDocument.
  function Stored(t: Tables, k: Key, doc: Document): Tables {
    if Conflicts(t, k, doc) then Upserted(t, k)
    else Promoted(Appended(Upserted(t, k), k, doc), t.nextId)
  }

  // TombstoneAbsent.
  function Swept(t: Tables, present: set<Key>): Tables {
    t.(advisories := map k | k in t.advisories ::
         if k in present then t.advisories[k] else t.advisories[k].(withdrawn := true))
  }

  function Revisions(t: Tables, k: Key): set<nat> {
    set id | id in t.documents && t.documents[id].advisory == k
  }

  // The row a delete may promote: any that no other sorts before.
  ghost predicate MayLead(t: Tables, k: Key, lead: nat) {
    lead in Revisions(t, k) && forall id :: id in Revisions(t, k) ==> !SortsBefore(t.documents[id].doc, t.documents[lead].doc)
  }

  function Removed(t: Tables, id: nat): Tables {
    t.(documents := t.documents - {id})
  }

  // DELETE of one row and the delete_advisory trigger, for the lead it picked.
  function Deleted(t: Tables, id: nat, lead: Option<nat>): Tables
    requires id in t.documents
  {
    var k := t.documents[id].advisory;
    var rest := Removed(t, id);
    if t.documents[id].latest != Some(true) then rest
    else if lead.Some? && lead.value in rest.documents && rest.documents[lead.value].advisory in rest.advisories then Crowned(rest, lead.value)
    else rest.(advisories := rest.advisories - {k})
  }

  ghost predicate DeleteEnabled(t: Tables, id: nat, lead: Option<nat>) {
    && id in t.documents
    && var k := t.documents[id].advisory;
    && if !IsLatest(t, id) || Revisions(Removed(t, id), k) == {} then lead.None?
       else lead.Some? && MayLead(Removed(t, id), k, lead.value)
  }

  // ---------- Invariants ----------

  predicate IsLatest(t: Tables, id: nat) {
    id in t.documents && t.documents[id].latest == Some(true)
  }

  // The partial unique index only_one_latest_constraint.
  ghost predicate OneLatest(t: Tables) {
    forall i, j :: IsLatest(t, i) && IsLatest(t, j) && t.documents[i].advisory == t.documents[j].advisory ==> i == j
  }

  // latest_document_id and the latest flags say the same.
  ghost predicate Linked(t: Tables) {
    && (forall id :: id in t.documents ==> t.documents[id].advisory in t.advisories)
    && (forall id :: id in t.documents && t.documents[id].latest == Some(true) ==>
          t.advisories[t.documents[id].advisory].head == Some(id))
    && (forall k :: k in t.advisories && t.advisories[k].head.Some? ==>
          var h := t.advisories[k].head.value;
          h in t.documents && t.documents[h].advisory == k && t.documents[h].latest == Some(true))
  }

  ghost predicate UniqueRevisions(t: Tables) {
    forall i, j :: i in t.documents && j in t.documents && i != j && t.documents[i].advisory == t.documents[j].advisory ==>
      !SameRevision(t.documents[i].doc, t.documents[j].doc)
  }

  // What every committed state satisfies: each advisory has a head, and it is its only latest row.
  ghost predicate Inv(t: Tables) {
    && Linked(t)
    && (forall k :: k in t.advisories ==> t.advisories[k].head.Some?)
    && (forall id :: id in t.documents ==> id < t.nextId)
    && UniqueRevisions(t)
  }

  predicate HeadExists(t: Tables, k: Key) {
    k in t.advisories && t.advisories[k].head.Some? && t.advisories[k].head.value in t.documents
  }

  function HeadDoc(t: Tables, k: Key): Document
    requires HeadExists(t, k)
  {
    t.documents[t.advisories[k].head.value].doc
  }

  ghost predicate AllRanked(t: Tables) {
    forall id :: id in t.documents ==> Ranked(t.documents[id].doc)
  }

  // Each head is a maximum of (release date, history length).
  ghost predicate HeadsNewest(t: Tables)
    requires Inv(t)
  {
    forall id :: id in t.documents ==> !Newer(t.documents[id].doc, HeadDoc(t, t.documents[id].advisory))
  }

  // Each head leads every revision stored before it strictly.
  ghost predicate HeadsEarliest(t: Tables)
    requires Inv(t)
  {
    forall id :: id in t.documents && id < t.advisories[t.documents[id].advisory].head.value ==>
      Newer(HeadDoc(t, t.documents[id].advisory), t.documents[id].doc)
  }

  lemma LinkedHasOneLatest(t: Tables)
    requires Linked(t)
    ensures OneLatest(t)
  {
  }

  // The takeover never breaks the partial index: not before, not between its two updates, not after.
  lemma TakeoverKeepsIndex(t: Tables, id: nat)
    requires Linked(t) && id in t.documents && t.documents[id].latest != Some(true)
    requires var head := t.advisories[t.documents[id].advisory].head; head.Some?
    ensures var old' := t.advisories[t.documents[id].advisory].head.value;
      && old' in t.documents
      && OneLatest(t)
      && OneLatest(Deposed(t, old'))
      && OneLatest(Crowned(Deposed(t, old'), id))
      && !OneLatest(Crowned(t, id))
  {
    var old' := t.advisories[t.documents[id].advisory].head.value;
    var swapped := Crowned(t, id);
    assert swapped.documents[old'].latest == swapped.documents[id].latest == Some(true);
  }

  // ---------- What each operation keeps ----------

  // The same revisions under the same advisories; flags and heads may differ.
  ghost predicate SameRows(t: Tables, t': Tables) {
    && t'.nextId == t.nextId
    && (forall id :: id in t'.documents <==> id in t.documents)
    && (forall id :: id in t.documents ==> t'.documents[id].advisory == t.documents[id].advisory)
    && (forall id :: id in t.documents ==> t'.documents[id].doc == t.documents[id].doc)
  }

  lemma PromotedFrame(t: Tables, id: nat)
    requires id in t.documents && t.documents[id].advisory in t.advisories
    ensures SameRows(t, Promoted(t, id))
    ensures forall k :: k in Promoted(t, id).advisories <==> k in t.advisories
    ensures forall k :: k in t.advisories ==> Promoted(t, id).advisories[k].withdrawn == t.advisories[k].withdrawn
    ensures forall k :: k in t.advisories && k != t.documents[id].advisory ==> Promoted(t, id).advisories[k] == t.advisories[k]
  {
    hide Newer;
  }

  lemma CrownedLinked(t: Tables, id: nat)
    requires id in t.documents && t.documents[id].advisory in t.advisories
    requires forall i :: i in t.documents ==> t.documents[i].advisory in t.advisories
    requires forall i :: IsLatest(t, i) ==> (t.documents[i].advisory != t.documents[id].advisory
      && t.advisories[t.documents[i].advisory].head == Some(i))
    requires forall k :: k in t.advisories && k != t.documents[id].advisory && t.advisories[k].head.Some? ==>
      IsLatest(t, t.advisories[k].head.value) && t.documents[t.advisories[k].head.value].advisory == k
    ensures Linked(Crowned(t, id))
  {
  }

  // The new head is the promoted row or the old head, whichever is newer.
  lemma PromotedLinked(t: Tables, id: nat)
    requires Linked(t) && id in t.documents && !IsLatest(t, id)
    ensures Linked(Promoted(t, id))
    ensures var k := t.documents[id].advisory;
      var head := t.advisories[k].head;
      Promoted(t, id).advisories[k].head ==
        if head.None? || Newer(t.documents[id].doc, t.documents[head.value].doc) then Some(id) else head
  {
    hide Newer;
    var head := t.advisories[t.documents[id].advisory].head;
    if head.None? {
      CrownedLinked(t, id);
    } else if Newer(t.documents[id].doc, t.documents[head.value].doc) {
      CrownedLinked(Deposed(t, head.value), id);
    }
  }

  lemma UpsertedLinked(t: Tables, k: Key)
    requires Linked(t)
    ensures Linked(Upserted(t, k))
  {
  }

  lemma AppendedLinked(t: Tables, k: Key, doc: Document)
    requires Linked(t) && k in t.advisories && forall id :: id in t.documents ==> id < t.nextId
    ensures Linked(Appended(t, k, doc))
  {
  }

  lemma SameRevisionSymmetric(a: Document, b: Document)
    ensures SameRevision(a, b) == SameRevision(b, a)
  {
  }

  lemma SameRowsUnique(t: Tables, t': Tables)
    requires UniqueRevisions(t) && SameRows(t, t')
    ensures UniqueRevisions(t')
  {
    hide SameRevision;
  }

  // What storing a new revision means, row by row.
  ghost predicate NewRevision(t: Tables, k: Key, doc: Document, t': Tables) {
    && (k in t.advisories ==> HeadExists(t, k))
    && t'.nextId == t.nextId + 1
    && (forall id :: id in t'.documents <==> id in t.documents || id == t.nextId)
    && (forall id :: id in t.documents ==> t'.documents[id].advisory == t.documents[id].advisory)
    && (forall id :: id in t.documents ==> t'.documents[id].doc == t.documents[id].doc)
    && t'.documents[t.nextId].advisory == k && t'.documents[t.nextId].doc == doc
    && (forall k' :: k' in t'.advisories <==> k' in t.advisories || k' == k)
    && (forall k' :: k' in t.advisories && k' != k ==> t'.advisories[k'] == t.advisories[k'])
    && !t'.advisories[k].withdrawn
    && t'.advisories[k].head == (if k !in t.advisories || Newer(doc, HeadDoc(t, k)) then Some(t.nextId) else t.advisories[k].head)
    && Linked(t')
  }

  lemma HeadIsStored(t: Tables, k: Key)
    requires Inv(t) && k in t.advisories
    ensures t.advisories[k].head.Some?
    ensures var h := t.advisories[k].head.value; h in t.documents && t.documents[h].advisory == k && IsLatest(t, h)
  {
  }

  lemma StoredNewRevision(t: Tables, k: Key, doc: Document)
    requires Inv(t) && !Conflicts(t, k, doc)
    ensures NewRevision(t, k, doc, Stored(t, k, doc))
  {
    hide Newer, SameRevision, UniqueRevisions, Promoted, Linked, Upserted, Appended, Conflicts;
    var grown := Appended(Upserted(t, k), k, doc);
    AppendedEffect(t, k, doc);
    StoredIsPromoted(t, k, doc);
    PromotedFrame(grown, t.nextId);
    PromotedLinked(grown, t.nextId);
    if k in t.advisories {
      HeadIsStored(t, k);
    }
  }

  lemma StoredIsPromoted(t: Tables, k: Key, doc: Document)
    requires !Conflicts(t, k, doc) && Linked(t) && forall id :: id in t.documents ==> id < t.nextId
    ensures var grown := Appended(Upserted(t, k), k, doc);
      && t.nextId in grown.documents && k in grown.advisories && grown.documents[t.nextId].advisory == k
      && Stored(t, k, doc) == Promoted(grown, t.nextId)
  {
    hide Linked, SameRevision, Conflicts, Promoted;
  }

  lemma AppendedEffect(t: Tables, k: Key, doc: Document)
    requires Linked(t) && forall id :: id in t.documents ==> id < t.nextId
    ensures var grown := Appended(Upserted(t, k), k, doc);
      && Linked(grown)
      && grown.nextId == t.nextId + 1
      && (forall id :: id in grown.documents <==> id in t.documents || id == t.nextId)
      && (forall id :: id in t.documents ==> grown.documents[id] == t.documents[id])
      && grown.documents[t.nextId] == Row(k, None, doc)
      && (forall k' :: k' in grown.advisories <==> k' in t.advisories || k' == k)
      && (forall k' :: k' in t.advisories && k' != k ==> grown.advisories[k'] == t.advisories[k'])
      && grown.advisories[k] == Advisory(if k in t.advisories then t.advisories[k].head else None, false)
  {
    hide Linked;
    UpsertedLinked(t, k);
    AppendedLinked(Upserted(t, k), k, doc);
  }

  lemma NewRevisionInv(t: Tables, k: Key, doc: Document, t': Tables)
    requires Inv(t) && !Conflicts(t, k, doc) && NewRevision(t, k, doc, t')
    ensures Inv(t')
  {
    hide SameRevision, Newer, Linked;
    forall id | id in t.documents && t.documents[id].advisory == k
      ensures !SameRevision(doc, t.documents[id].doc) && !SameRevision(t.documents[id].doc, doc)
    {
      SameRevisionSymmetric(doc, t.documents[id].doc);
    }
  }

  // A revision that is already there only clears the tombstone.
  lemma StoredDuplicate(t: Tables, k: Key, doc: Document)
    requires Inv(t) && Conflicts(t, k, doc)
    ensures k in t.advisories
    ensures Stored(t, k, doc) == t.(advisories := t.advisories[k := t.advisories[k].(withdrawn := false)])
    ensures Inv(Stored(t, k, doc))
  {
    hide SameRevision;
    var id :| id in t.documents && t.documents[id].advisory == k && SameRevision(doc, t.documents[id].doc);
    UpsertedLinked(t, k);
    SameRowsUnique(t, Upserted(t, k));
    hide UniqueRevisions, Linked;
  }

  lemma StoredKeepsInv(t: Tables, k: Key, doc: Document)
    requires Inv(t)
    ensures Inv(Stored(t, k, doc))
  {
    if Conflicts(t, k, doc) {
      StoredDuplicate(t, k, doc);
    } else {
      StoredNewRevision(t, k, doc);
      NewRevisionInv(t, k, doc, Stored(t, k, doc));
    }
  }

  // A document newer than b is overtaken by nothing that does not overtake b, NULLs or not.
  lemma NewerStays(a: Document, b: Document, c: Document)
    ensures !Newer(a, a)
    ensures Newer(a, b) && !Newer(c, b) ==> !Newer(c, a)
  {
  }

  lemma NewerIsStrictOrder(a: Document, b: Document, c: Document)
    requires Ranked(a) && Ranked(b) && Ranked(c)
    ensures Newer(a, b) && !Newer(c, b) ==> Newer(a, c)
  {
  }

  // The head after a new revision: that revision, or the head before.
  lemma NewRevisionHead(t: Tables, k: Key, doc: Document, t': Tables, j: Key)
    requires Inv(t) && Inv(t') && NewRevision(t, k, doc, t') && j in t'.advisories
    ensures HeadExists(t', j) && (j in t.advisories ==> HeadExists(t, j))
    ensures j !in t.advisories ==> j == k
    ensures if j == k && (k !in t.advisories || Newer(doc, HeadDoc(t, k)))
      then t'.advisories[j].head == Some(t.nextId) && HeadDoc(t', j) == doc
      else t'.advisories[j].head == t.advisories[j].head && HeadDoc(t', j) == HeadDoc(t, j)
  {
    hide Newer, UniqueRevisions;
    HeadIsStored(t', j);
    if j in t.advisories {
      HeadIsStored(t, j);
    }
    hide Linked;
  }

  lemma NewRevisionNewest(t: Tables, k: Key, doc: Document, t': Tables)
    requires Inv(t) && HeadsNewest(t)
    requires NewRevision(t, k, doc, t') && Inv(t')
    ensures HeadsNewest(t')
  {
    hide Newer, UniqueRevisions;
    NewerStays(doc, doc, doc);
    forall id | id in t'.documents ensures !Newer(t'.documents[id].doc, HeadDoc(t', t'.documents[id].advisory)) {
      var j := t'.documents[id].advisory;
      NewRevisionHead(t, k, doc, t', j);
      if id in t.documents {
        assert !Newer(t.documents[id].doc, HeadDoc(t, j));
        NewerStays(doc, HeadDoc(t, j), t.documents[id].doc);
      }
    }
  }

  lemma NewRevisionEarliest(t: Tables, k: Key, doc: Document, t': Tables)
    requires Inv(t) && HeadsNewest(t) && AllRanked(t) && Ranked(doc) && HeadsEarliest(t)
    requires NewRevision(t, k, doc, t') && Inv(t')
    ensures HeadsEarliest(t')
  {
    hide Newer, UniqueRevisions, Ranked;
    forall id | id in t'.documents && id < t'.advisories[t'.documents[id].advisory].head.value
      ensures Newer(HeadDoc(t', t'.documents[id].advisory), t'.documents[id].doc)
    {
      var j := t'.documents[id].advisory;
      NewRevisionHead(t, k, doc, t', j);
      if id in t.documents {
        assert !Newer(t.documents[id].doc, HeadDoc(t, j));
        NewerIsStrictOrder(doc, HeadDoc(t, j), t.documents[id].doc);
      }
    }
  }

  // A store never leaves a revision newer than its head; without NULLs each head also stays newer than all
  // that came before it.
  lemma StoredKeepsHeads(t: Tables, k: Key, doc: Document)
    requires Inv(t) && HeadsNewest(t)
    ensures Inv(Stored(t, k, doc)) && HeadsNewest(Stored(t, k, doc))
    ensures AllRanked(t) && Ranked(doc) ==>
      AllRanked(Stored(t, k, doc)) && (HeadsEarliest(t) ==> HeadsEarliest(Stored(t, k, doc)))
  {
    hide Newer, UniqueRevisions, Linked, Ranked;
    StoredKeepsInv(t, k, doc);
    if Conflicts(t, k, doc) {
      StoredDuplicate(t, k, doc);
    } else {
      StoredNewRevision(t, k, doc);
      NewRevisionNewest(t, k, doc, Stored(t, k, doc));
      if AllRanked(t) && Ranked(doc) && HeadsEarliest(t) {
        NewRevisionEarliest(t, k, doc, Stored(t, k, doc));
      }
    }
  }

  // Only the withdrawn flags may differ.
  ghost predicate SameButFlags(t: Tables, t': Tables) {
    && t'.documents == t.documents && t'.nextId == t.nextId
    && (forall k :: k in t'.advisories <==> k in t.advisories)
    && (forall k :: k in t.advisories ==> t'.advisories[k].head == t.advisories[k].head)
  }

  lemma FlagsKeepInv(t: Tables, t': Tables)
    requires Inv(t) && SameButFlags(t, t')
    ensures Inv(t')
    ensures HeadsNewest(t) ==> HeadsNewest(t')
    ensures HeadsEarliest(t) ==> HeadsEarliest(t')
  {
    hide SameRevision, Newer, UniqueRevisions;
    SameRowsUnique(t, t');
  }

  lemma SweptKeepsInv(t: Tables, present: set<Key>)
    requires Inv(t)
    ensures Inv(Swept(t, present))
    ensures HeadsNewest(t) ==> HeadsNewest(Swept(t, present))
    ensures HeadsEarliest(t) ==> HeadsEarliest(Swept(t, present))
  {
    assert SameButFlags(t, Swept(t, present));
    hide Swept, Inv, HeadsNewest, HeadsEarliest, SameButFlags;
    FlagsKeepInv(t, Swept(t, present));
  }

  lemma RemovedRows(t: Tables, id: nat)
    requires Inv(t) && id in t.documents
    ensures var rest := Removed(t, id);
      && UniqueRevisions(rest)
      && (forall i :: i in rest.documents <==> i in t.documents && i != id)
      && (forall i :: i in rest.documents ==> rest.documents[i] == t.documents[i])
  {
    hide SameRevision, Linked;
  }

  lemma OtherRemoved(t: Tables, id: nat)
    requires Inv(t) && id in t.documents && !IsLatest(t, id)
    ensures Inv(Removed(t, id))
  {
    hide SameRevision, UniqueRevisions;
    RemovedRows(t, id);
  }

  // Removing a head leaves its advisory the only one without a latest row.
  lemma HeadRemoved(t: Tables, id: nat)
    requires Inv(t) && IsLatest(t, id)
    ensures var k, rest := t.documents[id].advisory, Removed(t, id);
      && (forall i :: i in rest.documents ==> rest.documents[i].advisory in rest.advisories)
      && (forall i :: IsLatest(rest, i) ==> rest.documents[i].advisory != k && rest.advisories[rest.documents[i].advisory].head == Some(i))
      && (forall j :: j in rest.advisories && j != k ==>
            HeadExists(rest, j) && IsLatest(rest, rest.advisories[j].head.value)
            && rest.documents[rest.advisories[j].head.value].advisory == j)
  {
    hide SameRevision, UniqueRevisions;
    RemovedRows(t, id);
  }

  lemma DeletedCrowns(t: Tables, id: nat, lead: nat)
    requires Inv(t) && IsLatest(t, id) && MayLead(Removed(t, id), t.documents[id].advisory, lead)
    ensures Inv(Deleted(t, id, Some(lead)))
    ensures Deleted(t, id, Some(lead)) == Crowned(Removed(t, id), lead)
  {
    hide SameRevision, SortsBefore, UniqueRevisions, Linked;
    var rest := Removed(t, id);
    RemovedRows(t, id);
    HeadRemoved(t, id);
    CrownedLinked(rest, lead);
    CrownedInv(rest, lead);
  }

  lemma CrownedInv(t: Tables, id: nat)
    requires id in t.documents && t.documents[id].advisory in t.advisories
    requires UniqueRevisions(t) && Linked(Crowned(t, id))
    requires forall i :: i in t.documents ==> i < t.nextId
    requires forall k :: k in t.advisories && k != t.documents[id].advisory ==> t.advisories[k].head.Some?
    ensures Inv(Crowned(t, id))
  {
    hide SameRevision, UniqueRevisions, Linked;
    SameRowsUnique(t, Crowned(t, id));
  }

  lemma HeadlessDropped(t: Tables, k: Key)
    requires UniqueRevisions(t) && forall id :: id in t.documents ==> id < t.nextId
    requires forall id :: id in t.documents ==> t.documents[id].advisory in t.advisories && t.documents[id].advisory != k
    requires forall id :: IsLatest(t, id) ==> t.advisories[t.documents[id].advisory].head == Some(id)
    requires forall j :: j in t.advisories && j != k ==>
      t.advisories[j].head.Some? && IsLatest(t, t.advisories[j].head.value) && t.documents[t.advisories[j].head.value].advisory == j
    ensures Inv(t.(advisories := t.advisories - {k}))
  {
    hide SameRevision;
  }

  lemma DeletedDropsAdvisory(t: Tables, id: nat)
    requires Inv(t) && IsLatest(t, id) && Revisions(Removed(t, id), t.documents[id].advisory) == {}
    ensures Inv(Deleted(t, id, None))
    ensures Deleted(t, id, None) == Removed(t, id).(advisories := t.advisories - {t.documents[id].advisory})
  {
    hide SameRevision, UniqueRevisions, Linked;
    var k := t.documents[id].advisory;
    var rest := Removed(t, id);
    RemovedRows(t, id);
    HeadRemoved(t, id);
    forall i | i in rest.documents ensures rest.documents[i].advisory != k {
      assert i in Revisions(rest, rest.documents[i].advisory);
    }
    HeadlessDropped(rest, k);
    hide Inv, Linked;
  }

  // What sorts first in the DESC order, NULLs first, is overtaken by nothing.
  lemma SortedFirstIsNewest(a: Document, b: Document)
    requires !SortsBefore(a, b)
    ensures !Newer(a, b)
  {
  }

  lemma DeletedKeepsInv(t: Tables, id: nat, lead: Option<nat>)
    requires Inv(t) && DeleteEnabled(t, id, lead)
    ensures Inv(Deleted(t, id, lead))
    ensures HeadsNewest(t) ==> HeadsNewest(Deleted(t, id, lead))
    ensures AllRanked(t) ==> AllRanked(Deleted(t, id, lead))
  {
    hide SameRevision, UniqueRevisions, SortsBefore, Newer, Ranked;
    var k := t.documents[id].advisory;
    var rest := Removed(t, id);
    RemovedRows(t, id);
    if !IsLatest(t, id) {
      OtherRemoved(t, id);
    } else if lead.Some? {
      DeletedCrowns(t, id, lead.value);
      forall i | i in Revisions(rest, k) ensures !Newer(rest.documents[i].doc, rest.documents[lead.value].doc) {
        SortedFirstIsNewest(rest.documents[i].doc, rest.documents[lead.value].doc);
      }
    } else {
      DeletedDropsAdvisory(t, id);
    }
  }

  // ---------- What a delete and a sweep do, row by row ----------

  // A delete takes away exactly its row, and an advisory exactly with its last row; no tombstone moves.
  lemma DeletedRows(t: Tables, id: nat, lead: Option<nat>)
    requires Inv(t) && DeleteEnabled(t, id, lead)
    ensures var t' := Deleted(t, id, lead);
      && t'.documents.Keys == t.documents.Keys - {id}
      && (forall i :: i in t'.documents ==>
            t'.documents[i].advisory == t.documents[i].advisory && t'.documents[i].doc == t.documents[i].doc)
      && (forall k :: k in t'.advisories <==> exists i :: i in t'.documents && t'.documents[i].advisory == k)
      && (forall k :: k in t'.advisories ==> k in t.advisories && t'.advisories[k].withdrawn == t.advisories[k].withdrawn)
      && (forall k :: k in t'.advisories && k != t.documents[id].advisory ==> t'.advisories[k].head == t.advisories[k].head)
  {
    hide SameRevision, UniqueRevisions, SortsBefore, Linked, Deleted;
    DeletedKeepsInv(t, id, lead);
    EachHasARow(t);
    DeletedFrame(t, id, lead);
    EachHasARow(Deleted(t, id, lead));
  }

  lemma DeletedFrame(t: Tables, id: nat, lead: Option<nat>)
    requires id in t.documents && t.documents[id].advisory in t.advisories
    requires lead.Some? ==> lead.value in Revisions(Removed(t, id), t.documents[id].advisory)
    ensures var t' := Deleted(t, id, lead);
      && t'.documents.Keys == t.documents.Keys - {id}
      && (forall i :: i in t'.documents ==>
            t'.documents[i].advisory == t.documents[i].advisory && t'.documents[i].doc == t.documents[i].doc)
      && (forall k :: k in t'.advisories ==> k in t.advisories && t'.advisories[k].withdrawn == t.advisories[k].withdrawn)
      && (forall k :: k in t'.advisories && k != t.documents[id].advisory ==> t'.advisories[k].head == t.advisories[k].head)
  {
  }

  lemma EachHasARow(t: Tables)
    requires Inv(t)
    ensures forall k :: k in t.advisories <==> exists i :: i in t.documents && t.documents[i].advisory == k
  {
    hide UniqueRevisions, SameRevision;
    forall k | k in t.advisories ensures exists i :: i in t.documents && t.documents[i].advisory == k {
      HeadIsStored(t, k);
    }
  }

  // After the delete of a head the row that sorts first by falling release date and falling history length
  // leads, a NULL sorting before every value.
  lemma DeletePromotesFirst(t: Tables, id: nat, lead: nat, other: nat)
    requires Inv(t) && DeleteEnabled(t, id, Some(lead))
    requires other in t.documents && other != id && t.documents[other].advisory == t.documents[id].advisory
    ensures Deleted(t, id, Some(lead)).advisories[t.documents[id].advisory].head == Some(lead)
    ensures var a, b := t.documents[lead].doc, t.documents[other].doc;
      && (b.released.None? ==> a.released.None?)
      && (a.released.Some? && b.released.Some? ==> b.released.value <= a.released.value)
      && (a.released == b.released && b.revLength.None? ==> a.revLength.None?)
      && (a.released == b.released && a.revLength.Some? && b.revLength.Some? ==> b.revLength.value <= a.revLength.value)
  {
    hide UniqueRevisions, SameRevision;
    assert other in Revisions(Removed(t, id), t.documents[id].advisory);
    DeletedCrowns(t, id, lead);
    hide Inv, Linked;
  }

  // A sweep leaves active who was active and is listed; it revives nobody and touches no row or head.
  lemma SweptIsIntersection(t: Tables, present: set<Key>)
    ensures Active(Swept(t, present)) == Active(t) * present
    ensures SameButFlags(t, Swept(t, present))
  {
  }
}
