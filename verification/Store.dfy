/** The database as ingestion sees it: the transactions of store.go over the tables and their triggers. */
module Store {
  import opened Text
  import opened Csaf
  import opened Tables
  import opened FacetIndex

  // A committed state: both table groups and the watermark of the provider.
  datatype Db = Db(tables: Tables, ix: Index, watermark: Option<int>)

  const NEW := Db(NO_ROWS, NO_LINKS, None)

  datatype Outcome = Inserted | Duplicate | Failed

  // A committed StoreDocument: the extraction triggers run only for a row that was inserted.
  function StoredDb(db: Db, k: Key, doc: Document): Db {
    if Conflicts(db.tables, k, doc) then db.(tables := Stored(db.tables, k, doc))
    else db.(tables := Stored(db.tables, k, doc), ix := Extracted(db.ix, db.tables.nextId, doc))
  }

  function StoreOutcome(db: Db, k: Key, doc: Document, commits: bool): Outcome {
    if !commits || !Insertable(doc) then Failed
    else if Conflicts(db.tables, k, doc) then Duplicate
    else Inserted
  }

  // The insert is a duplicate exactly when a row of the advisory has the same version, history length and status,
  // all three present; it fails exactly when it cannot commit, has no version, or does not cast.
  lemma OutcomeIff(db: Db, k: Key, doc: Document, commits: bool)
    ensures StoreOutcome(db, k, doc, commits) == Failed <==> !commits || doc.version.None? || !doc.castable
    ensures StoreOutcome(db, k, doc, commits) == Duplicate <==>
      && commits && doc.castable && doc.version.Some? && doc.revLength.Some? && doc.status.Some?
      && exists id :: id in db.tables.documents && db.tables.documents[id].advisory == k
           && db.tables.documents[id].doc.version == doc.version
           && db.tables.documents[id].doc.revLength == doc.revLength
           && db.tables.documents[id].doc.status == doc.status
  {
    if Conflicts(db.tables, k, doc) {
      var id :| id in db.tables.documents && db.tables.documents[id].advisory == k
        && SameRevision(doc, db.tables.documents[id].doc);
    }
  }

  function Documents(t: Tables): map<nat, Document> {
    map id | id in t.documents :: t.documents[id].doc
  }

  // Everything a committed state satisfies.
  ghost predicate Consistent(db: Db) {
    Inv(db.tables) && HeadsNewest(db.tables) && Agrees(db.ix, Documents(db.tables))
  }

  method KeyArrays(present: seq<Key>) returns (trackingIds: seq<string>, publishers: seq<string>)
    ensures |trackingIds| == |publishers| == |present|
    ensures forall i :: 0 <= i < |present| ==> Key(trackingIds[i], publishers[i]) == present[i]
  {
    trackingIds, publishers := [], [];
    for i := 0 to |present|
      invariant |trackingIds| == |publishers| == i
      invariant forall j :: 0 <= j < i ==> Key(trackingIds[j], publishers[j]) == present[j]
    {
      trackingIds := trackingIds + [present[i].trackingId];
      publishers := publishers + [present[i].publisher];
    }
  }

  function Unnest(trackingIds: seq<string>, publishers: seq<string>): set<Key>
    requires |trackingIds| == |publishers|
  {
    set i | 0 <= i < |trackingIds| :: Key(trackingIds[i], publishers[i])
  }

  lemma UnnestGivesKeys(present: seq<Key>, trackingIds: seq<string>, publishers: seq<string>)
    requires |trackingIds| == |publishers| == |present|
    requires forall i :: 0 <= i < |present| ==> Key(trackingIds[i], publishers[i]) == present[i]
    ensures Unnest(trackingIds, publishers) == set k | k in present
  {
    forall k | k in present ensures k in Unnest(trackingIds, publishers) {
      var i :| 0 <= i < |present| && present[i] == k;
      assert Key(trackingIds[i], publishers[i]) == k;
    }
  }

  // WHERE NOT withdrawn AND (tracking_id, publisher) NOT IN (...)
  function Hit(advisories: map<Key, Advisory>, listed: set<Key>): set<Key> {
    set k | k in advisories && !advisories[k].withdrawn && k !in listed
  }

  // SET withdrawn = true
  function Marked(advisories: map<Key, Advisory>, hit: set<Key>): map<Key, Advisory> {
    map k | k in advisories :: if k in hit then advisories[k].(withdrawn := true) else advisories[k]
  }

  // The statement withdraws exactly the active keys that are not listed.
  lemma SweepStatement(t: Tables, listed: set<Key>)
    ensures Marked(t.advisories, Hit(t.advisories, listed)) == Swept(t, listed).advisories
    ensures Hit(t.advisories, listed) == Active(t) - Active(Swept(t, listed))
  {
    assert forall k :: k in t.advisories && t.advisories[k].withdrawn ==>
      t.advisories[k].(withdrawn := true) == t.advisories[k];
  }

  class Database {
    var advisories: map<Key, Advisory>
    var documents: map<nat, Row>
    var nextId: nat
    var watermark: Option<int>
    const facets: FacetTables

    ghost function Rows(): Tables
      reads this
    {
      Tables(advisories, documents, nextId)
    }

    ghost function State(): Db
      reads this, facets
    {
      Db(Rows(), facets.Contents(), watermark)
    }

    constructor ()
      ensures State() == NEW && fresh(facets)
    {
      advisories, documents, nextId, watermark := map[], map[], 0, None;
      facets := new FacetTables();
    }

    // UPDATE documents SET latest = ... WHERE id = ...; the precondition is the partial unique index,
    // which would otherwise abort the statement.
    method SetLatest(id: nat, latest: bool)
      requires id in documents
      requires latest ==> forall i :: i != id && IsLatest(Rows(), i) ==> documents[i].advisory != documents[id].advisory
      modifies this`documents
      ensures documents == old(documents)[id := old(documents)[id].(latest := Some(latest))]
    {
      documents := documents[id := documents[id].(latest := Some(latest))];
    }

    method SetHead(k: Key, id: nat)
      requires k in advisories
      modifies this`advisories
      ensures advisories == old(advisories)[k := old(advisories)[k].(head := Some(id))]
    {
      advisories := advisories[k := advisories[k].(head := Some(id))];
    }

    // The insert_document trigger. The old head is deposed before the new one is crowned: the other
    // order violates the precondition of SetLatest.
    method UpdateAdvisory(id: nat)
      requires Linked(Rows()) && id in documents && !IsLatest(Rows(), id)
      modifies this`documents, this`advisories
      ensures Rows() == Promoted(old(Rows()), id)
    {
      var k := documents[id].advisory;
      var leads := set i | i in documents && documents[i].latest == Some(true) && documents[i].advisory == k;
      assert forall h :: advisories[k].head == Some(h) ==> h in leads;
      if leads == {} {
        SetLatest(id, true);
        SetHead(k, id);
      } else {
        var lead :| lead in leads;
        assert advisories[k].head == Some(lead);
        if Newer(documents[id].doc, documents[lead].doc) {
          SetLatest(lead, false);
          SetLatest(id, true);
          SetHead(k, id);
        }
      }
    }

    method UpsertAdvisory(k: Key)
      modifies this`advisories
      ensures Rows() == Upserted(old(Rows()), k)
    {
      if k in advisories {
        advisories := advisories[k := advisories[k].(withdrawn := false)];
      } else {
        advisories := advisories[k := Advisory(None, false)];
      }
    }

    // INSERT INTO documents ... with its AFTER triggers, in the alphabetical order PostgreSQL fires them.
    method InsertDocument(k: Key, doc: Document)
      requires Linked(Rows()) && k in advisories && forall id :: id in documents ==> id < nextId
      modifies this`advisories, this`documents, this`nextId, facets
      ensures Rows() == Promoted(Appended(old(Rows()), k, doc), old(nextId))
      ensures facets.Contents() == Extracted(old(facets.Contents()), old(nextId), doc)
    {
      hide Linked, Promoted, CvesExtracted, ProductsExtracted;
      var id := nextId;
      AppendedLinked(Rows(), k, doc);
      documents := documents[id := Row(k, None, doc)];
      nextId := nextId + 1;
      assert Rows() == Appended(old(Rows()), k, doc);
      facets.ExtractCves(id, doc);
      facets.ExtractProducts(id, doc);
      UpdateAdvisory(id);
    }

    // One transaction: upsert, insert, commit. A failed insert or a failed commit rolls everything back.
    method StoreDocument(k: Key, doc: Document, commits: bool) returns (r: Outcome)
      requires Inv(Rows())
      modifies this`advisories, this`documents, this`nextId, facets
      ensures r == StoreOutcome(old(State()), k, doc, commits)
      ensures State() == if r == Failed then old(State()) else StoredDb(old(State()), k, doc)
      ensures Inv(Rows())
    {
      hide Linked, UniqueRevisions, SameRevision, Promoted, Extracted;
      var before := (advisories, documents, nextId, facets.Snapshot());
      StoredKeepsInv(Rows(), k, doc);
      UpsertedLinked(Rows(), k);
      UpsertAdvisory(k);
      if Insertable(doc) {
        if Conflicts(Tables(advisories, documents, nextId), k, doc) {
          r := Duplicate;
        } else {
          InsertDocument(k, doc);
          r := Inserted;
        }
      } else {
        r := Failed;
      }
      if r == Failed || !commits {
        advisories, documents, nextId := before.0, before.1, before.2;
        facets.Restore(before.3);
        r := Failed;
      }
    }

    method CountActiveAdvisories() returns (n: int)
      ensures n == |Active(Rows())|
    {
      n := |set k | k in advisories && !advisories[k].withdrawn|;
    }

    // The present keys travel as two parallel arrays that unnest pairs up again.
    method TombstoneAbsent(present: seq<Key>) returns (withdrawn: int)
      modifies this`advisories
      ensures Rows() == Swept(old(Rows()), set k | k in present)
      ensures withdrawn == |Active(old(Rows())) - Active(Rows())|
    {
      var trackingIds, publishers := KeyArrays(present);
      var listed := Unnest(trackingIds, publishers);
      UnnestGivesKeys(present, trackingIds, publishers);
      SweepStatement(Rows(), listed);
      withdrawn := |Hit(advisories, listed)|;
      advisories := Marked(advisories, Hit(advisories, listed));
    }

    method SetWatermark(now: int)
      modifies this`watermark
      ensures watermark == Some(now)
    {
      watermark := Some(now);
    }

    // SELECT id ... ORDER BY current_release_date DESC, rev_history_length DESC: the first row, any on ties.
    method FirstByDate(ids: set<nat>) returns (first: nat)
      requires ids != {} && forall i :: i in ids ==> i in documents
      ensures first in ids && forall i :: i in ids ==> !SortsBefore(documents[i].doc, documents[first].doc)
    {
      first :| first in ids;
      var seen := {first};
      while seen != ids
        invariant first in seen && seen <= ids
        invariant forall i :: i in seen ==> !SortsBefore(documents[i].doc, documents[first].doc)
        decreases ids - seen
      {
        assert ids - seen != {};
        var next :| next in ids - seen;
        if SortsBefore(documents[next].doc, documents[first].doc) {
          first := next;
        }
        seen := seen + {next};
      }
    }

    // DELETE FROM documents for one row, its cascades and the delete_document trigger.
    method DeleteDocument(id: nat) returns (lead: Option<nat>)
      requires Inv(Rows()) && id in documents
      modifies this`advisories, this`documents, facets
      ensures DeleteEnabled(old(Rows()), id, lead)
      ensures Rows() == Deleted(old(Rows()), id, lead)
      ensures facets.Contents() == Cascaded(old(facets.Contents()), id)
    {
      hide UniqueRevisions, SortsBefore, Cascaded;
      var row := documents[id];
      if row.latest == Some(true) {
        HeadRemoved(Rows(), id);
      }
      hide Linked;
      documents := documents - {id};
      facets.CascadeDelete(id);
      lead := None;
      if row.latest == Some(true) {
        var rest := set i | i in documents && documents[i].advisory == row.advisory;
        if rest != {} {
          var first := FirstByDate(rest);
          SetLatest(first, true);
          SetHead(row.advisory, first);
          lead := Some(first);
        } else {
          advisories := advisories - {row.advisory};
        }
      }
    }
  }
}
