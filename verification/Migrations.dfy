/** The migration runner, with a crash possible before any of its transactions commits. */
module Migrations {
  import opened Text

  // A committed migration script: the setup of a binary carries every change of its list, an increment its own.
  datatype Script = Setup(migs: seq<nat>) | Increment(version: nat)

  // The versions table (None until setup creates it) and the scripts whose effects the schema holds.
  datatype Schema = Schema(versions: Option<set<nat>>, scripts: seq<Script>)

  const FRESH := Schema(None, [])

  ghost predicate IsMax(s: set<nat>, m: nat) {
    m in s && forall x :: x in s ==> x <= m
  }

  lemma {:induction false} MaxExists(s: set<nat>)
    requires s != {}
    ensures exists m :: IsMax(s, m)
  {
    var y :| y in s;
    if s == {y} {
      assert IsMax(s, y);
    } else {
      var rest := s - {y};
      assert rest != {};
      MaxExists(rest);
      var m :| IsMax(rest, m);
      var top := if m < y then y else m;
      assert s == rest + {y};
      assert IsMax(s, top);
    }
  }

  function Max(s: set<nat>): (m: nat)
    requires s != {}
    ensures IsMax(s, m)
  {
    MaxExists(s);
    var m :| m in s && forall x :: x in s ==> x <= m;
    m
  }

  // SELECT coalesce(max(version), -1), or -1 when there is no table.
  function Current(s: Schema): int {
    if s.versions.None? || s.versions.value == {} then -1 else Max(s.versions.value)
  }

  // The incrementals newer than the recorded version, in order.
  function Pending(migs: seq<nat>, current: int): seq<nat> {
    if migs == [] then []
    else if migs[0] <= current then Pending(migs[1..], current)
    else [migs[0]] + Pending(migs[1..], current)
  }

  // applyMigration of an increment in an existing schema; None is a primary key violation.
  function Incremented(s: Schema, v: nat): Option<Schema> {
    if s.versions.None? || v in s.versions.value then None
    else Some(Schema(Some(s.versions.value + {v}), s.scripts + [Increment(v)]))
  }

  // The transactions of one run, of which only `budget` get to commit.
  function Taken(s: Schema, pending: seq<nat>, budget: nat): (Schema, bool)
    decreases pending
  {
    if pending == [] then (s, true)
    else if budget == 0 || Incremented(s, pending[0]).None? then (s, false)
    else Taken(Incremented(s, pending[0]).value, pending[1..], budget - 1)
  }

  // One Migrate call; false is an error return or a crash.
  function Migrated(s: Schema, migs: seq<nat>, budget: nat): (Schema, bool) {
    if migs == [] then (s, false)
    else if Current(s) >= migs[|migs| - 1] then (s, true)
    else if Current(s) >= 0 then Taken(s, Pending(migs, Current(s)), budget)
    else if migs[0] != 0 || s.versions.Some? || budget == 0 then (s, false)
    else (Schema(Some({migs[|migs| - 1]}), s.scripts + [Setup(migs)]), true)
  }

  class Runner {
    var versions: Option<set<nat>>
    var scripts: seq<Script>

    ghost function State(): Schema
      reads this
    {
      Schema(versions, scripts)
    }

    // One transaction: the script, the versions row, the commit. Setup is recorded as the latest version.
    method ApplyMigration(version: nat, migs: seq<nat>, commits: bool) returns (ok: bool)
      requires migs != [] && (versions.None? ==> version == 0)
      modifies this
      ensures version > 0 ==>
        State() == (if ok then Incremented(old(State()), version).GetOr(old(State())) else old(State()))
        && (ok <==> commits && Incremented(old(State()), version).Some?)
      ensures version == 0 ==>
        State() == (if ok then Schema(Some({migs[|migs| - 1]}), old(scripts) + [Setup(migs)]) else old(State()))
        && (ok <==> commits && old(versions).None?)
    {
      var recorded := version;
      if recorded == 0 {
        recorded := migs[|migs| - 1];
      }
      // CREATE TABLE versions fails when the table is there.
      if version == 0 && versions.Some? {
        return false;
      }
      var table := versions.GetOr({});
      if recorded in table || !commits {
        return false;
      }
      assert versions.None? ==> table + {recorded} == {recorded};
      versions := Some(table + {recorded});
      scripts := scripts + [if version == 0 then Setup(migs) else Increment(version)];
      return true;
    }

    method Migrate(migs: seq<nat>, budget: nat) returns (ok: bool)
      requires forall i, j :: 0 <= i < j < |migs| ==> migs[i] < migs[j]
      modifies this
      ensures (State(), ok) == Migrated(old(State()), migs, budget)
    {
      if |migs| == 0 {
        return false;
      }
      var current := Current(Schema(versions, scripts));
      var latest := migs[|migs| - 1];
      if current >= latest {
        return true;
      }
      if current < 0 {
        if migs[0] != 0 || versions.Some? {
          return false;
        }
        ok := ApplyMigration(0, migs, budget > 0);
        return;
      }
      var left := budget;
      for i := 0 to |migs|
        invariant versions.Some?
        invariant Taken(State(), Pending(migs[i..], current), left) == Taken(old(State()), Pending(migs, current), budget)
      {
        assert migs[i..][0] == migs[i] && migs[i..][1..] == migs[i + 1..];
        if migs[i] > current {
          assert Pending(migs[i..], current)[1..] == Pending(migs[i + 1..], current);
          var committed := ApplyMigration(migs[i], migs, left > 0);
          if !committed {
            return false;
          }
          left := left - 1;
        }
      }
      return true;
    }
  }

  // ---------- Every run of binaries and crashes ----------

  ghost predicate Increasing(migs: seq<nat>) {
    forall i, j :: 0 <= i < j < |migs| ==> migs[i] < migs[j]
  }

  // The changes the schema holds, in the order they came.
  function Changes(scripts: seq<Script>): seq<nat> {
    if scripts == [] then []
    else
      var last := scripts[|scripts| - 1];
      Changes(scripts[..|scripts| - 1]) + if last.Setup? then last.migs else [last.version]
  }

  // The schema holds a prefix of all known changes, each exactly once and in order, and the newest recorded
  // version is the last of them.
  ghost predicate Good(all: seq<nat>, s: Schema) {
    if s.versions.None? then s.scripts == []
    else
      && s.versions.value != {}
      && Changes(s.scripts) != [] && Changes(s.scripts) <= all
      && Current(s) == Changes(s.scripts)[|Changes(s.scripts)| - 1]
  }

  // A binary knows the changes up to some release.
  ghost predicate Release(all: seq<nat>, migs: seq<nat>) {
    migs != [] && migs <= all
  }

  // The transactions a call still has to commit: one for a fresh database, and else one for each change of the
  // release that the schema does not hold.
  function Needed(s: Schema, migs: seq<nat>): nat {
    if s.versions.None? then 1 else if |Changes(s.scripts)| >= |migs| then 0 else |migs| - |Changes(s.scripts)|
  }

  function Least(a: nat, b: nat): nat {
    if a < b then a else b
  }

  lemma ChangesAppend(scripts: seq<Script>, script: Script)
    ensures Changes(scripts + [script]) == Changes(scripts) + if script.Setup? then script.migs else [script.version]
  {
    assert (scripts + [script])[..|scripts|] == scripts;
  }

  lemma {:induction false} PendingIsRest(migs: seq<nat>, n: nat)
    requires Increasing(migs) && n <= |migs|
    ensures Pending(migs, if n == 0 then -1 else migs[n - 1]) == migs[n..]
    decreases migs
  {
    if n == 0 {
      NothingBelow(migs, -1);
    } else {
      var current := migs[n - 1];
      assert migs[0] <= current;
      if n == 1 {
        NothingBelow(migs[1..], current);
        assert migs[1..] == migs[n..];
      } else {
        PendingIsRest(migs[1..], n - 1);
        assert migs[1..][n - 2] == current && migs[1..][n - 1..] == migs[n..];
      }
    }
  }

  lemma {:induction false} NothingBelow(migs: seq<nat>, current: int)
    requires forall i :: 0 <= i < |migs| ==> migs[i] > current
    ensures Pending(migs, current) == migs
  {
    if migs != [] {
      NothingBelow(migs[1..], current);
    }
  }

  lemma MaxOfAdded(s: set<nat>, v: nat)
    requires s != {} && v > Max(s)
    ensures v !in s && Max(s + {v}) == v
  {
  }

  // The next increment of a release: its key does not collide, and the schema holds one change more.
  lemma IncrementedIsGood(all: seq<nat>, s: Schema, migs: seq<nat>, n: nat)
    requires Increasing(all) && Release(all, migs) && Good(all, s) && s.versions.Some?
    requires 0 < n < |migs| && Changes(s.scripts) == migs[..n]
    ensures var next := Incremented(s, migs[n]);
      && next.Some? && next.value.versions.Some?
      && next.value.scripts == s.scripts + [Increment(migs[n])]
      && Changes(next.value.scripts) == migs[..n + 1]
      && Good(all, next.value)
  {
    var v := migs[n];
    assert migs[..n][n - 1] == migs[n - 1] && migs[n - 1] == all[n - 1] && v == all[n];
    MaxOfAdded(s.versions.value, v);
    ChangesAppend(s.scripts, Increment(v));
    assert migs[..n] + [v] == migs[..n + 1];
    assert migs[..n + 1] <= all;
    hide Max;
  }

  // Taking the rest of a release, one transaction at a time: no key ever collides, and the schema stays
  // good wherever the budget ends.
  lemma {:induction false} TakenIsGood(all: seq<nat>, s: Schema, migs: seq<nat>, n: nat, budget: nat)
    requires Increasing(all) && Release(all, migs) && Good(all, s) && s.versions.Some?
    requires 0 < n <= |migs| && Changes(s.scripts) == migs[..n]
    ensures var (s', ok) := Taken(s, migs[n..], budget);
      && Good(all, s') && s.scripts <= s'.scripts && s'.versions.Some?
      && (ok <==> budget >= |migs| - n)
      && |s'.scripts| == |s.scripts| + Least(budget, |migs| - n)
      && (ok ==> Changes(s'.scripts) == migs)
    decreases |migs| - n
  {
    hide Good, Increasing, Release, Incremented, Changes;
    if n < |migs| {
      IncrementedIsGood(all, s, migs, n);
      assert migs[n..][0] == migs[n] && migs[n..][1..] == migs[n + 1..];
      if budget > 0 {
        TakenIsGood(all, Incremented(s, migs[n]).value, migs, n + 1, budget - 1);
      }
    } else {
      assert migs[..n] == migs && migs[n..] == [];
    }
  }

  lemma PrefixIndex(all: seq<nat>, a: seq<nat>, b: seq<nat>)
    requires Increasing(all) && a <= all && b <= all && a != [] && b != []
    ensures a[|a| - 1] < b[|b| - 1] <==> |a| < |b|
    ensures |a| <= |b| <==> a <= b
  {
  }

  lemma SetupIsGood(all: seq<nat>, migs: seq<nat>)
    requires Increasing(all) && Release(all, migs)
    ensures var s := Schema(Some({migs[|migs| - 1]}), [Setup(migs)]);
      Good(all, s) && Changes(s.scripts) == migs && Current(s) == migs[|migs| - 1]
  {
    ChangesAppend([], Setup(migs));
    assert [] + [Setup(migs)] == [Setup(migs)] && Changes([]) + migs == migs;
    MaxOfOne(migs[|migs| - 1]);
    hide Max, Increasing;
  }

  lemma MaxOfOne(v: nat)
    ensures Max({v}) == v
  {
  }

  // What a good schema that exists holds, and what a release still lacks.
  lemma HeldIsPrefix(all: seq<nat>, s: Schema, migs: seq<nat>)
    requires Increasing(all) && Release(all, migs) && Good(all, s) && s.versions.Some?
    ensures var held := Changes(s.scripts);
      && Current(s) >= 0
      && (Current(s) >= migs[|migs| - 1] <==> migs <= held)
      && (migs <= held <==> |migs| <= |held|)
      && (Current(s) < migs[|migs| - 1] ==>
            0 < |held| < |migs| && held == migs[..|held|] && Pending(migs, Current(s)) == migs[|held|..])
  {
    hide Max;
    var held := Changes(s.scripts);
    PrefixIndex(all, held, migs);
    PrefixIndex(all, migs, held);
    if Current(s) < migs[|migs| - 1] {
      assert held == migs[..|held|];
      PendingIsRest(migs, |held|);
    }
  }

  // One call by any release, cut off anywhere.
  lemma MigratedIsGood(all: seq<nat>, s: Schema, migs: seq<nat>, budget: nat)
    requires Increasing(all) && all != [] && all[0] == 0 && Release(all, migs) && Good(all, s)
    ensures var (s', ok) := Migrated(s, migs, budget);
      && Good(all, s') && s.scripts <= s'.scripts
      && (ok <==> budget >= Needed(s, migs))
      && |s'.scripts| == |s.scripts| + Least(budget, Needed(s, migs))
      && (ok ==> s'.versions.Some? && migs <= Changes(s'.scripts))
      && (ok && s.versions.None? ==> s'.scripts == [Setup(migs)])
  {
    hide Max, Changes, Increasing, Taken;
    if s.versions.None? {
      SetupIsGood(all, migs);
      assert s.scripts + [Setup(migs)] == [Setup(migs)];
    } else {
      HeldIsPrefix(all, s, migs);
      if Current(s) < migs[|migs| - 1] {
        TakenIsGood(all, s, migs, |Changes(s.scripts)|, budget);
      }
    }
  }

  datatype Call = Call(migs: seq<nat>, budget: nat)

  function CallsDone(s: Schema, calls: seq<Call>): Schema
    decreases calls
  {
    if calls == [] then s else CallsDone(Migrated(s, calls[0].migs, calls[0].budget).0, calls[1..])
  }

  // Over any sequence of calls, by any releases and cut off anywhere, the schema stays good and nothing
  // committed is undone.
  lemma {:induction false} CallsKeepGood(all: seq<nat>, s: Schema, calls: seq<Call>)
    requires Increasing(all) && all != [] && all[0] == 0 && Good(all, s)
    requires forall i :: 0 <= i < |calls| ==> Release(all, calls[i].migs)
    ensures Good(all, CallsDone(s, calls)) && s.scripts <= CallsDone(s, calls).scripts
    decreases calls
  {
    if calls != [] {
      MigratedIsGood(all, s, calls[0].migs, calls[0].budget);
      CallsKeepGood(all, Migrated(s, calls[0].migs, calls[0].budget).0, calls[1..]);
    }
  }

  // A completed call right after them leaves every change of its release in the schema exactly once, and an
  // immediate rerun succeeds without a transaction.
  lemma CompletedRun(all: seq<nat>, calls: seq<Call>, migs: seq<nat>, budget: nat)
    requires Increasing(all) && all != [] && all[0] == 0 && Release(all, migs)
    requires forall i :: 0 <= i < |calls| ==> Release(all, calls[i].migs)
    requires Migrated(CallsDone(FRESH, calls), migs, budget).1
    ensures var s := Migrated(CallsDone(FRESH, calls), migs, budget).0;
      && migs <= Changes(s.scripts) <= all
      && (forall i, j :: 0 <= i < j < |Changes(s.scripts)| ==> Changes(s.scripts)[i] != Changes(s.scripts)[j])
      && Migrated(s, migs, 0) == (s, true)
  {
    CallsKeepGood(all, FRESH, calls);
    MigratedIsGood(all, CallsDone(FRESH, calls), migs, budget);
    HeldIsPrefix(all, Migrated(CallsDone(FRESH, calls), migs, budget).0, migs);
  }

  // ---------- The versions table and the schema go together ----------

  // The version a script is recorded under.
  function RowOf(script: Script): Option<nat> {
    match script
    case Setup(migs) => if migs == [] then None else Some(migs[|migs| - 1])
    case Increment(v) => Some(v)
  }

  // Each committed script has its row, and each row its script.
  ghost predicate Recorded(s: Schema) {
    && (s.versions.None? <==> s.scripts == [])
    && (s.versions.Some? ==>
          forall v :: v in s.versions.value <==> exists i :: 0 <= i < |s.scripts| && RowOf(s.scripts[i]) == Some(v))
  }

  // No row of s is gone.
  predicate KeepsRows(s: Schema, s': Schema) {
    s.versions.Some? ==> s'.versions.Some? && s.versions.value <= s'.versions.value
  }

  lemma IncrementedRecorded(s: Schema, v: nat)
    requires Recorded(s) && Incremented(s, v).Some?
    ensures Recorded(Incremented(s, v).value) && KeepsRows(s, Incremented(s, v).value)
  {
    var next := Incremented(s, v).value;
    assert next.scripts[|s.scripts|] == Increment(v) && forall i :: 0 <= i < |s.scripts| ==> next.scripts[i] == s.scripts[i];
  }

  lemma {:induction false} TakenRecorded(s: Schema, pending: seq<nat>, budget: nat)
    requires Recorded(s)
    ensures Recorded(Taken(s, pending, budget).0) && KeepsRows(s, Taken(s, pending, budget).0)
    decreases pending
  {
    hide Recorded, Incremented;
    if pending != [] && budget > 0 && Incremented(s, pending[0]).Some? {
      IncrementedRecorded(s, pending[0]);
      TakenRecorded(Incremented(s, pending[0]).value, pending[1..], budget - 1);
    }
  }

  // A call, wherever it is cut off and whatever its list, leaves a row for each committed script and none besides,
  // and takes no row away.
  lemma MigratedRecorded(s: Schema, migs: seq<nat>, budget: nat)
    requires Recorded(s)
    ensures Recorded(Migrated(s, migs, budget).0) && KeepsRows(s, Migrated(s, migs, budget).0)
  {
    hide Taken, Pending, Max;
    TakenRecorded(s, Pending(migs, Current(s)), budget);
    if migs != [] && s.versions.None? {
      assert (s.scripts + [Setup(migs)])[0] == Setup(migs);
    }
  }

  lemma {:induction false} CallsRecorded(s: Schema, calls: seq<Call>)
    requires Recorded(s)
    ensures Recorded(CallsDone(s, calls)) && KeepsRows(s, CallsDone(s, calls))
    decreases calls
  {
    hide Recorded, Migrated;
    if calls != [] {
      MigratedRecorded(s, calls[0].migs, calls[0].budget);
      CallsRecorded(Migrated(s, calls[0].migs, calls[0].budget).0, calls[1..]);
    }
  }

  // Calls that commit nothing: an empty list, a first migration that is not setup, or a versions table without rows
  // are errors; a recorded version as new as the list is success.
  lemma IdleCalls(s: Schema, migs: seq<nat>, budget: nat)
    ensures migs == [] ==> Migrated(s, migs, budget) == (s, false)
    ensures migs != [] && migs[0] != 0 && (s.versions.None? || s.versions.value == {}) ==> Migrated(s, migs, budget) == (s, false)
    ensures migs != [] && s.versions == Some({}) ==> Migrated(s, migs, budget) == (s, false)
    ensures migs != [] && s.versions.Some? && (exists v :: v in s.versions.value && v >= migs[|migs| - 1]) ==>
      Migrated(s, migs, budget) == (s, true)
  {
  }
}
