/** The Postgres upserts of sync states, with the table's constraints, and runs of them against the in-memory ones
    (packages/db/src/postgres.ts:475-513, infra/migrations/0001_initial_aichestra_schema.sql:122-162). */
module SyncRows {
  import opened Sequences
  import opened SyncState

  function OtherThan(id: Id): State -> bool {
    (s: State) => s.id != id
  }

  /** Would the row break PRIMARY KEY (id) or UNIQUE (repo_ref, subject) next to these rows? */
  predicate Clashes(rows: seq<State>, row: State) {
    Find(WithId(row.id), rows).Some? || Find(FiledUnder(row.repoRef, row.subject), rows).Some?
  }

  /** The row that is written: over the selected one, or a new one. */
  function Written(rows: seq<State>, input: Input, made: Id, now: int): State {
    match RowFor(rows, input)
    case Some(row) => Overwrite(row, input, now)
    case None => New(input, made, now)
  }

  /** The table after the statement, or None where a constraint makes it throw. The written row may end up anywhere; it
      is put last. */
  function UpsertRow(rows: seq<State>, input: Input, made: Id, now: int): Option<seq<State>> {
    var row := Written(rows, input, made, now);
    var others := if RowFor(rows, input).Some? then Filter(OtherThan(row.id), rows) else rows;
    if Clashes(others, row) then None else Some(others + [row])
  }

  lemma FoundIn(p: State -> bool, s: seq<State>)
    ensures Find(p, s).Some? <==> exists x :: x in s && p(x)
  {
  }

  /** A row that replaces the selected one clashes exactly with another row under its key. */
  lemma OverwriteClashes(rows: seq<State>, row: State)
    requires UniqueIds(rows)
    ensures Clashes(Filter(OtherThan(row.id), rows), row)
       <==> exists r :: r in rows && r.id != row.id && FiledUnder(row.repoRef, row.subject)(r)
  {
    var others := Filter(OtherThan(row.id), rows);
    FilterMembers(OtherThan(row.id), rows);
    FoundIn(WithId(row.id), others);
    FoundIn(FiledUnder(row.repoRef, row.subject), others);
  }

  /** Some state other than the one at i is filed under the input's key. */
  ghost predicate OtherFiled(states: seq<State>, i: nat, input: Input) {
    exists j :: 0 <= j < |states| && j != i && FiledUnder(input.repoRef, input.subject)(states[j])
  }

  lemma OtherFiledIsRow(states: seq<State>, rows: seq<State>, i: nat, input: Input)
    requires UniqueIds(states) && SameElements(states, rows) && i < |states|
    ensures OtherFiled(states, i, input)
       <==> exists r :: r in rows && r.id != states[i].id && FiledUnder(input.repoRef, input.subject)(r)
  {
    if j :| 0 <= j < |states| && j != i && FiledUnder(input.repoRef, input.subject)(states[j]) {
      assert states[j] in states && states[j] in rows;
    }
    if r :| r in rows && r.id != states[i].id && FiledUnder(input.repoRef, input.subject)(r) {
      var j :| 0 <= j < |states| && states[j] == r;
    }
  }

  lemma OverwriteThrowsExactly(states: seq<State>, rows: seq<State>, input: Input, made: Id, now: int, i: nat)
    requires UniqueIds(states) && UniqueIds(rows) && SameElements(states, rows)
    requires i < |states| && RowFor(rows, input) == Some(states[i])
    ensures UpsertRow(rows, input, made, now).None? <==> OtherFiled(states, i, input)
  {
    OverwriteClashes(rows, Written(rows, input, made, now));
    OtherFiledIsRow(states, rows, i, input);
  }

  lemma InsertNeverThrows(states: seq<State>, rows: seq<State>, input: Input, made: Id, now: int)
    requires SameElements(states, rows) && RowFor(rows, input).None?
    requires forall s :: s in states ==> s.id != made && !Matches(input)(s)
    ensures UpsertRow(rows, input, made, now).Some?
  {
    var row := New(input, made, now);
    FoundIn(WithId(row.id), rows);
    FoundIn(FiledUnder(row.repoRef, row.subject), rows);
  }

  /** Where both stores pick the same state, Postgres throws exactly where the in-memory store would go on with two states
      under one key. */
  lemma ConstraintCatchesExactly(states: seq<State>, rows: seq<State>, input: Input, made: Id, now: int)
    requires UniqueKeys(states) && UniqueIds(states) && UniqueIds(rows) && SameElements(states, rows)
    requires PicksWillAgree(states, input) && forall s :: s in states ==> s.id != made
    ensures UpsertRow(rows, input, made, now).None? <==> !UniqueKeys(Upsert(states, input, made, now))
  {
    LookupsAgreeExactly(states, rows, input);
    KeysStayUniqueExactly(states, input, made, now);
    var i := FirstIndex(Matches(input), states);
    if i < |states| {
      OverwriteThrowsExactly(states, rows, input, made, now, i);
    } else {
      InsertNeverThrows(states, rows, input, made, now);
    }
  }

  // ----- runs -----

  /** The same state in both stores, up to the optional properties. */
  predicate Alike(s: State, r: State) {
    s.id == r.id && s.repoRef == r.repoRef && s.subject == r.subject && s.required == r.required && s.lastSyncedAt == r.lastSyncedAt
  }

  ghost predicate HasRow(rows: seq<State>, s: State) {
    exists r :: r in rows && Alike(s, r)
  }

  ghost predicate HasState(states: seq<State>, r: State) {
    exists s :: s in states && Alike(s, r)
  }

  ghost predicate Mirrors(states: seq<State>, rows: seq<State>) {
    && UniqueKeys(states) && UniqueIds(states) && UniqueKeys(rows) && UniqueIds(rows)
    && (forall s :: s in states ==> HasRow(rows, s))
    && (forall r :: r in rows ==> HasState(states, r))
  }

  /** y is the written state, or one of the others. */
  ghost predicate Replaces(before: seq<State>, after: seq<State>, x: State) {
    forall y :: y in after <==> y == x || (y in before && KeyOf(y) != KeyOf(x))
  }

  lemma MemoryReplaces(states: seq<State>, input: Input, made: Id, now: int)
    requires UniqueKeys(states) && input.id.None?
    ensures Replaces(states, Upsert(states, input, made, now), Stored(ViewOf(states), input, made, now))
  {
    var i := FirstIndex(Matches(input), states);
    var after, x := Upsert(states, input, made, now), Stored(ViewOf(states), input, made, now);
    MatchedInView(states, input);
    if i < |states| {
      assert after == states[i := x];
      forall y | y in states && KeyOf(y) != KeyOf(x)
        ensures y in after
      {
        var j :| 0 <= j < |states| && states[j] == y;
        assert after[j] == y;
      }
      assert after[i] == x;
    } else {
      assert forall y :: y in states ==> !Matches(input)(y);
    }
  }

  lemma RowsReplaces(rows: seq<State>, input: Input, made: Id, now: int)
    requires UniqueKeys(rows) && UniqueIds(rows) && input.id.None? && forall r :: r in rows ==> r.id != made
    ensures var after := UpsertRow(rows, input, made, now);
            && after.Some? && UniqueKeys(after.value) && UniqueIds(after.value)
            && Replaces(rows, after.value, Written(rows, input, made, now))
  {
    var row := Written(rows, input, made, now);
    var found := RowFor(rows, input);
    if found.Some? {
      var others := Filter(OtherThan(row.id), rows);
      FilterMembers(OtherThan(row.id), rows);
      OthersUnique(OtherThan(row.id), rows);
      forall r | r in rows
        ensures r.id == row.id <==> KeyOf(r) == KeyOf(row)
      {
        OneState(rows, r, found.value);
      }
      assert forall k :: 0 <= k < |others| ==> others[k] in others;
    } else {
      assert forall r :: r in rows ==> !RowKey(input)(r);
      assert forall k :: 0 <= k < |rows| ==> rows[k] in rows;
    }
  }

  lemma OneState(rows: seq<State>, a: State, b: State)
    requires UniqueKeys(rows) && UniqueIds(rows) && a in rows && b in rows
    ensures a.id == b.id <==> a == b
    ensures KeyOf(a) == KeyOf(b) <==> a == b
  {
    var i :| 0 <= i < |rows| && rows[i] == a;
    var j :| 0 <= j < |rows| && rows[j] == b;
    assert i < j || j < i || i == j;
  }

  lemma {:induction false} OthersUnique(p: State -> bool, rows: seq<State>)
    requires UniqueKeys(rows) && UniqueIds(rows)
    ensures UniqueKeys(Filter(p, rows)) && UniqueIds(Filter(p, rows))
  {
    if rows != [] {
      var rest := rows[1..];
      assert forall r :: r in rest ==> KeyOf(r) != KeyOf(rows[0]) && r.id != rows[0].id;
      assert forall i :: 0 <= i < |rest| ==> rest[i] == rows[i + 1];
      OthersUnique(p, rest);
      FilterMembers(p, rest);
      UniqueCons(rows[0], Filter(p, rest));
    }
  }

  lemma UniqueCons(x: State, rest: seq<State>)
    requires UniqueKeys(rest) && UniqueIds(rest)
    requires forall r :: r in rest ==> KeyOf(r) != KeyOf(x) && r.id != x.id
    ensures UniqueKeys([x] + rest) && UniqueIds([x] + rest)
  {
    var all := [x] + rest;
    forall i, j | 0 <= i < j < |all|
      ensures KeyOf(all[i]) != KeyOf(all[j]) && all[i].id != all[j].id
    {
      assert all[j] == rest[j - 1] && all[j] in rest;
      assert i > 0 ==> all[i] == rest[i - 1];
    }
  }

  lemma RowUnderKey(rows: seq<State>, input: Input, r: State)
    requires UniqueKeys(rows) && UniqueIds(rows) && input.id.None? && r in rows && KeyOf(r) == (input.repoRef, input.subject)
    ensures RowFor(rows, input) == Some(r)
  {
    assert RowKey(input)(r);
    OneState(rows, r, RowFor(rows, input).value);
  }

  lemma FoundAlike(states: seq<State>, rows: seq<State>, input: Input, s: State)
    requires Mirrors(states, rows) && input.id.None? && s in states && KeyOf(s) == (input.repoRef, input.subject)
    ensures RowFor(rows, input).Some? && Alike(s, RowFor(rows, input).value)
  {
    assert HasRow(rows, s);
    var r :| r in rows && Alike(s, r);
    RowUnderKey(rows, input, r);
  }

  lemma NoneFiled(states: seq<State>, rows: seq<State>, input: Input)
    requires Mirrors(states, rows) && input.id.None? && forall s :: s in states ==> !Matches(input)(s)
    ensures RowFor(rows, input).None?
  {
    forall r | r in rows
      ensures !RowKey(input)(r)
    {
      assert HasState(states, r);
      var s :| s in states && Alike(s, r);
      assert !Matches(input)(s);
    }
  }

  /** Both stores write alike states: onto alike ones, or new ones. */
  lemma WrittenAlike(states: seq<State>, rows: seq<State>, input: Input, made: Id, now: int)
    requires Mirrors(states, rows) && input.id.None?
    ensures Alike(Stored(ViewOf(states), input, made, now), Written(rows, input, made, now))
  {
    MatchedInView(states, input);
    var i := FirstIndex(Matches(input), states);
    if i < |states| {
      FoundAlike(states, rows, input, states[i]);
    } else {
      NoneFiled(states, rows, input);
    }
  }

  lemma RowAfter(states: seq<State>, rows: seq<State>, after: seq<State>, afterRows: seq<State>, x: State, y: State, s: State)
    requires Mirrors(states, rows) && Alike(x, y) && Replaces(states, after, x) && Replaces(rows, afterRows, y) && s in after
    ensures HasRow(afterRows, s)
  {
    if s == x {
      assert y in afterRows;
    } else {
      assert HasRow(rows, s);
      var r :| r in rows && Alike(s, r);
      assert KeyOf(r) != KeyOf(y) && r in afterRows;
    }
  }

  lemma StateAfter(states: seq<State>, rows: seq<State>, after: seq<State>, afterRows: seq<State>, x: State, y: State, r: State)
    requires Mirrors(states, rows) && Alike(x, y) && Replaces(states, after, x) && Replaces(rows, afterRows, y) && r in afterRows
    ensures HasState(after, r)
  {
    if r == y {
      assert x in after;
    } else {
      assert HasState(states, r);
      var s :| s in states && Alike(s, r);
      assert KeyOf(s) != KeyOf(x) && s in after;
    }
  }

  lemma AlikeAfter(states: seq<State>, rows: seq<State>, after: seq<State>, afterRows: seq<State>, x: State, y: State)
    requires Mirrors(states, rows) && Alike(x, y) && Replaces(states, after, x) && Replaces(rows, afterRows, y)
    requires UniqueKeys(after) && UniqueIds(after) && UniqueKeys(afterRows) && UniqueIds(afterRows)
    ensures Mirrors(after, afterRows)
  {
    forall s | s in after
      ensures HasRow(afterRows, s)
    {
      RowAfter(states, rows, after, afterRows, x, y, s);
    }
    forall r | r in afterRows
      ensures HasState(after, r)
    {
      StateAfter(states, rows, after, afterRows, x, y, r);
    }
  }

  /** createId made the ids of all calls, so none is in use when its call comes. */
  ghost predicate FreshCalls(states: seq<State>, calls: seq<Call>)
    decreases |calls|
  {
    calls == []
    || (&& calls[0].input.id.None? && (forall s :: s in states ==> s.id != calls[0].made)
        && FreshCalls(Upsert(states, calls[0].input, calls[0].made, calls[0].now), calls[1..]))
  }

  function UpsertRows(rows: seq<State>, calls: seq<Call>): Option<seq<State>>
    decreases |calls|
  {
    if calls == [] then Some(rows)
    else
      var first := UpsertRow(rows, calls[0].input, calls[0].made, calls[0].now);
      if first.None? then None else UpsertRows(first.value, calls[1..])
  }

  lemma FreshInRows(states: seq<State>, rows: seq<State>, made: Id)
    requires Mirrors(states, rows) && forall s :: s in states ==> s.id != made
    ensures forall r :: r in rows ==> r.id != made
  {
    forall r | r in rows
      ensures r.id != made
    {
      assert HasState(states, r);
      var s :| s in states && Alike(s, r);
    }
  }

  lemma MemoryStaysUnique(states: seq<State>, input: Input, made: Id, now: int)
    requires UniqueKeys(states) && UniqueIds(states) && input.id.None? && forall s :: s in states ==> s.id != made
    ensures UniqueKeys(Upsert(states, input, made, now)) && UniqueIds(Upsert(states, input, made, now))
  {
    KeysStayUnique(states, input, made, now);
    assert forall k :: 0 <= k < |states| ==> states[k] in states;
    IdsStayUnique(states, input, made, now);
  }

  lemma CallMirrors(states: seq<State>, rows: seq<State>, input: Input, made: Id, now: int)
    requires Mirrors(states, rows) && input.id.None? && forall s :: s in states ==> s.id != made
    ensures var after := UpsertRow(rows, input, made, now);
            after.Some? && Mirrors(Upsert(states, input, made, now), after.value)
  {
    FreshInRows(states, rows, made);
    MemoryReplaces(states, input, made, now);
    RowsReplaces(rows, input, made, now);
    WrittenAlike(states, rows, input, made, now);
    MemoryStaysUnique(states, input, made, now);
    AlikeAfter(states, rows, Upsert(states, input, made, now), UpsertRow(rows, input, made, now).value,
               Stored(ViewOf(states), input, made, now), Written(rows, input, made, now));
  }

  /** Over every run of upserts without explicit ids, no constraint ever throws, and table and array hold the same states:
      ids, keys, required properties and times. Optional properties come apart exactly as MergeIsOverwriteExactly says. */
  lemma {:induction false} RunsMirror(states: seq<State>, rows: seq<State>, calls: seq<Call>)
    requires Mirrors(states, rows) && FreshCalls(states, calls)
    ensures UpsertRows(rows, calls).Some? && Mirrors(UpsertAll(states, calls), UpsertRows(rows, calls).value)
    decreases |calls|
  {
    if calls != [] {
      var c := calls[0];
      CallMirrors(states, rows, c.input, c.made, c.now);
      RunsMirror(Upsert(states, c.input, c.made, c.now), UpsertRow(rows, c.input, c.made, c.now).value, calls[1..]);
    }
  }

  // ----- the store's table -----

  class SyncTable {
    var rows: seq<State>

    constructor ()
      ensures rows == []
    {
      rows := [];
    }

    /** None where the statement throws; the table is then as it was. */
    method UpsertState(input: Input, made: Id, now: int) returns (r: Option<State>)
      modifies this`rows
      ensures r == if UpsertRow(old(rows), input, made, now).Some? then Some(Written(old(rows), input, made, now)) else None
      ensures rows == UpsertRow(old(rows), input, made, now).GetOr(old(rows))
    {
      var existing := RowFor(rows, input);
      if existing.Some? {
        var state := Overwrite(existing.value, input, now);
        var others := Filter(OtherThan(state.id), rows);
        if Clashes(others, state) {
          return None;
        }
        rows := others + [state];
        return Some(state);
      }
      var state := New(input, made, now);
      if Clashes(rows, state) {
        return None;
      }
      rows := rows + [state];
      r := Some(state);
    }
  }
}
