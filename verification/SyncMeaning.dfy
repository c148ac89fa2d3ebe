/** What an upsert of a sync state leaves in either store, in the fields of the state and of the input
    (packages/db/src/repository.ts:432-492, packages/db/src/postgres.ts:475-523). */
module SyncMeaning {
  import opened Sequences
  import opened SyncState
  import opened SyncRows

  // ----- what is written -----

  /** What every upsert stores, whichever store and whether or not there was a state: the input's own. */
  predicate TakesInput(x: State, input: Input, now: int) {
    && x.repoRef == input.repoRef && x.subject == input.subject && x.required == input.required
    && x.lastSyncedAt == (if input.lastSyncedAt.Some? then input.lastSyncedAt.value else now)
  }

  /** A property the input has is the input's; one it lacks is the former state's. */
  ghost predicate KeepsProperties(x: State, former: State, input: Input) {
    && (forall p :: p in x.optional <==> p in input.optional || p in former.optional)
    && (forall p :: p in x.optional ==> x.optional[p] == if p in input.optional then input.optional[p] else former.optional[p])
  }

  /** The state is the one the in-memory store looks for: it has the given id, or is filed under the input's key. */
  predicate Sought(s: State, input: Input) {
    input.id == Some(s.id) || (s.repoRef == input.repoRef && s.subject == input.subject)
  }

  /** The array after an upsert: the first state sought is written in its place and keeps its id and the properties the input
      lacks; without one, a new state comes last, with the given or the made id and the input's properties alone. */
  lemma UpsertedIs(states: seq<State>, input: Input, made: Id, now: int, i: nat)
    requires i <= |states| && (forall j :: 0 <= j < i ==> !Sought(states[j], input)) && (i < |states| ==> Sought(states[i], input))
    ensures var after := Upsert(states, input, made, now);
            && |after| == (if i < |states| then |states| else |states| + 1)
            && (forall j :: 0 <= j < |states| && j != i ==> after[j] == states[j])
            && TakesInput(after[i], input, now)
            && (i < |states| ==> after[i].id == states[i].id && KeepsProperties(after[i], states[i], input))
            && (i == |states| ==> after[i].id == (if input.id.Some? then input.id.value else made) && after[i].optional == input.optional)
  {
    assert forall s: State :: Matches(input)(s) <==> Sought(s, input);
    assert FirstIndex(Matches(input), states) == i;
  }

  /** The row Postgres selects: the one with the given id unless that is empty, else the one under the input's key. */
  predicate Selected(r: State, input: Input) {
    if input.id.Some? && input.id.value != "" then r.id == input.id.value
    else r.repoRef == input.repoRef && r.subject == input.subject
  }

  /** The table after an upsert that goes through: the selected row is written over and keeps its id and nothing else; without
      one, a new row is added; the other rows stay. */
  lemma RowUpsertedIs(rows: seq<State>, input: Input, made: Id, now: int, x: State)
    requires UniqueIds(rows) && UniqueKeys(rows) && UpsertRow(rows, input, made, now).Some?
    requires x == Written(rows, input, made, now)
    ensures var after := UpsertRow(rows, input, made, now).value;
            && TakesInput(x, input, now) && x.optional == input.optional
            && (if exists r :: r in rows && Selected(r, input) then
                  exists r :: r in rows && Selected(r, input) && x.id == r.id && forall y :: y in after <==> y == x || (y in rows && y != r)
                else
                  x.id == (if input.id.Some? then input.id.value else made) && after == rows + [x])
  {
    var found := RowFor(rows, input);
    assert forall s: State :: RowKey(input)(s) <==> Selected(s, input);
    if found.Some? {
      SelectedWrittenOver(rows, input, made, now, found.value);
    }
  }

  lemma SelectedWrittenOver(rows: seq<State>, input: Input, made: Id, now: int, r: State)
    requires UniqueIds(rows) && UpsertRow(rows, input, made, now).Some? && RowFor(rows, input) == Some(r)
    ensures var after, x := UpsertRow(rows, input, made, now).value, Written(rows, input, made, now);
            r in rows && x.id == r.id && forall y :: y in after <==> y == x || (y in rows && y != r)
  {
    var x := Written(rows, input, made, now);
    FilterMembers(OtherThan(x.id), rows);
    forall y | y in rows && y != r
      ensures y.id != r.id
    {
      var i :| 0 <= i < |rows| && rows[i] == y;
      var j :| 0 <= j < |rows| && rows[j] == r;
    }
  }

  /** Postgres throws exactly when a row other than the selected one has the written row's id or key. */
  lemma ThrowsExactly(rows: seq<State>, input: Input, made: Id, now: int)
    requires UniqueIds(rows)
    ensures var x := Written(rows, input, made, now);
            (UpsertRow(rows, input, made, now).None?)
              <==> exists y :: y in rows && RowFor(rows, input) != Some(y) && (y.id == x.id || (y.repoRef == x.repoRef && y.subject == x.subject))
  {
    var found, x := RowFor(rows, input), Written(rows, input, made, now);
    var others := if found.Some? then Filter(OtherThan(x.id), rows) else rows;
    FilterMembers(OtherThan(x.id), rows);
    FoundIn(WithId(x.id), others);
    FoundIn(FiledUnder(x.repoRef, x.subject), others);
    forall y | y in rows
      ensures y in others <==> found != Some(y)
    {
      if found.Some? && y.id == x.id {
        var i :| 0 <= i < |rows| && rows[i] == y;
        var j :| 0 <= j < |rows| && rows[j] == found.value;
      }
    }
  }

  // ----- what is read -----

  /** A get answers with the first state for the subject whose reference, or repo id, is the one asked for. */
  lemma GetIs(states: seq<State>, ref: string, subject: Subject, i: nat)
    requires i < |states|
    ensures Get(states, ref, subject).None?
       <==> forall s :: s in states && s.subject == subject ==> s.repoRef != ref && !("repoId" in s.optional && s.optional["repoId"] == Some(ref))
    ensures (states[i].subject == subject && (states[i].repoRef == ref || ("repoId" in states[i].optional && states[i].optional["repoId"] == Some(ref))))
         && (forall j :: 0 <= j < i ==>
               !(states[j].subject == subject
                 && (states[j].repoRef == ref || ("repoId" in states[j].optional && states[j].optional["repoId"] == Some(ref)))))
      ==> Get(states, ref, subject) == Some(states[i])
  {
  }

  /** After an upsert without an id, while no repo id is a reference, reading the key gives what the call stored: the input's
      own properties, its time or now, and the id the state had or the made one. */
  lemma ReadsBack(states: seq<State>, input: Input, made: Id, now: int)
    requires UniqueKeys(states) && input.id.None? && Disjoint(states, input)
    ensures var r := Get(Upsert(states, input, made, now), input.repoRef, input.subject);
            && r.Some? && TakesInput(r.value, input, now)
            && (forall p :: p in input.optional ==> p in r.value.optional && r.value.optional[p] == input.optional[p])
            && (r.value.id == made || exists s :: s in states && s.repoRef == input.repoRef && s.subject == input.subject && s.id == r.value.id)
  {
    GetAfterUpsertExactly(states, input, made, now);
    var i := FirstIndex(Matches(input), states);
    UpsertedIs(states, input, made, now, i);
    if i < |states| {
      assert states[i] in states;
    }
  }
}
