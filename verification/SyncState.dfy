/** Upserts of pull-request and branch sync states (packages/db/src/repository.ts:432-492 and
    packages/db/src/postgres.ts:475-523). A state is filed under a repo reference and a subject: the pull request
    number, or the branch name. */
module SyncState {
  import opened Sequences

  type Id = string
  datatype Subject = PullRequest(number: int) | Branch(name: string)

  /** The optional properties of a record; a property may be present and undefined. */
  type Optionals = map<string, Option<string>>

  /** required stands for the properties every record has; repoId is one of the optional ones. */
  datatype State = State(id: Id, repoRef: string, subject: Subject, required: string, optional: Optionals, lastSyncedAt: int)
  {
    function RepoId(): Option<Id> {
      Property("repoId")
    }

    /** Reading a property that is absent gives undefined. */
    function Property(p: string): Option<string> {
      if p in optional then optional[p] else None
    }
  }

  datatype Input = Input(
    id: Option<Id>, repoRef: string, subject: Subject, required: string, optional: Optionals, lastSyncedAt: Option<int>)

  function FiledUnder(repoRef: string, subject: Subject): State -> bool {
    (s: State) => s.repoRef == repoRef && s.subject == subject
  }

  function Matches(input: Input): State -> bool {
    (s: State) => (input.id.Some? && s.id == input.id.value) || (s.repoRef == input.repoRef && s.subject == input.subject)
  }

  function WithId(id: Id): State -> bool {
    (s: State) => s.id == id
  }

  /** Object.assign(existing, input, { id: existing.id, lastSyncedAt }): properties the input lacks stay. */
  function Merge(existing: State, input: Input, now: int): State {
    State(existing.id, input.repoRef, input.subject, input.required, existing.optional + input.optional,
          input.lastSyncedAt.GetOr(now))
  }

  /** made is what createId would return. */
  function New(input: Input, made: Id, now: int): State {
    State(input.id.GetOr(made), input.repoRef, input.subject, input.required, input.optional,
          input.lastSyncedAt.GetOr(now))
  }

  function Upsert(states: seq<State>, input: Input, made: Id, now: int): seq<State> {
    var i := FirstIndex(Matches(input), states);
    if i < |states| then states[i := Merge(states[i], input, now)] else states + [New(input, made, now)]
  }

  /** getGitPullRequestSyncState and getGitBranchSyncState: the reference may also be a repo id. */
  function Answers(ref: string, subject: Subject): State -> bool {
    (s: State) => (s.repoRef == ref || s.RepoId() == Some(ref)) && s.subject == subject
  }

  function Get(states: seq<State>, ref: string, subject: Subject): Option<State> {
    Find(Answers(ref, subject), states)
  }

  // ----- one state per key -----

  ghost predicate UniqueKeys(states: seq<State>) {
    forall i, j :: 0 <= i < j < |states| ==> states[i].repoRef != states[j].repoRef || states[i].subject != states[j].subject
  }

  /** Keys stay unique exactly when no state other than the matched one is filed under the input's key. */
  lemma KeysStayUniqueExactly(states: seq<State>, input: Input, made: Id, now: int)
    requires UniqueKeys(states)
    ensures var i := FirstIndex(Matches(input), states);
            (UniqueKeys(Upsert(states, input, made, now)))
              <==> forall j :: 0 <= j < |states| && j != i ==> !FiledUnder(input.repoRef, input.subject)(states[j])
  {
    var i := FirstIndex(Matches(input), states);
    var after := Upsert(states, input, made, now);
    if i < |states| {
      if UniqueKeys(after) {
        forall j | 0 <= j < |states| && j != i
          ensures !FiledUnder(input.repoRef, input.subject)(states[j])
        {
          assert after[j] == states[j] && after[i].repoRef == input.repoRef;
        }
      }
    } else {
      assert forall j :: 0 <= j < |states| ==> !Matches(input)(states[j]);
    }
  }

  /** Without an explicit id the condition always holds, so keys are unique after every run of such upserts. */
  lemma KeysStayUnique(states: seq<State>, input: Input, made: Id, now: int)
    requires UniqueKeys(states) && input.id.None?
    ensures UniqueKeys(Upsert(states, input, made, now))
  {
    var i := FirstIndex(Matches(input), states);
    forall j | 0 <= j < |states| && j != i
      ensures !FiledUnder(input.repoRef, input.subject)(states[j])
    {
      assert j < i ==> !Matches(input)(states[j]);
    }
    KeysStayUniqueExactly(states, input, made, now);
  }

  datatype Call = Call(input: Input, made: Id, now: int)

  function UpsertAll(states: seq<State>, calls: seq<Call>): seq<State>
    decreases |calls|
  {
    if calls == [] then states
    else UpsertAll(Upsert(states, calls[0].input, calls[0].made, calls[0].now), calls[1..])
  }

  // ----- the array as a finite map -----

  type View = map<(string, Subject), State>

  function ViewOf(states: seq<State>): View {
    if states == [] then map[]
    else
      var last := states[|states| - 1];
      ViewOf(states[..|states| - 1])[(last.repoRef, last.subject) := last]
  }

  function KeyOf(s: State): (string, Subject) {
    (s.repoRef, s.subject)
  }

  ghost predicate Filed(states: seq<State>, key: (string, Subject)) {
    exists s :: s in states && KeyOf(s) == key
  }

  lemma {:induction false} ViewKeys(states: seq<State>, key: (string, Subject))
    ensures key in ViewOf(states) <==> Filed(states, key)
  {
    if states != [] {
      var n := |states| - 1;
      var front := states[..n];
      ViewKeys(front, key);
      assert states == front + [states[n]];
      if s :| s in front && KeyOf(s) == key {
        assert s in states;
      }
      assert states[n] in states;
    }
  }

  lemma {:induction false} ViewAt(states: seq<State>, s: State)
    requires UniqueKeys(states) && s in states
    ensures KeyOf(s) in ViewOf(states) && ViewOf(states)[KeyOf(s)] == s
  {
    var n := |states| - 1;
    assert states == states[..n] + [states[n]];
    if s != states[n] {
      ViewAt(states[..n], s);
      assert KeyOf(s) != KeyOf(states[n]);
    }
  }

  /** What the map holds at the key after the upsert. */
  function Stored(view: View, input: Input, made: Id, now: int): State {
    if (input.repoRef, input.subject) in view then Merge(view[(input.repoRef, input.subject)], input, now) else New(input, made, now)
  }

  /** Ids and the order of first insertion: every state keeps its place and its id. */
  ghost predicate Stable(before: seq<State>, after: seq<State>) {
    && |before| <= |after|
    && forall i :: 0 <= i < |before| ==> after[i].id == before[i].id
  }

  lemma MatchedInView(states: seq<State>, input: Input)
    requires UniqueKeys(states) && input.id.None?
    ensures var i := FirstIndex(Matches(input), states);
            var key := (input.repoRef, input.subject);
            && (key in ViewOf(states) <==> i < |states|)
            && (i < |states| ==> KeyOf(states[i]) == key && ViewOf(states)[key] == states[i])
  {
    var i := FirstIndex(Matches(input), states);
    var key := (input.repoRef, input.subject);
    ViewKeys(states, key);
    if key in ViewOf(states) {
      var s :| s in states && KeyOf(s) == key;
      assert Matches(input)(s);
    }
    if i < |states| {
      ViewAt(states, states[i]);
    }
  }

  /** An upsert without an id updates the map at one key and leaves every other key, every id and every place. */
  lemma UpsertIsMapUpdate(states: seq<State>, input: Input, made: Id, now: int)
    requires UniqueKeys(states) && input.id.None?
    ensures ViewOf(Upsert(states, input, made, now))
         == ViewOf(states)[(input.repoRef, input.subject) := Stored(ViewOf(states), input, made, now)]
    ensures Stable(states, Upsert(states, input, made, now))
  {
    var i := FirstIndex(Matches(input), states);
    MatchedInView(states, input);
    if i < |states| {
      ViewOfUpdate(states, i, Merge(states[i], input, now));
    } else {
      ViewOfAppend(states, New(input, made, now));
    }
  }

  lemma ViewOfAppend(states: seq<State>, x: State)
    ensures ViewOf(states + [x]) == ViewOf(states)[(x.repoRef, x.subject) := x]
  {
    assert (states + [x])[..|states|] == states;
  }

  /** Replacing a state by one with the same key updates the map at that key. */
  lemma {:induction false} ViewOfUpdate(states: seq<State>, i: nat, x: State)
    requires UniqueKeys(states) && i < |states| && x.repoRef == states[i].repoRef && x.subject == states[i].subject
    ensures ViewOf(states[i := x]) == ViewOf(states)[(x.repoRef, x.subject) := x]
  {
    var n := |states| - 1;
    var after := states[i := x];
    if i == n {
      assert after[..n] == states[..n];
    } else {
      ViewOfUpdate(states[..n], i, x);
      assert after[..n] == states[..n][i := x];
    }
  }

  lemma {:induction false} RunIsStable(states: seq<State>, calls: seq<Call>)
    requires UniqueKeys(states) && forall k :: 0 <= k < |calls| ==> calls[k].input.id.None?
    ensures UniqueKeys(UpsertAll(states, calls)) && Stable(states, UpsertAll(states, calls))
    decreases |calls|
  {
    if calls != [] {
      var c := calls[0];
      KeysStayUnique(states, c.input, c.made, c.now);
      UpsertIsMapUpdate(states, c.input, c.made, c.now);
      RunIsStable(Upsert(states, c.input, c.made, c.now), calls[1..]);
    }
  }

  // ----- reading back -----

  /** Get after upsert returns the stored record exactly when no earlier state has the input's reference as its repo id,
      for the same subject. */
  lemma GetAfterUpsertExactly(states: seq<State>, input: Input, made: Id, now: int)
    requires UniqueKeys(states) && input.id.None?
    ensures var after := Upsert(states, input, made, now);
            var i := FirstIndex(Matches(input), states);
            (Get(after, input.repoRef, input.subject) == Some(after[i]))
              <==> forall j :: 0 <= j < i ==> !(states[j].RepoId() == Some(input.repoRef) && states[j].subject == input.subject)
  {
    var after := Upsert(states, input, made, now);
    var i := FirstIndex(Matches(input), states);
    var p := Answers(input.repoRef, input.subject);
    assert after[i].repoRef == input.repoRef && after[i].subject == input.subject;
    assert p(after[i]);
    forall j | 0 <= j < i
      ensures p(after[j]) <==> states[j].RepoId() == Some(input.repoRef) && states[j].subject == input.subject
    {
      assert after[j] == states[j] && !Matches(input)(states[j]);
    }
    var g := FirstIndex(p, after);
    assert g <= i;
    if g < i {
      KeysStayUnique(states, input, made, now);
      assert after[g] == states[g] && !Matches(input)(states[g]);
      assert after[g] != after[i];
    }
  }

  /** Repo ids and repo references do not overlap. */
  ghost predicate Disjoint(states: seq<State>, input: Input) {
    forall j :: 0 <= j < |states| ==> states[j].RepoId() != Some(input.repoRef)
  }

  lemma GetAfterUpsert(states: seq<State>, input: Input, made: Id, now: int)
    requires UniqueKeys(states) && input.id.None? && Disjoint(states, input)
    ensures Get(Upsert(states, input, made, now), input.repoRef, input.subject)
         == Some(Stored(ViewOf(states), input, made, now))
  {
    GetAfterUpsertExactly(states, input, made, now);
    UpsertIsMapUpdate(states, input, made, now);
    KeysStayUnique(states, input, made, now);
    var after := Upsert(states, input, made, now);
    var i := FirstIndex(Matches(input), states);
    assert KeyOf(after[i]) == (input.repoRef, input.subject);
    ViewAt(after, after[i]);
  }

  // ----- the Postgres store -----

  /** SELECT by id when a non-empty one is given, else by key; LIMIT 1. */
  function RowKey(input: Input): State -> bool {
    if input.id.Some? && input.id.value != "" then WithId(input.id.value) else FiledUnder(input.repoRef, input.subject)
  }

  function RowFor(rows: seq<State>, input: Input): Option<State> {
    Find(RowKey(input), rows)
  }

  ghost predicate UniqueIds(states: seq<State>) {
    forall i, j :: 0 <= i < j < |states| ==> states[i].id != states[j].id
  }

  /** An explicit id is only used for a new state when no state has it. */
  lemma IdsStayUnique(states: seq<State>, input: Input, made: Id, now: int)
    requires UniqueIds(states) && forall k :: 0 <= k < |states| ==> states[k].id != made
    ensures UniqueIds(Upsert(states, input, made, now))
  {
    var i := FirstIndex(Matches(input), states);
    if i == |states| {
      forall k | 0 <= k < |states|
        ensures states[k].id != New(input, made, now).id
      {
        assert !Matches(input)(states[k]);
      }
    }
  }

  lemma OneRow(states: seq<State>, input: Input, a: State, b: State)
    requires UniqueKeys(states) && UniqueIds(states) && a in states && b in states && RowKey(input)(a) && RowKey(input)(b)
    ensures a == b
  {
    var i :| 0 <= i < |states| && states[i] == a;
    var j :| 0 <= j < |states| && states[j] == b;
    assert i != j ==> a.id != b.id;
  }

  /** UPDATE writes every column: a property the input lacks becomes NULL. */
  function Overwrite(existing: State, input: Input, now: int): State {
    Merge(existing, input, now).(optional := input.optional)
  }

  /** Where a table keeps its rows does not matter: at most one has the id, or the key, that is asked for. */
  lemma RowForAnyOrder(states: seq<State>, rows: seq<State>, input: Input)
    requires UniqueKeys(states) && UniqueIds(states) && SameElements(states, rows)
    ensures RowFor(rows, input) == RowFor(states, input)
  {
    var row, found := RowFor(rows, input), RowFor(states, input);
    if row.Some? {
      assert found.Some?;
      OneRow(states, input, row.value, found.value);
    }
  }

  /** Where the input's id and its key first occur. With a given id, the stores pick the same state exactly when no state is
      filed under the key before the one with the id; with an empty id, which Postgres takes for none, exactly when
      no state has the empty id before the one filed under the key; without an id, always. */
  predicate PicksWillAgree(states: seq<State>, input: Input) {
    var byKey := FirstIndex(FiledUnder(input.repoRef, input.subject), states);
    match input.id
    case None => true
    case Some(id) =>
      var byId := FirstIndex(WithId(id), states);
      if id != "" then byKey == |states| || byId <= byKey else byId == |states| || byKey <= byId
  }

  lemma FirstOfEither(states: seq<State>, input: Input, id: Id)
    requires input.id == Some(id)
    ensures var byId, byKey := FirstIndex(WithId(id), states), FirstIndex(FiledUnder(input.repoRef, input.subject), states);
            FirstIndex(Matches(input), states) == if byId <= byKey then byId else byKey
  {
    assert forall s: State :: Matches(input)(s) <==> WithId(id)(s) || FiledUnder(input.repoRef, input.subject)(s);
    var i := FirstIndex(Matches(input), states);
    var byId, byKey := FirstIndex(WithId(id), states), FirstIndex(FiledUnder(input.repoRef, input.subject), states);
    assert i < |states| ==> byId <= i || byKey <= i;
  }

  /** Over the same states in any order, the in-memory store and Postgres pick the same state exactly under that
      condition. */
  lemma LookupsAgreeExactly(states: seq<State>, rows: seq<State>, input: Input)
    requires UniqueKeys(states) && UniqueIds(states) && SameElements(states, rows)
    ensures RowFor(rows, input) == Find(Matches(input), states) <==> PicksWillAgree(states, input)
  {
    RowForAnyOrder(states, rows, input);
    if input.id.Some? {
      FirstOfEither(states, input, input.id.value);
    } else {
      assert forall s: State :: Matches(input)(s) == RowKey(input)(s);
      assert FirstIndex(Matches(input), states) == FirstIndex(RowKey(input), states);
    }
  }

  function Plain(id: Option<Id>, repo: string, number: int): Input {
    Input(id, repo, PullRequest(number), "", map[], None)
  }

  /** Without an id they always do. */
  lemma LookupsAgree(states: seq<State>, rows: seq<State>, input: Input)
    requires UniqueKeys(states) && UniqueIds(states) && SameElements(states, rows) && input.id.None?
    ensures RowFor(rows, input) == Find(Matches(input), states)
  {
    LookupsAgreeExactly(states, rows, input);
  }

  /** Two pull requests of one repo, upserted without ids. */
  function TwoCalls(repo: string, now: int): seq<Call> {
    [Call(Plain(None, repo, 1), "prsync_1", now)] + [Call(Plain(None, repo, 2), "prsync_2", now)]
  }

  lemma TwoStates(repo: string, now: int)
    ensures UpsertAll([], TwoCalls(repo, now))
         == [New(Plain(None, repo, 1), "prsync_1", now), New(Plain(None, repo, 2), "prsync_2", now)]
  {
    var first, second := Plain(None, repo, 1), Plain(None, repo, 2);
    var a, b := New(first, "prsync_1", now), New(second, "prsync_2", now);
    assert Upsert([], first, "prsync_1", now) == [a];
    assert !Matches(second)(a);
    assert Upsert([a], second, "prsync_2", now) == [a, b];
    var calls := TwoCalls(repo, now);
    assert calls[1..] == [Call(second, "prsync_2", now)];
    assert calls[1..][1..] == [];
    assert UpsertAll([], calls) == UpsertAll([a], calls[1..]);
    assert UpsertAll([a], calls[1..]) == UpsertAll([a, b], []);
  }

  /** A concrete failure: an upsert with the second state's id and the first one's key finds the first state in memory and
      the second one in Postgres. */
  lemma PicksComeApart(repo: string, now: int)
    ensures var states := UpsertAll([], TwoCalls(repo, now));
            var input := Plain(Some("prsync_2"), repo, 1);
            RowFor(states, input) != Find(Matches(input), states)
  {
    TwoStates(repo, now);
    var states := [New(Plain(None, repo, 1), "prsync_1", now), New(Plain(None, repo, 2), "prsync_2", now)];
    var input := Plain(Some("prsync_2"), repo, 1);
    assert FiledUnder(repo, PullRequest(1))(states[0]);
    assert !WithId("prsync_2")(states[0]);
    LookupsAgreeExactly(states, states, input);
  }

  /** Another: with the first state's id and the second one's key, memory ends with two states under one key. */
  lemma KeysCollide(repo: string, now: int)
    ensures var states := UpsertAll([], TwoCalls(repo, now));
            UniqueKeys(states) && !UniqueKeys(Upsert(states, Plain(Some("prsync_1"), repo, 2), "prsync_3", now))
  {
    TwoStates(repo, now);
    var states := [New(Plain(None, repo, 1), "prsync_1", now), New(Plain(None, repo, 2), "prsync_2", now)];
    var input := Plain(Some("prsync_1"), repo, 2);
    assert Matches(input)(states[0]);
    assert FiledUnder(repo, PullRequest(2))(states[1]);
    KeysStayUniqueExactly(states, input, "prsync_3", now);
  }

  /** Read as properties, the merged and the overwritten record are the same exactly when every property that only
      the old record had was undefined. */
  lemma MergeIsOverwriteExactly(existing: State, input: Input, now: int)
    ensures (forall p :: Merge(existing, input, now).Property(p) == Overwrite(existing, input, now).Property(p))
       <==> (forall p :: p in existing.optional && p !in input.optional ==> existing.optional[p] == None)
  {
    forall p
      ensures Merge(existing, input, now).Property(p) == Overwrite(existing, input, now).Property(p)
         <==> (p in existing.optional && p !in input.optional ==> existing.optional[p] == None)
    {
    }
    if forall p :: Merge(existing, input, now).Property(p) == Overwrite(existing, input, now).Property(p) {
      forall p | p in existing.optional && p !in input.optional
        ensures existing.optional[p] == None
      {
        assert Merge(existing, input, now).Property(p) == Overwrite(existing, input, now).Property(p);
      }
    }
  }

  // ----- the store's array -----

  class SyncStore {
    var states: seq<State>

    constructor ()
      ensures states == []
    {
      states := [];
    }

    method UpsertState(input: Input, made: Id, now: int) returns (r: State)
      modifies this`states
      ensures states == Upsert(old(states), input, made, now)
      ensures r in states && r.repoRef == input.repoRef && r.subject == input.subject
    {
      var i := FirstIndex(Matches(input), states);
      if i < |states| {
        r := Merge(states[i], input, now);
        states := states[i := r];
        assert states[i] == r;
      } else {
        r := New(input, made, now);
        states := states + [r];
        assert states[|states| - 1] == r;
      }
    }
  }
}
