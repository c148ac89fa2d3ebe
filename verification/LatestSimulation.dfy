/** The newest dry-run merge of a lease and of a lease pair (packages/db/src/repository.ts:285-309 and
    packages/db/src/postgres.ts:340-356, 826-831). */
module LatestSimulation {
  import opened Sequences
  import opened Domain
  import opened Keyed

  type Newer = (Simulation, Simulation) -> bool

  function SimulationKey(): Simulation -> Id {
    (s: Simulation) => s.id
  }

  function OfLease(lease: Id): Simulation -> bool {
    (s: Simulation) => s.branchLeaseId == Some(lease)
  }

  function OfPair(a: Id, b: Id): Simulation -> bool {
    (s: Simulation) => s.branchLeaseId.Some? && s.branchLeaseId.value in {a, b}
  }

  function InRepo(repo: Id): Simulation -> bool {
    (s: Simulation) => s.repoId == repo
  }

  /** filter, sort, take the first. */
  function LatestWhere(newer: Newer, p: Simulation -> bool, simulations: seq<Simulation>): Option<Simulation> {
    Head(Sort(newer, Filter(p, simulations)))
  }

  function LatestForLease(env: Env, simulations: seq<Simulation>, lease: Id): Option<Simulation> {
    LatestWhere(env.NewestFirst(), OfLease(lease), simulations)
  }

  function LatestForPair(env: Env, simulations: seq<Simulation>, a: Id, b: Id): Option<Simulation> {
    LatestWhere(env.NewestFirst(), OfPair(a, b), simulations)
  }

  /** SELECT ... [WHERE repo_id = ...] ORDER BY created_at DESC, id; an empty repo id adds no condition. */
  function RowsInRepo(env: Env, rows: seq<Simulation>, repo: Id): seq<Simulation> {
    Sort(env.NewestRowFirst(), if repo == "" then rows else Filter(InRepo(repo), rows))
  }

  function RowsOfLease(env: Env, rows: seq<Simulation>, lease: Id): seq<Simulation> {
    Sort(env.NewestRowFirst(), if lease == "" then rows else Filter(OfLease(lease), rows))
  }

  function LatestRowForLease(env: Env, rows: seq<Simulation>, lease: Id): Option<Simulation> {
    Head(RowsOfLease(env, rows, lease))
  }

  function LatestRowForPair(env: Env, rows: seq<Simulation>, repo: Id, a: Id, b: Id): Option<Simulation> {
    LatestWhere(env.NewestFirst(), OfPair(a, b), RowsInRepo(env, rows, repo))
  }

  /** The better of two candidates; the first one wins a tie. */
  function Better(newer: Newer, x: Option<Simulation>, y: Option<Simulation>): Option<Simulation> {
    if x.None? then y
    else if y.None? then x
    else if newer(x.value, y.value) then x
    else y
  }

  // ----- a running maximum -----

  lemma HeadOfInsert(newer: Newer, x: Simulation, s: seq<Simulation>)
    ensures Head(Insert(newer, x, s)) == Better(newer, Some(x), Head(s))
  {
  }

  lemma {:induction false} HeadOfSortAppend(newer: Newer, s: seq<Simulation>, x: Simulation)
    requires TotalPreorder(newer)
    ensures Head(Sort(newer, s + [x])) == Better(newer, Head(Sort(newer, s)), Some(x))
  {
    if s == [] {
      assert s + [x] == [x];
      assert Sort(newer, [x]) == [x];
    } else {
      assert (s + [x])[1..] == s[1..] + [x];
      HeadOfSortAppend(newer, s[1..], x);
      HeadOfInsert(newer, s[0], Sort(newer, s[1..] + [x]));
      HeadOfInsert(newer, s[0], Sort(newer, s[1..]));
    }
  }

  /** Recording a simulation moves a "latest" of any order as a running maximum does: the newcomer replaces the current one
      only if it is strictly better. */
  lemma RunningMaximum(newer: Newer, p: Simulation -> bool, simulations: seq<Simulation>, x: Simulation)
    requires TotalPreorder(newer)
    ensures LatestWhere(newer, p, simulations + [x])
         == if p(x) then Better(newer, LatestWhere(newer, p, simulations), Some(x)) else LatestWhere(newer, p, simulations)
  {
    FilterAppend(p, simulations, [x]);
    assert Filter(p, [x]) == if p(x) then [x] else [];
    if p(x) {
      HeadOfSortAppend(newer, Filter(p, simulations), x);
    } else {
      assert Filter(p, simulations) + [] == Filter(p, simulations);
    }
  }

  lemma LatestIsRunningMaximum(env: Env, p: Simulation -> bool, simulations: seq<Simulation>, x: Simulation)
    ensures LatestWhere(env.NewestFirst(), p, simulations + [x])
         == if p(x) then Better(env.NewestFirst(), LatestWhere(env.NewestFirst(), p, simulations), Some(x))
            else LatestWhere(env.NewestFirst(), p, simulations)
  {
    NewestFirstTotal(env);
    RunningMaximum(env.NewestFirst(), p, simulations, x);
  }

  // ----- what "latest" means -----

  ghost predicate IsLatest(newer: Newer, p: Simulation -> bool, simulations: seq<Simulation>, m: Simulation) {
    m in simulations && p(m) && forall x :: x in simulations && p(x) ==> newer(m, x)
  }

  lemma LatestIsLatest(newer: Newer, p: Simulation -> bool, simulations: seq<Simulation>)
    requires TotalPreorder(newer)
    ensures LatestWhere(newer, p, simulations).None? <==> forall x :: x in simulations ==> !p(x)
    ensures LatestWhere(newer, p, simulations).Some?
        ==> IsLatest(newer, p, simulations, LatestWhere(newer, p, simulations).value)
  {
    var f := Filter(p, simulations);
    FilterMembers(p, simulations);
    if f == [] {
      assert forall x :: x in simulations ==> x !in f;
    } else {
      assert f[0] in f;
      SortHead(newer, f);
    }
  }

  lemma LatestUnique(newer: Newer, p: Simulation -> bool, simulations: seq<Simulation>, m: Simulation)
    requires TotalPreorder(newer) && Antisymmetric(newer, simulations) && IsLatest(newer, p, simulations, m)
    ensures LatestWhere(newer, p, simulations) == Some(m)
  {
    LatestIsLatest(newer, p, simulations);
  }

  lemma IdsSeparate(env: Env, simulations: seq<Simulation>)
    requires env.Valid() && UniqueKeys(SimulationKey(), simulations)
    ensures Antisymmetric(env.NewestFirst(), simulations)
    ensures Antisymmetric(env.NewestRowFirst(), simulations)
  {
    forall x, y | x in simulations && y in simulations && x.id == y.id
      ensures x == y
    {
      LookupIs(SimulationKey(), simulations, x);
      LookupIs(SimulationKey(), simulations, y);
    }
  }

  // ----- the pair -----

  lemma PairIsSymmetric(env: Env, simulations: seq<Simulation>, a: Id, b: Id)
    ensures LatestForPair(env, simulations, a, b) == LatestForPair(env, simulations, b, a)
  {
    FilterCongruent(OfPair(a, b), OfPair(b, a), simulations);
  }

  lemma RowPairIsSymmetric(env: Env, rows: seq<Simulation>, repo: Id, a: Id, b: Id)
    ensures LatestRowForPair(env, rows, repo, a, b) == LatestRowForPair(env, rows, repo, b, a)
  {
    FilterCongruent(OfPair(a, b), OfPair(b, a), RowsInRepo(env, rows, repo));
  }

  /** The latest simulation of a pair is the better of the two leases' own latest ones. */
  lemma PairIsBetterOfTwo(env: Env, simulations: seq<Simulation>, a: Id, b: Id)
    requires env.Valid() && UniqueKeys(SimulationKey(), simulations)
    ensures LatestForPair(env, simulations, a, b)
         == Better(env.NewestFirst(), LatestForLease(env, simulations, a), LatestForLease(env, simulations, b))
  {
    var newer := env.NewestFirst();
    NewestFirstTotal(env);
    IdsSeparate(env, simulations);
    LatestIsLatest(newer, OfLease(a), simulations);
    LatestIsLatest(newer, OfLease(b), simulations);
    LatestIsLatest(newer, OfPair(a, b), simulations);
    var best := Better(newer, LatestForLease(env, simulations, a), LatestForLease(env, simulations, b));
    if best.Some? {
      forall x | x in simulations && OfPair(a, b)(x)
        ensures newer(best.value, x)
      {
        assert OfLease(a)(x) || OfLease(b)(x);
      }
      LatestUnique(newer, OfPair(a, b), simulations, best.value);
    } else {
      assert forall x :: OfPair(a, b)(x) ==> OfLease(a)(x) || OfLease(b)(x);
    }
  }

  // ----- the two stores -----

  /** The two stores look a pair up alike exactly when the newest simulation recorded for either lease,
      if there is one, was recorded against the source lease's repo (or that repo id is empty). */
  lemma PairLookupsAgree(env: Env, simulations: seq<Simulation>, rows: seq<Simulation>, repo: Id, a: Id, b: Id)
    requires env.Valid() && UniqueKeys(SimulationKey(), simulations) && SameElements(simulations, rows)
    ensures var latest := LatestForPair(env, simulations, a, b);
            (LatestRowForPair(env, rows, repo, a, b) == latest)
              <==> (repo == "" || latest.None? || latest.value.repoId == repo)
  {
    var newer := env.NewestFirst();
    var p := OfPair(a, b);
    NewestFirstTotal(env);
    IdsSeparate(env, simulations);
    var listed := RowsInRepo(env, rows, repo);
    FilterMembers(InRepo(repo), rows);
    SortMembers(env.NewestRowFirst(), if repo == "" then rows else Filter(InRepo(repo), rows));
    assert forall x :: x in listed <==> x in rows && (repo == "" || x.repoId == repo);
    LatestIsLatest(newer, p, simulations);
    LatestIsLatest(newer, p, listed);
    var latest := LatestForPair(env, simulations, a, b);
    if latest.Some? && (repo == "" || latest.value.repoId == repo) {
      assert Antisymmetric(newer, listed);
      LatestUnique(newer, p, listed, latest.value);
    }
  }

  /** The two stores agree on a lease's newest simulation exactly when it has none, or the in-memory one has the
      database's smallest id among the lease's simulations of that instant. */
  lemma LeaseLookupsAgreeExactly(env: Env, simulations: seq<Simulation>, rows: seq<Simulation>, lease: Id)
    requires env.Valid() && UniqueKeys(SimulationKey(), simulations) && SameElements(simulations, rows) && lease != ""
    ensures var found := LatestForLease(env, simulations, lease);
            (LatestRowForLease(env, rows, lease) == found)
              <==> (found.None? || forall x :: x in simulations && OfLease(lease)(x) && x.createdAt == found.value.createdAt
                                     ==> env.database(found.value.id) <= env.database(x.id))
  {
    var p := OfLease(lease);
    NewestFirstTotal(env);
    IdsSeparate(env, simulations);
    LatestIsLatest(env.NewestFirst(), p, simulations);
    LatestIsLatest(env.NewestRowFirst(), p, rows);
    var found := LatestForLease(env, simulations, lease);
    if found.Some? && IsLatest(env.NewestRowFirst(), p, rows, found.value) {
      assert Antisymmetric(env.NewestRowFirst(), rows);
      LatestUnique(env.NewestRowFirst(), p, rows, found.value);
    }
  }

  /** Both collations put the two ids in the same order. */
  ghost predicate OrderedAlike(env: Env, x: Id, y: Id) {
    && (env.locale(x) <= env.locale(y) <==> env.database(x) <= env.database(y))
    && (env.locale(y) <= env.locale(x) <==> env.database(y) <= env.database(x))
  }

  ghost predicate Tied(x: Simulation, y: Simulation) {
    x.branchLeaseId.Some? && x.branchLeaseId == y.branchLeaseId && x.createdAt == y.createdAt
  }

  /** Simulations of one lease and one instant are ordered alike by both collations. */
  ghost predicate TiesAlike(env: Env, simulations: seq<Simulation>) {
    forall x, y :: x in simulations && y in simulations && Tied(x, y) ==> OrderedAlike(env, x.id, y.id)
  }

  /** The new simulation is ordered alike with the recorded ones it is tied with. */
  ghost predicate JoinsAlike(env: Env, simulations: seq<Simulation>, x: Simulation) {
    forall y :: y in simulations && Tied(x, y) ==> OrderedAlike(env, x.id, y.id)
  }

  lemma TiesAlikeAppend(env: Env, simulations: seq<Simulation>, x: Simulation)
    requires TiesAlike(env, simulations) && JoinsAlike(env, simulations, x)
    ensures TiesAlike(env, simulations + [x])
  {
    forall y, z | y in simulations + [x] && z in simulations + [x] && Tied(y, z)
      ensures OrderedAlike(env, y.id, z.id)
    {
      assert (y in simulations || y == x) && (z in simulations || z == x);
      assert y == x && z in simulations ==> Tied(x, z);
      assert z == x && y in simulations ==> Tied(x, y);
    }
  }

  /** Ties are ordered alike when no lease has two simulations of one instant, whatever the collations ... */
  lemma DistinctTimesTieAlike(env: Env, simulations: seq<Simulation>)
    requires forall x, y :: x in simulations && y in simulations && Tied(x, y) ==> x == y
    ensures TiesAlike(env, simulations)
  {
  }

  /** ... and when the collations agree, whatever the times. */
  lemma AgreeingCollationsTieAlike(env: Env, simulations: seq<Simulation>)
    requires env.CollationsAgree()
    ensures TiesAlike(env, simulations)
  {
    forall x, y | x in simulations && y in simulations && Tied(x, y)
      ensures OrderedAlike(env, x.id, y.id)
    {
      assert env.locale(x.id) <= env.locale(y.id) <==> env.database(x.id) <= env.database(y.id);
      assert env.locale(y.id) <= env.locale(x.id) <==> env.database(y.id) <= env.database(x.id);
    }
  }

  /** So they agree when ties are ordered alike. */
  lemma LeaseLookupsAgree(env: Env, simulations: seq<Simulation>, rows: seq<Simulation>, lease: Id)
    requires env.Valid() && TiesAlike(env, simulations)
    requires UniqueKeys(SimulationKey(), simulations) && SameElements(simulations, rows)
    requires lease != ""
    ensures LatestRowForLease(env, rows, lease) == LatestForLease(env, simulations, lease)
  {
    LeaseLookupsAgreeExactly(env, simulations, rows, lease);
    NewestFirstTotal(env);
    LatestIsLatest(env.NewestFirst(), OfLease(lease), simulations);
    var found := LatestForLease(env, simulations, lease);
    if found.Some? {
      forall x | x in simulations && OfLease(lease)(x) && x.createdAt == found.value.createdAt
        ensures env.database(found.value.id) <= env.database(x.id)
      {
        assert Tied(found.value, x);
        assert env.NewestFirst()(found.value, x);
      }
    }
  }
}
