/** The task-run risks of the two stores: always the same ones, and exactly when in the same order
    (packages/db/src/repository.ts:334-338, packages/db/src/postgres.ts:381-386). */
module RunRiskOrder {
  import opened Sequences
  import opened Domain
  import opened Keyed
  import opened ConflictRisks
  import opened RiskTheorems
  import opened Queue
  import opened Stores
  import opened Agreement
  import opened Listings

  /** Array.prototype.flatMap */
  function FlatMap<A, B>(f: A -> seq<B>, s: seq<A>): seq<B> {
    if s == [] then [] else f(s[0]) + FlatMap(f, s[1..])
  }

  lemma {:induction false} FlatMapDropsEmpty<A(!new), B(!new)>(f: A -> seq<B>, p: A -> bool, s: seq<A>)
    requires forall x :: x in s ==> (p(x) <==> f(x) != [])
    ensures FlatMap(f, s) == FlatMap(f, Filter(p, s))
  {
    if s != [] {
      assert s[0] in s;
      FlatMapDropsEmpty(f, p, s[1..]);
      var kept := Filter(p, s[1..]);
      assert ([s[0]] + kept)[1..] == kept;
    }
  }

  /** No value is in the lists of two different elements. */
  ghost predicate Separates<A(!new), B(!new)>(f: A -> seq<B>, s: seq<A>) {
    forall x, y, r :: x in s && y in s && r in f(x) && r in f(y) ==> x == y
  }

  lemma FlatMapEmpty<A(!new), B(!new)>(f: A -> seq<B>, s: seq<A>)
    requires forall x :: x in s ==> f(x) != []
    ensures FlatMap(f, s) == [] <==> s == []
  {
    if s != [] {
      assert s[0] in s;
    }
  }

  /** Non-empty lists that share no value can be told apart in their concatenation. */
  lemma {:induction false} FlatMapInjective<A(!new), B(!new)>(f: A -> seq<B>, all: seq<A>, s: seq<A>, t: seq<A>)
    requires Separates(f, all)
    requires forall x :: x in s ==> x in all && f(x) != []
    requires forall x :: x in t ==> x in all && f(x) != []
    requires FlatMap(f, s) == FlatMap(f, t)
    ensures s == t
  {
    FlatMapEmpty(f, s);
    FlatMapEmpty(f, t);
    if s != [] {
      assert s[0] in s && t[0] in t;
      var r := FlatMap(f, s)[0];
      assert r == f(s[0])[0] && r == f(t[0])[0];
      assert r in f(s[0]) && r in f(t[0]) && s[0] in all && t[0] in all;
      assert s[0] == t[0];
      assert FlatMap(f, s[1..]) == FlatMap(f, s)[|f(s[0])|..];
      assert FlatMap(f, t[1..]) == FlatMap(f, t)[|f(t[0])|..];
      FlatMapInjective(f, all, s[1..], t[1..]);
    }
  }

  // ----- the risks of a run, repo by repo -----

  function OwnRisks(env: Env, m: Snapshot, run: Id): Repo -> seq<ConflictRisk> {
    (r: Repo) => Filter(Touches(RunLeaseIds(m.leases, run)), RepoRiskList(InMemory, env, m, r.id))
  }

  /** The run has a risk in the repo. */
  function HasOwn(env: Env, m: Snapshot, run: Id): Repo -> bool {
    (r: Repo) => OwnRisks(env, m, run)(r) != []
  }

  lemma {:induction false} FilteredIsFlat(env: Env, m: Snapshot, run: Id, repos: seq<Repo>)
    ensures Filter(Touches(RunLeaseIds(m.leases, run)), AllRiskList(InMemory, env, m, repos)) == FlatMap(OwnRisks(env, m, run), repos)
  {
    if repos != [] {
      FilteredIsFlat(env, m, run, repos[1..]);
      FilterAppend(Touches(RunLeaseIds(m.leases, run)), RepoRiskList(InMemory, env, m, repos[0].id),
                   AllRiskList(InMemory, env, m, repos[1..]));
    }
  }

  lemma OwnRiskNamesRepo(env: Env, m: Snapshot, run: Id, x: Repo, y: Repo, r: ConflictRisk)
    requires env.Valid() && m.UniqueIds() && x in m.repos && y in m.repos
    requires r in OwnRisks(env, m, run)(x) && r in OwnRisks(env, m, run)(y)
    ensures x == y
  {
    var touch := Touches(RunLeaseIds(m.leases, run));
    var order, risk := env.RiskOrder(), Score(InMemory, env, m.simulations);
    FilterMembers(touch, RepoRiskList(InMemory, env, m, x.id));
    FilterMembers(touch, RepoRiskList(InMemory, env, m, y.id));
    MemoryIsPairwise(env, m.simulations);
    RiskOrderTotal(env);
    var l := SourceLease(order, risk, m.leases, x.id, r);
    RepoOfEnd(order, risk, m.leases, x.id, r, l);
    RepoOfEnd(order, risk, m.leases, y.id, r, l);
    LookupIs(RepoKey(), m.repos, x);
    LookupIs(RepoKey(), m.repos, y);
  }

  lemma OwnRisksSeparate(env: Env, m: Snapshot, run: Id)
    requires env.Valid() && m.UniqueIds()
    ensures Separates(OwnRisks(env, m, run), m.repos)
  {
    forall x, y, r | x in m.repos && y in m.repos && r in OwnRisks(env, m, run)(x) && r in OwnRisks(env, m, run)(y)
      ensures x == y
    {
      OwnRiskNamesRepo(env, m, run, x, y, r);
    }
  }

  lemma RunListIsFlat(env: Env, m: Snapshot, run: Id, repos: seq<Repo>)
    ensures Filter(Touches(RunLeaseIds(m.leases, run)), AllRiskList(InMemory, env, m, repos))
         == FlatMap(OwnRisks(env, m, run), Filter(HasOwn(env, m, run), repos))
  {
    FilteredIsFlat(env, m, run, repos);
    FlatMapDropsEmpty(OwnRisks(env, m, run), HasOwn(env, m, run), repos);
  }

  /** Going through the repos in another order gives the same list exactly when the repos that matter come in the
      same order. */
  lemma SameListExactly(env: Env, m: Snapshot, run: Id, s: seq<Repo>, t: seq<Repo>)
    requires env.Valid() && m.UniqueIds() && SameElements(s, m.repos) && SameElements(t, m.repos)
    ensures (FlatMap(OwnRisks(env, m, run), Filter(HasOwn(env, m, run), s))
              == FlatMap(OwnRisks(env, m, run), Filter(HasOwn(env, m, run), t)))
       <==> Filter(HasOwn(env, m, run), s) == Filter(HasOwn(env, m, run), t)
  {
    var f, p := OwnRisks(env, m, run), HasOwn(env, m, run);
    FilterMembers(p, s);
    FilterMembers(p, t);
    OwnRisksSeparate(env, m, run);
    if FlatMap(f, Filter(p, s)) == FlatMap(f, Filter(p, t)) {
      FlatMapInjective(f, m.repos, Filter(p, s), Filter(p, t));
    }
  }

  lemma OrderOfRunRisks(env: Env, m: Snapshot, run: Id)
    requires env.Valid() && m.UniqueIds()
    ensures Filter(Touches(RunLeaseIds(m.leases, run)), AllRiskList(InMemory, env, m, Sort(env.RepoRows(), m.repos)))
              == RunRiskList(InMemory, env, m, run)
       <==> Sorted(env.RepoRows(), Filter(HasOwn(env, m, run), m.repos))
  {
    var sorted := Sort(env.RepoRows(), m.repos);
    RowOrdersTotal(env);
    SortMembers(env.RepoRows(), m.repos);
    RunListIsFlat(env, m, run, sorted);
    RunListIsFlat(env, m, run, m.repos);
    SameListExactly(env, m, run, sorted, m.repos);
    SortedExactly(env.RepoRows(), HasOwn(env, m, run), m.repos);
  }

  /** The task-run risks are the same ones from both stores; and they come in the same order exactly when the repos in
      which the run has a risk were registered in the order of their creation times. */
  lemma RunRisksAgree(env: Env, m: Snapshot, t: Snapshot, run: Id)
    requires env.Valid() && env.NamesPairs() && Related(m, t) && Coherent(env, m)
    requires forall r :: r in m.repos ==> r.id != ""
    ensures multiset(RunRiskList(Postgres, env, t, run)) == multiset(RunRiskList(InMemory, env, m, run))
    ensures RunRiskList(Postgres, env, t, run) == RunRiskList(InMemory, env, m, run)
       <==> Sorted(env.RepoRows(), Filter(HasOwn(env, m, run), m.repos))
  {
    RunRisksFromRepos(env, m, t, run);
    AllRisksSorted(env, m, m.repos);
    FilterSameMultiset(Touches(RunLeaseIds(m.leases, run)),
                       AllRiskList(InMemory, env, m, Sort(env.RepoRows(), m.repos)), AllRiskList(InMemory, env, m, m.repos));
    OrderOfRunRisks(env, m, run);
  }
}
