/** The order in which records are listed, in the fields of the records (packages/db/src/repository.ts:240-243, 568-577,
    packages/db/src/postgres.ts:199-228, 301-325, 566-581, 738-740). */
module ListingMeaning {
  import opened Sequences
  import opened Domain
  import opened ConflictRisks
  import opened Queue
  import opened Stores

  /** A lower priority comes first, then the older entry; Postgres has ties by id. */
  ghost predicate QueueOrdered(b: Backend, env: Env, list: seq<QueueEntry>) {
    forall i, j :: 0 <= i < j < |list| ==>
      || list[i].priority < list[j].priority
      || (list[i].priority == list[j].priority && list[i].createdAt < list[j].createdAt)
      || (list[i].priority == list[j].priority && list[i].createdAt == list[j].createdAt
          && (b == Postgres ==> env.database(list[i].id) <= env.database(list[j].id)))
  }

  /** The queue as listed: the stored entries, in that order; in memory, entries of one priority and one time stay in the order
      in which they were queued. */
  lemma QueueListIs(b: Backend, env: Env, s: Snapshot, priority: int, at: Millis)
    ensures var list, tied := QueueList(b, env, s), (e: QueueEntry) => e.priority == priority && e.createdAt == at;
            && multiset(list) == multiset(s.queue) && QueueOrdered(b, env, list)
            && (b == InMemory ==> Filter(tied, list) == Filter(tied, s.queue))
  {
    var le, tied := if b == InMemory then env.QueueOrder() else env.QueueRows(), (e: QueueEntry) => e.priority == priority && e.createdAt == at;
    RowOrdersTotal(env);
    SortMultiset(le, s.queue);
    SortSorted(le, s.queue);
    QueueSorted(b, env, le, QueueList(b, env, s));
    TiesStay(env, s.queue, tied, priority, at);
  }

  lemma TiesStay(env: Env, queue: seq<QueueEntry>, tied: QueueEntry -> bool, priority: int, at: Millis)
    requires forall e :: tied(e) <==> e.priority == priority && e.createdAt == at
    ensures Filter(tied, Sort(env.QueueOrder(), queue)) == Filter(tied, queue)
  {
    RowOrdersTotal(env);
    FilterSort(env.QueueOrder(), tied, queue);
    FilterMembers(tied, queue);
    var ties := Filter(tied, queue);
    assert forall i :: 0 <= i < |ties| ==> ties[i] in ties;
    SortOfSorted(env.QueueOrder(), ties);
  }

  lemma QueueSorted(b: Backend, env: Env, le: (QueueEntry, QueueEntry) -> bool, list: seq<QueueEntry>)
    requires le == (if b == InMemory then env.QueueOrder() else env.QueueRows()) && Sorted(le, list)
    ensures QueueOrdered(b, env, list)
  {
    forall i, j | 0 <= i < j < |list|
      ensures || list[i].priority < list[j].priority
              || (list[i].priority == list[j].priority && list[i].createdAt < list[j].createdAt)
              || (list[i].priority == list[j].priority && list[i].createdAt == list[j].createdAt
                  && (b == Postgres ==> env.database(list[i].id) <= env.database(list[j].id)))
    {
      assert le(list[i], list[j]);
    }
  }

  /** Older records first, ties by id in the order of the database. */
  ghost predicate OldestFirst<T(!new)>(env: Env, at: T -> Millis, id: T -> Id, list: seq<T>) {
    forall i, j :: 0 <= i < j < |list| ==>
      || at(list[i]) < at(list[j])
      || (at(list[i]) == at(list[j]) && env.database(id(list[i])) <= env.database(id(list[j])))
  }

  lemma RowsOldestFirst<T(!new)>(env: Env, le: (T, T) -> bool, at: T -> Millis, id: T -> Id, rows: seq<T>)
    requires TotalPreorder(le)
    requires forall x, y :: le(x, y) <==> at(x) < at(y) || (at(x) == at(y) && env.database(id(x)) <= env.database(id(y)))
    ensures multiset(Sort(le, rows)) == multiset(rows) && OldestFirst(env, at, id, Sort(le, rows))
  {
    SortMultiset(le, rows);
    SortSorted(le, rows);
  }

  /** Postgres lists repos, tasks, log entries and active leases with the oldest first. */
  lemma TablesOldestFirst(env: Env, s: Snapshot, repo: Id)
    ensures var repos := ReposOf(Postgres, env, s.repos);
            multiset(repos) == multiset(s.repos) && OldestFirst(env, (x: Repo) => x.createdAt, (x: Repo) => x.id, repos)
    ensures var tasks := Sort(env.TaskRows(), s.tasks);
            multiset(tasks) == multiset(s.tasks) && OldestFirst(env, (x: Task) => x.createdAt, (x: Task) => x.id, tasks)
    ensures var logs := AuditList(Postgres, env, s);
            multiset(logs) == multiset(s.audit) && OldestFirst(env, (x: AuditLog) => x.createdAt, (x: AuditLog) => x.id, logs)
    ensures OldestFirst(env, (x: Lease) => x.createdAt, (x: Lease) => x.id, ActiveOf(Postgres, env, s.leases, repo))
  {
    RowOrdersTotal(env);
    AuditRowsTotal(env);
    RowsOldestFirst(env, env.RepoRows(), (x: Repo) => x.createdAt, (x: Repo) => x.id, s.repos);
    RowsOldestFirst(env, env.TaskRows(), (x: Task) => x.createdAt, (x: Task) => x.id, s.tasks);
    RowsOldestFirst(env, env.AuditRows(), (x: AuditLog) => x.createdAt, (x: AuditLog) => x.id, s.audit);
    RowsOldestFirst(env, env.LeaseRows(), (x: Lease) => x.createdAt, (x: Lease) => x.id, Filter(ActiveRow(repo), s.leases));
  }

  /** The active leases of a repo; for Postgres an empty repo id stands for every repo, and for the array for itself, which
      keeps its order. */
  lemma ActiveLeasesAre(b: Backend, env: Env, leases: seq<Lease>, repo: Id, l: Lease)
    ensures l in ActiveOf(b, env, leases, repo)
       <==> l in leases && l.status == Active && (l.repoId == repo || (b == Postgres && repo == ""))
    ensures ActiveOf(InMemory, env, leases, repo) == Filter((x: Lease) => x.status == Active && x.repoId == repo, leases)
  {
    FilterMembers(ActiveIn(repo), leases);
    FilterMembers(ActiveRow(repo), leases);
    SortMembers(env.LeaseRows(), Filter(ActiveRow(repo), leases));
    FilterCongruent(ActiveIn(repo), (x: Lease) => x.status == Active && x.repoId == repo, leases);
  }
}
