/** The dashboard's costs per task and in total (apps/api/src/dashboard-read-model.ts:84-107, 780). */
module CostModel {
  import opened Sequences

  type Id = string
  datatype UsageEvent = UsageEvent(id: Id, taskId: Option<Id>, costUsd: Option<real>)

  function OfTask(task: Id): UsageEvent -> bool {
    (e: UsageEvent) => e.taskId == Some(task)
  }

  /** reduce((total, event) => total + (event.costUsd ?? 0), 0), from the left. */
  function Cost(events: seq<UsageEvent>): real {
    if events == [] then 0.0
    else Cost(events[..|events| - 1]) + events[|events| - 1].costUsd.GetOr(0.0)
  }

  /** usageCostUsd of one task row. */
  function TaskCost(events: seq<UsageEvent>, task: Id): real {
    Cost(Filter(OfTask(task), events))
  }

  function TaskCosts(events: seq<UsageEvent>, tasks: seq<Id>): real {
    if tasks == [] then 0.0 else TaskCost(events, tasks[0]) + TaskCosts(events, tasks[1..])
  }

  function Unlisted(tasks: seq<Id>): UsageEvent -> bool {
    (e: UsageEvent) => e.taskId.None? || e.taskId.value !in tasks
  }

  lemma CostAppend(events: seq<UsageEvent>, e: UsageEvent)
    ensures Cost(events + [e]) == Cost(events) + e.costUsd.GetOr(0.0)
  {
    assert (events + [e])[..|events|] == events;
  }

  lemma FilteredCostAppend(p: UsageEvent -> bool, events: seq<UsageEvent>, e: UsageEvent)
    ensures Cost(Filter(p, events + [e])) == Cost(Filter(p, events)) + (if p(e) then e.costUsd.GetOr(0.0) else 0.0)
  {
    FilterAppend(p, events, [e]);
    if p(e) {
      CostAppend(Filter(p, events), e);
    } else {
      assert Filter(p, events) + [] == Filter(p, events);
    }
  }

  lemma {:induction false} TaskCostsAppend(events: seq<UsageEvent>, e: UsageEvent, tasks: seq<Id>)
    requires NoDup(tasks)
    ensures TaskCosts(events + [e], tasks)
         == TaskCosts(events, tasks) + (if Unlisted(tasks)(e) then 0.0 else e.costUsd.GetOr(0.0))
  {
    if tasks != [] {
      TaskCostsAppend(events, e, tasks[1..]);
      FilteredCostAppend(OfTask(tasks[0]), events, e);
      assert tasks[0] !in tasks[1..];
      assert forall t :: t in tasks <==> t == tasks[0] || t in tasks[1..];
    }
  }

  /** One more event adds its cost, nothing if it has none, to the total and to the row of its own task, and to no other. */
  lemma EventAdds(events: seq<UsageEvent>, e: UsageEvent, task: Id)
    ensures Cost([]) == 0.0 && TaskCost([], task) == 0.0
    ensures Cost(events + [e]) == Cost(events) + (if e.costUsd.Some? then e.costUsd.value else 0.0)
    ensures TaskCost(events + [e], task)
         == TaskCost(events, task) + (if e.taskId == Some(task) && e.costUsd.Some? then e.costUsd.value else 0.0)
  {
    CostAppend(events, e);
    FilteredCostAppend(OfTask(task), events, e);
  }

  lemma {:induction false} NoEventsNoCost(tasks: seq<Id>)
    ensures TaskCosts([], tasks) == 0.0
  {
    if tasks != [] {
      NoEventsNoCost(tasks[1..]);
    }
  }

  /** With unique task ids, the costs of the task rows and the cost of the events of unlisted tasks add up to the
      overview's total. */
  lemma {:induction false} CostsAddUp(events: seq<UsageEvent>, tasks: seq<Id>)
    requires NoDup(tasks)
    ensures TaskCosts(events, tasks) + Cost(Filter(Unlisted(tasks), events)) == Cost(events)
  {
    if events == [] {
      NoEventsNoCost(tasks);
    } else {
      var front, e := events[..|events| - 1], events[|events| - 1];
      assert events == front + [e];
      CostsAddUp(front, tasks);
      TaskCostsAppend(front, e, tasks);
      FilteredCostAppend(Unlisted(tasks), front, e);
    }
  }
}
