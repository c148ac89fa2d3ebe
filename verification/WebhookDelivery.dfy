/** Classifying webhook deliveries against the growing log of earlier ones
    (packages/deployment-readiness/src/service.ts:481-514, catalog.ts:926-936). */
module WebhookDelivery {
  import opened Sequences

  datatype ReplayStatus = FirstSeen | Duplicate | ReplayRejected
  datatype ProcessingStatus = Pending | Ignored | Failed

  datatype Rejection = SameIdDifferentHash

  datatype Delivery = Delivery(
    deliveryId: string,
    eventType: string,
    payloadHash: string,
    repoRef: Option<string>,
    action: Option<string>,
    signatureVerified: Option<bool>,
    now: int)

  datatype Record = Record(
    id: string,
    deliveryId: string,
    eventType: string,
    repoRef: Option<string>,
    action: Option<string>,
    receivedAt: int,
    signatureVerified: bool,
    replayStatus: ReplayStatus,
    processingStatus: ProcessingStatus,
    payloadHash: string,
    attemptCount: nat,
    lastAttemptAt: int,
    duplicateOf: Option<string>,
    rejectedBecause: Option<Rejection>)

  function OfDelivery(id: string): Record -> bool {
    (r: Record) => r.deliveryId == id
  }

  /** How the service names a record: from the sanitised delivery id and the replay status. */
  type Naming = (string, ReplayStatus) -> string

  function Classify(name: Naming, log: seq<Record>, input: Delivery): Record {
    var previous := Find(OfDelivery(input.deliveryId), log);
    var replay :=
      if previous.None? then FirstSeen
      else if previous.value.payloadHash == input.payloadHash then Duplicate
      else ReplayRejected;
    Record(
      name(input.deliveryId, replay),
      input.deliveryId, input.eventType, input.repoRef, input.action, input.now,
      input.signatureVerified.GetOr(false),
      replay,
      if replay == FirstSeen then Pending else if replay == Duplicate then Ignored else Failed,
      input.payloadHash,
      if previous.Some? then previous.value.attemptCount + 1 else 1,
      input.now,
      if replay == Duplicate then Some(previous.value.id) else None,
      if replay == ReplayRejected then Some(SameIdDifferentHash) else None)
  }

  /** Each delivery is classified against the log so far and its record appended. */
  function Process(name: Naming, log: seq<Record>, inputs: seq<Delivery>): (r: seq<Record>)
    ensures |r| == |log| + |inputs|
  {
    if inputs == [] then log
    else
      var before := Process(name, log, inputs[..|inputs| - 1]);
      before + [Classify(name, before, inputs[|inputs| - 1])]
  }

  function OfId(id: string): Delivery -> bool {
    (d: Delivery) => d.deliveryId == id
  }

  // ----- a whole stream -----

  lemma FirstIndexIs<T(!new)>(p: T -> bool, s: seq<T>, i: nat)
    requires i <= |s| && (i < |s| ==> p(s[i])) && forall j :: 0 <= j < i ==> !p(s[j])
    ensures FirstIndex(p, s) == i
  {
  }

  lemma {:induction false} Prefix(name: Naming, inputs: seq<Delivery>, k: nat)
    requires k <= |inputs|
    ensures Process(name, [], inputs)[..k] == Process(name, [], inputs[..k])
    decreases |inputs|
  {
    if k == |inputs| {
      assert inputs[..k] == inputs;
    } else {
      var front := inputs[..|inputs| - 1];
      Prefix(name, front, k);
      assert front[..k] == inputs[..k];
    }
  }

  /** The record at each position is the classification against the log before it. */
  lemma RecordAt(name: Naming, inputs: seq<Delivery>, k: nat)
    requires k < |inputs|
    ensures var r := Process(name, [], inputs); r[k] == Classify(name, r[..k], inputs[k])
  {
    var upTo := inputs[..k + 1];
    Prefix(name, inputs, k + 1);
    Prefix(name, inputs, k);
    assert upTo[..k] == inputs[..k];
    assert Process(name, [], inputs)[k] == Process(name, [], inputs)[..k + 1][k];
  }

  ghost predicate SameIds(log: seq<Record>, inputs: seq<Delivery>) {
    |log| == |inputs| && forall i :: 0 <= i < |inputs| ==> log[i].deliveryId == inputs[i].deliveryId
  }

  lemma IdsKept(name: Naming, inputs: seq<Delivery>)
    ensures SameIds(Process(name, [], inputs), inputs)
  {
    forall i | 0 <= i < |inputs|
      ensures Process(name, [], inputs)[i].deliveryId == inputs[i].deliveryId
    {
      RecordAt(name, inputs, i);
    }
  }

  /** Looking an id up in the log before position k finds the record of its first delivery. */
  lemma FoundBefore(log: seq<Record>, inputs: seq<Delivery>, k: nat)
    requires SameIds(log, inputs) && k < |inputs|
    ensures var j := FirstIndex(OfId(inputs[k].deliveryId), inputs);
            && j <= k && inputs[j].deliveryId == inputs[k].deliveryId
            && Find(OfDelivery(inputs[k].deliveryId), log[..k]) == if j == k then None else Some(log[j])
  {
    var id := inputs[k].deliveryId;
    var j := FirstIndex(OfId(id), inputs);
    assert OfId(id)(inputs[k]);
    forall i | 0 <= i < j
      ensures !OfDelivery(id)(log[..k][i])
    {
      assert !OfId(id)(inputs[i]);
    }
    FirstIndexIs(OfDelivery(id), log[..k], j);
  }

  /** A record, given the record its id was first logged with. */
  ghost predicate Classified(name: Naming, r: Record, input: Delivery, previous: Option<Record>) {
    && r.deliveryId == input.deliveryId && r.payloadHash == input.payloadHash
    && (r.replayStatus == FirstSeen <==> previous.None?)
    && (r.replayStatus == Duplicate <==> previous.Some? && previous.value.payloadHash == input.payloadHash)
    && (r.processingStatus == Pending <==> r.replayStatus == FirstSeen)
    && (r.processingStatus == Ignored <==> r.replayStatus == Duplicate)
    && (r.duplicateOf == if r.replayStatus == Duplicate then Some(previous.value.id) else None)
    && r.attemptCount == (if previous.Some? then previous.value.attemptCount + 1 else 1)
  }

  lemma ClassifyIs(name: Naming, log: seq<Record>, input: Delivery)
    ensures Classified(name, Classify(name, log, input), input, Find(OfDelivery(input.deliveryId), log))
  {
  }

  lemma ClassifiedAt(name: Naming, inputs: seq<Delivery>, k: nat)
    requires k < |inputs|
    ensures var log := Process(name, [], inputs);
            var j := FirstIndex(OfId(inputs[k].deliveryId), inputs);
            j <= k && inputs[j].deliveryId == inputs[k].deliveryId
            && Classified(name, log[k], inputs[k], if j == k then None else Some(log[j]))
  {
    IdsKept(name, inputs);
    var log := Process(name, [], inputs);
    FoundBefore(log, inputs, k);
    RecordAt(name, inputs, k);
    ClassifyIs(name, log[..k], inputs[k]);
  }

  /** Every record of a stream, exactly: the first delivery of an id is first seen and pending; a later one is an
      ignored duplicate of the first record if it carries the first one's hash, and rejected if not. */
  lemma StreamClassification(name: Naming, inputs: seq<Delivery>, k: nat)
    requires k < |inputs|
    ensures var log := Process(name, [], inputs);
            var j := FirstIndex(OfId(inputs[k].deliveryId), inputs);
            && j <= k
            && (log[k].replayStatus == FirstSeen <==> j == k)
            && (log[k].replayStatus == Duplicate <==> j < k && inputs[k].payloadHash == inputs[j].payloadHash)
            && (log[k].replayStatus == ReplayRejected <==> j < k && inputs[k].payloadHash != inputs[j].payloadHash)
            && (log[k].processingStatus == Pending <==> log[k].replayStatus == FirstSeen)
            && (log[k].processingStatus == Ignored <==> log[k].replayStatus == Duplicate)
            && (log[k].duplicateOf == if log[k].replayStatus == Duplicate then Some(log[j].id) else None)
            && log[k].deliveryId == inputs[k].deliveryId && log[k].payloadHash == inputs[k].payloadHash
  {
    ClassifiedAt(name, inputs, k);
    ClassifiedAt(name, inputs, FirstIndex(OfId(inputs[k].deliveryId), inputs));
  }

  /** Exactly one first-seen record per distinct delivery id of the stream, at its first delivery. */
  lemma OneFirstSeenPerId(name: Naming, inputs: seq<Delivery>, id: string, k: nat)
    requires k < |inputs|
    ensures var r := Process(name, [], inputs)[k];
            (r.deliveryId == id && r.replayStatus == FirstSeen && r.processingStatus == Pending)
              <==> k == FirstIndex(OfId(id), inputs)
  {
    StreamClassification(name, inputs, k);
    if k == FirstIndex(OfId(id), inputs) {
      assert OfId(id)(inputs[k]);
    }
  }

  // ----- repeats change nothing else -----

  /** The two logs answer every lookup alike. */
  ghost predicate SameFirsts(s: seq<Record>, t: seq<Record>) {
    forall id :: Find(OfDelivery(id), s) == Find(OfDelivery(id), t)
  }

  lemma FindAppend(p: Record -> bool, s: seq<Record>, x: Record)
    ensures Find(p, s + [x]) == if Find(p, s).Some? then Find(p, s) else if p(x) then Some(x) else None
  {
    var i := FirstIndex(p, s);
    var t := s + [x];
    assert forall j :: 0 <= j < |s| ==> t[j] == s[j];
    FirstIndexIs(p, t, if i < |s| then i else if p(x) then |s| else |s| + 1);
  }

  lemma SameFirstsAppend(s: seq<Record>, t: seq<Record>, x: Record)
    requires SameFirsts(s, t)
    ensures SameFirsts(s + [x], t + [x])
  {
    forall id
      ensures Find(OfDelivery(id), s + [x]) == Find(OfDelivery(id), t + [x])
    {
      FindAppend(OfDelivery(id), s, x);
      FindAppend(OfDelivery(id), t, x);
    }
  }

  lemma RepeatIsInvisible(s: seq<Record>, x: Record)
    requires Find(OfDelivery(x.deliveryId), s).Some?
    ensures SameFirsts(s + [x], s)
  {
    forall id
      ensures Find(OfDelivery(id), s + [x]) == Find(OfDelivery(id), s)
    {
      FindAppend(OfDelivery(id), s, x);
    }
  }

  ghost predicate Drops(s: seq<Record>, n: nat, t: seq<Record>) {
    n < |s| && t == s[..n] + s[n + 1..]
  }

  /** t is s without its record n, and both answer every lookup alike. */
  ghost predicate Hides(s: seq<Record>, n: nat, t: seq<Record>) {
    Drops(s, n, t) && SameFirsts(s, t)
  }

  lemma HidesAppend(s: seq<Record>, n: nat, t: seq<Record>, x: Record)
    requires Hides(s, n, t)
    ensures Hides(s + [x], n, t + [x])
  {
    SameFirstsAppend(s, t, x);
    assert (s + [x])[n + 1..] == s[n + 1..] + [x];
    assert (s + [x])[..n] == s[..n];
  }

  lemma SameFirstsSameRecord(name: Naming, s: seq<Record>, t: seq<Record>, y: Delivery)
    requires SameFirsts(s, t)
    ensures Classify(name, s, y) == Classify(name, t, y)
  {
    assert Find(OfDelivery(y.deliveryId), s) == Find(OfDelivery(y.deliveryId), t);
  }

  /** Logs that answer alike keep answering alike, whatever is processed next. */
  lemma {:induction false} StaysHidden(name: Naming, s: seq<Record>, t: seq<Record>, n: nat, ys: seq<Delivery>)
    requires Hides(s, n, t)
    ensures Hides(Process(name, s, ys), n, Process(name, t, ys))
  {
    if ys != [] {
      var front, y := ys[..|ys| - 1], ys[|ys| - 1];
      StaysHidden(name, s, t, n, front);
      var p, q := Process(name, s, front), Process(name, t, front);
      SameFirstsSameRecord(name, p, q, y);
      HidesAppend(p, n, q, Classify(name, p, y));
    }
  }

  /** Whatever the log, a repeat of an id that is already in it leaves the record of every later delivery as it would
      have been without the repeat. */
  lemma RepeatsChangeNothingElse(name: Naming, log: seq<Record>, repeat: Delivery, ys: seq<Delivery>)
    requires Find(OfDelivery(repeat.deliveryId), log).Some?
    ensures Drops(Process(name, log + [Classify(name, log, repeat)], ys), |log|, Process(name, log, ys))
  {
    RepeatHides(log, Classify(name, log, repeat));
    StaysHidden(name, log + [Classify(name, log, repeat)], log, |log|, ys);
  }

  lemma RepeatHides(s: seq<Record>, r: Record)
    requires Find(OfDelivery(r.deliveryId), s).Some?
    ensures Hides(s + [r], |s|, s)
  {
    RepeatIsInvisible(s, r);
  }

  // ----- the attempt count -----

  function Deliveries(inputs: seq<Delivery>, id: string): nat {
    |Filter(OfId(id), inputs)|
  }

  lemma NoneBefore(inputs: seq<Delivery>, k: nat, id: string)
    requires k < |inputs| && inputs[k].deliveryId == id
    ensures Filter(OfId(id), inputs[..k]) == [] <==> FirstIndex(OfId(id), inputs) == k
  {
    var before := inputs[..k];
    var j := FirstIndex(OfId(id), inputs);
    FilterMembers(OfId(id), before);
    var f := Filter(OfId(id), before);
    assert OfId(id)(inputs[k]);
    assert f != [] ==> f[0] in f;
    if j < k {
      assert before[j] in before && before[j] in f;
    } else {
      assert forall i :: 0 <= i < k ==> !OfId(id)(before[i]);
    }
  }

  lemma DeliveriesSnoc(inputs: seq<Delivery>, k: nat, id: string)
    requires k < |inputs| && inputs[k].deliveryId == id
    ensures Deliveries(inputs[..k + 1], id) == Deliveries(inputs[..k], id) + 1
  {
    var p := OfId(id);
    assert inputs[..k + 1] == inputs[..k] + [inputs[k]];
    FilterAppend(p, inputs[..k], [inputs[k]]);
    assert p(inputs[k]);
    assert |Filter(p, [inputs[k]])| == 1;
  }

  lemma DeliveriesSoFar(inputs: seq<Delivery>, k: nat, id: string)
    requires k < |inputs| && inputs[k].deliveryId == id
    ensures Deliveries(inputs[..k + 1], id) >= 1
    ensures Deliveries(inputs[..k + 1], id) == 1 <==> FirstIndex(OfId(id), inputs) == k
  {
    DeliveriesSnoc(inputs, k, id);
    NoneBefore(inputs, k, id);
  }

  /** The attempt count of a record is the number of deliveries of its id so far exactly up to the second one: it is
      taken from the first record, so it stays 2 for every later repeat. */
  lemma AttemptCountStopsAtTwo(name: Naming, inputs: seq<Delivery>, k: nat)
    requires k < |inputs|
    ensures var r := Process(name, [], inputs)[k];
            var attempts := Deliveries(inputs[..k + 1], inputs[k].deliveryId);
            && r.attemptCount == (if attempts == 1 then 1 else 2)
            && (r.attemptCount == attempts <==> attempts <= 2)
  {
    DeliveriesSoFar(inputs, k, inputs[k].deliveryId);
    ClassifiedAt(name, inputs, k);
    ClassifiedAt(name, inputs, FirstIndex(OfId(inputs[k].deliveryId), inputs));
  }

  // ----- a record, field by field -----

  /** The record of position k of a stream whose delivery id first came at position j: what the delivery carries, unverified
      unless it was verified, at the time it came, and first seen, a duplicate or rejected. */
  lemma {:induction false} DeliveryRecordIs(name: Naming, inputs: seq<Delivery>, k: nat, j: nat)
    requires j <= k < |inputs| && inputs[j].deliveryId == inputs[k].deliveryId
    requires forall i :: 0 <= i < j ==> inputs[i].deliveryId != inputs[k].deliveryId
    ensures var d, r := inputs[k], Process(name, [], inputs)[k];
            && r.deliveryId == d.deliveryId && r.eventType == d.eventType && r.repoRef == d.repoRef && r.action == d.action
            && r.payloadHash == d.payloadHash && r.receivedAt == d.now && r.lastAttemptAt == d.now
            && (r.signatureVerified <==> d.signatureVerified == Some(true))
            && r.id == name(d.deliveryId, r.replayStatus)
    ensures var d, r := inputs[k], Process(name, [], inputs)[k];
            if j == k then
              && r.replayStatus == FirstSeen && r.processingStatus == Pending && r.attemptCount == 1
              && r.duplicateOf.None? && r.rejectedBecause.None?
            else if d.payloadHash == inputs[j].payloadHash then
              && r.replayStatus == Duplicate && r.processingStatus == Ignored && r.attemptCount == 2
              && r.duplicateOf == Some(Process(name, [], inputs)[j].id) && r.rejectedBecause.None?
            else
              && r.replayStatus == ReplayRejected && r.processingStatus == Failed && r.attemptCount == 2
              && r.duplicateOf.None? && r.rejectedBecause == Some(SameIdDifferentHash)
  {
    FirstIndexIs(OfId(inputs[k].deliveryId), inputs, j);
    StreamClassification(name, inputs, k);
    ClassifiedAt(name, inputs, k);
    ClassifiedAt(name, inputs, j);
    RecordAt(name, inputs, k);
  }
}
