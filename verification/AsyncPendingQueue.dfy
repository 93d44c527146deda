/**
 * The in-memory queues of the asynchronous mode: one per order, of which only the head may run. A task
 * is named by the position of its arrival in the history of the queue, so no two arrivals are equal.
 */
module AsyncQueue {
  import opened Domain

  datatype Op =
    | Added(key: OrderKey, partition: int)
    | Completed(arrival: nat)
    | Revoked(partitions: seq<int>)

  type History = seq<Op>

  predicate Has(partitions: seq<int>, p: int) {
    exists i :: 0 <= i < |partitions| && partitions[i] == p
  }

  predicate IsArrival(h: History, i: nat) {
    i < |h| && h[i].Added?
  }

  function PartitionOf(h: History, i: nat): int {
    if IsArrival(h, i) then h[i].partition else 0
  }

  function Kept(h: History, queue: seq<nat>, partitions: seq<int>): seq<nat> {
    if queue == [] then []
    else
      var last := queue[|queue| - 1];
      Kept(h, queue[..|queue| - 1], partitions) + (if Has(partitions, PartitionOf(h, last)) then [] else [last])
  }

  /** The queue of an order after a history, as arrivals. */
  function QueueOf(h: History, key: OrderKey): seq<nat> {
    if h == [] then []
    else
      var before, op := QueueOf(h[..|h| - 1], key), h[|h| - 1];
      match op
      case Added(k, _) => if k == key then before + [|h| - 1] else before
      case Completed(i) => if before != [] && before[0] == i then before[1..] else before
      case Revoked(partitions) => Kept(h, before, partitions)
  }

  // ---- what the queue is

  predicate RevokedSince(h: History, i: nat) {
    exists j :: i < j < |h| && h[j].Revoked? && Has(h[j].partitions, PartitionOf(h, i))
  }

  predicate Headed(h: History, i: nat, key: OrderKey) {
    QueueOf(h, key) != [] && QueueOf(h, key)[0] == i
  }

  /** The task was completed while it was the head of its order. */
  predicate CompletedAsHead(h: History, i: nat, key: OrderKey) {
    exists j :: i < j < |h| && h[j] == Completed(i) && Headed(h[..j], i, key)
  }

  predicate Waits(h: History, i: nat, key: OrderKey) {
    IsArrival(h, i) && h[i].key == key && !RevokedSince(h, i) && !CompletedAsHead(h, i, key)
  }

  predicate Contains(queue: seq<nat>, i: nat) {
    exists k :: 0 <= k < |queue| && queue[k] == i
  }

  predicate Increasing(queue: seq<nat>) {
    forall a, b :: 0 <= a < b < |queue| ==> queue[a] < queue[b]
  }

  predicate Below(queue: seq<nat>, bound: int) {
    forall k :: 0 <= k < |queue| ==> queue[k] < bound
  }

  lemma ContainsAppend(queue: seq<nat>, last: nat, i: nat)
    ensures Contains(queue + [last], i) <==> Contains(queue, i) || i == last
  {
    assert (queue + [last])[|queue|] == last;
    if Contains(queue, i) {
      var k :| 0 <= k < |queue| && queue[k] == i;
      assert (queue + [last])[k] == i;
    }
  }

  lemma {:induction false} KeptIsFiltered(h: History, queue: seq<nat>, partitions: seq<int>, bound: int)
    requires Increasing(queue) && Below(queue, bound)
    ensures Increasing(Kept(h, queue, partitions)) && Below(Kept(h, queue, partitions), bound)
    ensures forall i: nat ::
          Contains(Kept(h, queue, partitions), i) <==> Contains(queue, i) && !Has(partitions, PartitionOf(h, i))
  {
    if queue != [] {
      var n := |queue| - 1;
      var rest, last := Kept(h, queue[..n], partitions), queue[n];
      KeptIsFiltered(h, queue[..n], partitions, last);
      forall i: nat
        ensures Contains(Kept(h, queue, partitions), i) <==> Contains(queue, i) && !Has(partitions, PartitionOf(h, i))
      {
        ContainsAppend(queue[..n], last, i);
        ContainsAppend(rest, last, i);
        assert queue == queue[..n] + [last];
        assert Contains(rest, i) <==> Contains(queue[..n], i) && !Has(partitions, PartitionOf(h, i));
        assert rest + [] == rest;
        assert !Contains(queue[..n], last) && !Contains(rest, last);
      }
    }
  }

  lemma RevokedSinceGrows(h: History, i: nat)
    requires h != [] && IsArrival(h, i) && i < |h| - 1
    ensures var op := h[|h| - 1];
            RevokedSince(h, i)
            <==> RevokedSince(h[..|h| - 1], i) || (op.Revoked? && Has(op.partitions, PartitionOf(h, i)))
  {
    var before := h[..|h| - 1];
    if RevokedSince(before, i) {
      var j :| i < j < |before| && before[j].Revoked? && Has(before[j].partitions, PartitionOf(before, i));
      assert h[j] == before[j];
    }
    if RevokedSince(h, i) {
      var j :| i < j < |h| && h[j].Revoked? && Has(h[j].partitions, PartitionOf(h, i));
      assert j < |h| - 1 ==> before[j] == h[j];
    }
  }

  lemma CompletedGrows(h: History, i: nat, key: OrderKey)
    requires h != [] && i < |h| - 1
    ensures var before := h[..|h| - 1];
            CompletedAsHead(h, i, key)
            <==> CompletedAsHead(before, i, key) || (h[|h| - 1] == Completed(i) && Headed(before, i, key))
  {
    var before := h[..|h| - 1];
    if CompletedAsHead(before, i, key) {
      var j :| i < j < |before| && before[j] == Completed(i) && Headed(before[..j], i, key);
      assert h[j] == before[j] && h[..j] == before[..j];
    }
    if CompletedAsHead(h, i, key) {
      var j :| i < j < |h| && h[j] == Completed(i) && Headed(h[..j], i, key);
      assert j < |h| - 1 ==> before[j] == h[j] && before[..j] == h[..j];
    }
  }

  lemma ContainsTail(queue: seq<nat>, i: nat)
    requires queue != [] && Increasing(queue)
    ensures Contains(queue[1..], i) <==> Contains(queue, i) && i != queue[0]
  {
    if Contains(queue, i) {
      var k :| 0 <= k < |queue| && queue[k] == i;
      assert k > 0 ==> queue[1..][k - 1] == i;
    }
  }

  lemma OneOpChanges(h: History, key: OrderKey, i: nat)
    requires h != [] && Increasing(QueueOf(h[..|h| - 1], key)) && Below(QueueOf(h[..|h| - 1], key), |h| - 1)
    ensures var before, op, queue := h[..|h| - 1], h[|h| - 1], QueueOf(h[..|h| - 1], key);
            && (op.Added? ==> (Contains(QueueOf(h, key), i) <==> Contains(queue, i) || (op.key == key && i == |h| - 1)))
            && (op.Completed? ==>
                  (Contains(QueueOf(h, key), i)
                  <==> Contains(queue, i) && !(op.arrival == i && Headed(before, i, key))))
            && (i >= |h| - 1 ==> !Contains(queue, i))
  {
    var queue, op := QueueOf(h[..|h| - 1], key), h[|h| - 1];
    if op.Added? {
      ContainsAppend(queue, |h| - 1, i);
    } else if op.Completed? && queue != [] && queue[0] == op.arrival {
      ContainsTail(queue, i);
    }
  }

  /**
   * The queue of an order is its arrivals in order, without those completed as its head and those whose
   * partition was revoked since.
   */
  lemma {:induction false} QueueIsExact(h: History, key: OrderKey)
    ensures Increasing(QueueOf(h, key)) && Below(QueueOf(h, key), |h|)
    ensures forall i: nat :: Contains(QueueOf(h, key), i) <==> Waits(h, i, key)
  {
    if h != [] {
      var before, op := h[..|h| - 1], h[|h| - 1];
      QueueIsExact(before, key);
      var queue := QueueOf(before, key);
      if op.Revoked? {
        KeptIsFiltered(h, queue, op.partitions, |before|);
      }
      forall i: nat
        ensures Contains(QueueOf(h, key), i) <==> Waits(h, i, key)
      {
        if i < |before| {
          if IsArrival(h, i) {
            RevokedSinceGrows(h, i);
          }
          CompletedGrows(h, i, key);
          assert Contains(queue, i) <==> Waits(before, i, key);
        }
        OneOpChanges(h, key, i);
      }
    }
  }

  // ---- generations

  function Times(partitions: seq<int>, p: int): nat {
    if partitions == [] then 0
    else Times(partitions[..|partitions| - 1], p) + (if partitions[|partitions| - 1] == p then 1 else 0)
  }

  /** How often a partition has been revoked. */
  function Generation(h: History, p: int): nat {
    if h == [] then 0
    else
      var op := h[|h| - 1];
      Generation(h[..|h| - 1], p) + (if op.Revoked? then Times(op.partitions, p) else 0)
  }

  lemma {:induction false} TimesIsHas(partitions: seq<int>, p: int)
    ensures Times(partitions, p) > 0 <==> Has(partitions, p)
  {
    if partitions != [] {
      var n := |partitions| - 1;
      TimesIsHas(partitions[..n], p);
      if Has(partitions, p) && partitions[n] != p {
        var i :| 0 <= i < |partitions| && partitions[i] == p;
        assert partitions[..n][i] == p;
      }
      if Has(partitions[..n], p) {
        var i :| 0 <= i < n && partitions[..n][i] == p;
        assert partitions[i] == p;
      }
    }
  }

  /** A task is current exactly when its partition has not been revoked since it arrived. */
  lemma {:induction false} CurrentUntilRevoked(h: History, i: nat)
    requires IsArrival(h, i)
    ensures Generation(h, h[i].partition) >= Generation(h[..i], h[i].partition)
    ensures Generation(h, h[i].partition) == Generation(h[..i], h[i].partition) <==> !RevokedSince(h, i)
  {
    var p, before := h[i].partition, h[..|h| - 1];
    if i < |h| - 1 {
      assert before[..i] == h[..i];
      CurrentUntilRevoked(before, i);
      RevokedSinceGrows(h, i);
      if h[|h| - 1].Revoked? {
        TimesIsHas(h[|h| - 1].partitions, p);
      }
    }
  }

  /** Every queued task is current. */
  lemma QueuedIsCurrent(h: History, key: OrderKey, k: nat)
    requires k < |QueueOf(h, key)|
    ensures var i := QueueOf(h, key)[k];
            IsArrival(h, i) && h[i].key == key && Generation(h, h[i].partition) == Generation(h[..i], h[i].partition)
  {
    QueueIsExact(h, key);
    var i := QueueOf(h, key)[k];
    assert Contains(QueueOf(h, key), i);
    assert Waits(h, i, key);
    CurrentUntilRevoked(h, i);
  }

  // ---- the queue itself

  datatype Task = Task(arrival: nat, key: OrderKey, partition: int, epoch: nat)

  function TaskAt(h: History, i: nat): Task {
    if IsArrival(h, i) then Task(i, h[i].key, h[i].partition, Generation(h[..i], h[i].partition))
    else Task(i, OrderKey(0, 0), 0, 0)
  }

  /** The queued tasks of an order, with the generation each was added under. */
  function TasksOf(h: History, queue: seq<nat>): (tasks: seq<Task>)
    ensures |tasks| == |queue|
  {
    if queue == [] then [] else TasksOf(h, queue[..|queue| - 1]) + [TaskAt(h, queue[|queue| - 1])]
  }

  function Look(generations: map<int, nat>, p: int): nat {
    if p in generations then generations[p] else 0
  }

  /** The map holds exactly the orders with queued tasks; no empty queue stays behind. */
  ghost predicate Represents(pending: map<OrderKey, seq<Task>>, h: History) {
    && (forall key :: key in pending <==> QueueOf(h, key) != [])
    && (forall key :: key in pending ==> pending[key] == TasksOf(h, QueueOf(h, key)))
  }

  function Remaining(tasks: seq<Task>, partitions: seq<int>): seq<Task> {
    if tasks == [] then []
    else
      var last := tasks[|tasks| - 1];
      Remaining(tasks[..|tasks| - 1], partitions) + (if Has(partitions, last.partition) then [] else [last])
  }

  lemma GenerationGrows(h: History, op: Op)
    ensures forall p ::
          Generation(h + [op], p) == Generation(h, p) + (if op.Revoked? then Times(op.partitions, p) else 0)
  {
    assert (h + [op])[..|h|] == h;
  }

  lemma TaskStays(h: History, op: Op, i: nat)
    requires i < |h|
    ensures TaskAt(h + [op], i) == TaskAt(h, i) && PartitionOf(h + [op], i) == PartitionOf(h, i)
  {
    assert (h + [op])[..i] == h[..i];
  }

  lemma {:induction false} TasksStay(h: History, op: Op, queue: seq<nat>)
    requires Below(queue, |h|)
    ensures TasksOf(h + [op], queue) == TasksOf(h, queue)
  {
    if queue != [] {
      TasksStay(h, op, queue[..|queue| - 1]);
      TaskStays(h, op, queue[|queue| - 1]);
    }
  }

  lemma TasksAppend(h: History, queue: seq<nat>, i: nat)
    ensures TasksOf(h, queue + [i]) == TasksOf(h, queue) + [TaskAt(h, i)]
  {
    assert (queue + [i])[..|queue|] == queue;
  }

  lemma AddedQueue(h: History, key: OrderKey, partition: int, k: OrderKey)
    ensures var after := h + [Added(key, partition)];
            TasksOf(after, QueueOf(after, k)) ==
              TasksOf(h, QueueOf(h, k))
                + (if k == key then [Task(|h|, key, partition, Generation(h, partition))] else [])
  {
    var op, queue := Added(key, partition), QueueOf(h, k);
    var after := h + [op];
    assert after[..|h|] == h;
    QueueIsExact(h, k);
    TasksStay(h, op, queue);
    TasksAppend(after, queue, |h|);
    assert queue + [] == queue;
  }

  lemma AddRepresents(pending: map<OrderKey, seq<Task>>, h: History, key: OrderKey, partition: int, task: Task)
    requires Represents(pending, h) && task == Task(|h|, key, partition, Generation(h, partition))
    ensures var op := Added(key, partition);
            && Represents(pending[key := (if key in pending then pending[key] else []) + [task]], h + [op])
            && TaskAt(h + [op], |h|) == task
  {
    var op := Added(key, partition);
    var after := pending[key := (if key in pending then pending[key] else []) + [task]];
    assert TaskAt(h + [op], |h|) == task by {
      assert (h + [op])[..|h|] == h;
    }
    forall k
      ensures k in after <==> QueueOf(h + [op], k) != []
      ensures k in after ==> after[k] == TasksOf(h + [op], QueueOf(h + [op], k))
    {
      AddedQueue(h, key, partition, k);
      hide QueueOf, TasksOf, TaskAt, Generation;
      assert k in pending <==> QueueOf(h, k) != [];
      assert k in pending ==> pending[k] == TasksOf(h, QueueOf(h, k));
    }
  }

  lemma {:induction false} TasksTail(h: History, queue: seq<nat>)
    requires queue != []
    ensures TasksOf(h, queue)[0] == TaskAt(h, queue[0]) && TasksOf(h, queue[1..]) == TasksOf(h, queue)[1..]
  {
    if |queue| > 1 {
      var n := |queue| - 1;
      TasksTail(h, queue[..n]);
      assert queue[1..][..n - 1] == queue[..n][1..];
    }
  }

  lemma QueuedAreArrivals(h: History, key: OrderKey)
    ensures Increasing(QueueOf(h, key)) && Below(QueueOf(h, key), |h|)
    ensures forall k :: 0 <= k < |QueueOf(h, key)| ==>
          IsArrival(h, QueueOf(h, key)[k]) && h[QueueOf(h, key)[k]].key == key
  {
    QueueIsExact(h, key);
    forall k | 0 <= k < |QueueOf(h, key)|
      ensures IsArrival(h, QueueOf(h, key)[k]) && h[QueueOf(h, key)[k]].key == key
    {
      assert Contains(QueueOf(h, key), QueueOf(h, key)[k]);
    }
  }

  lemma CompletedQueue(h: History, i: nat, key: OrderKey)
    requires IsArrival(h, i)
    ensures var tasks, after := TasksOf(h, QueueOf(h, key)), h + [Completed(i)];
            TasksOf(after, QueueOf(after, key)) == if tasks != [] && tasks[0] == TaskAt(h, i) then tasks[1..] else tasks
    ensures var tasks := TasksOf(h, QueueOf(h, key)); tasks != [] && tasks[0] == TaskAt(h, i) ==> key == h[i].key
  {
    var op, queue := Completed(i), QueueOf(h, key);
    assert (h + [op])[..|h|] == h;
    QueuedAreArrivals(h, key);
    TasksStay(h, op, queue);
    if queue != [] {
      TasksTail(h, queue);
      TasksTail(h + [op], queue);
      assert IsArrival(h, queue[0]) && h[queue[0]].key == key;
    }
  }

  lemma TaskHasKey(h: History, task: Task)
    requires IsArrival(h, task.arrival) && task == TaskAt(h, task.arrival)
    ensures task.key == h[task.arrival].key
  {
  }

  lemma CompleteRepresents(pending: map<OrderKey, seq<Task>>, h: History, task: Task)
    requires Represents(pending, h) && IsArrival(h, task.arrival) && task == TaskAt(h, task.arrival)
    ensures Represents(
      if task.key in pending && pending[task.key] != [] && pending[task.key][0] == task then
        (if pending[task.key][1..] == [] then pending - {task.key} else pending[task.key := pending[task.key][1..]])
      else pending, h + [Completed(task.arrival)])
  {
    hide QueueOf, TasksOf, TaskAt;
    var op := Completed(task.arrival);
    var heads := task.key in pending && pending[task.key] != [] && pending[task.key][0] == task;
    var after :=
      if heads then (if pending[task.key][1..] == [] then pending - {task.key}
      else pending[task.key := pending[task.key][1..]])
      else pending;
    forall k
      ensures k in after <==> QueueOf(h + [op], k) != []
      ensures k in after ==> after[k] == TasksOf(h + [op], QueueOf(h + [op], k))
    {
      CompletedQueue(h, task.arrival, k);
      TaskHasKey(h, task);
      assert k in pending <==> QueueOf(h, k) != [];
      assert k in pending ==> pending[k] == TasksOf(h, QueueOf(h, k));
    }
  }

  lemma {:induction false} TasksKept(h: History, queue: seq<nat>, partitions: seq<int>)
    requires forall k :: 0 <= k < |queue| ==> IsArrival(h, queue[k])
    ensures TasksOf(h, Kept(h, queue, partitions)) == Remaining(TasksOf(h, queue), partitions)
  {
    if queue != [] {
      var n := |queue| - 1;
      var rest := Kept(h, queue[..n], partitions);
      TasksKept(h, queue[..n], partitions);
      if Has(partitions, PartitionOf(h, queue[n])) {
        assert rest + [] == rest;
        assert Remaining(TasksOf(h, queue[..n]), partitions) + [] == Remaining(TasksOf(h, queue[..n]), partitions);
      } else {
        TasksAppend(h, rest, queue[n]);
      }
    }
  }

  lemma RevokedQueue(h: History, partitions: seq<int>, key: OrderKey)
    ensures var after := h + [Revoked(partitions)];
            TasksOf(after, QueueOf(after, key)) == Remaining(TasksOf(h, QueueOf(h, key)), partitions)
    ensures QueueOf(h, key) == [] ==> QueueOf(h + [Revoked(partitions)], key) == []
  {
    var op := Revoked(partitions);
    assert (h + [op])[..|h|] == h;
    QueuedAreArrivals(h, key);
    TasksStay(h, op, QueueOf(h, key));
    TasksKept(h + [op], QueueOf(h, key), partitions);
  }

  lemma RevokeRepresents(
    before: map<OrderKey, seq<Task>>, after: map<OrderKey, seq<Task>>, h: History, partitions: seq<int>)
    requires Represents(before, h)
    requires forall key :: key in after <==> key in before && Remaining(before[key], partitions) != []
    requires forall key :: key in after ==> after[key] == Remaining(before[key], partitions)
    ensures Represents(after, h + [Revoked(partitions)])
  {
    var op := Revoked(partitions);
    forall key
      ensures key in after <==> QueueOf(h + [op], key) != []
      ensures key in after ==> after[key] == TasksOf(h + [op], QueueOf(h + [op], key))
    {
      RevokedQueue(h, partitions, key);
      hide QueueOf, TasksOf, Remaining;
      assert key in before <==> QueueOf(h, key) != [];
      assert key in before ==> before[key] == TasksOf(h, QueueOf(h, key));
    }
  }

  // ---- the order of the heads

  /** The position in the history at which the order's present queue began. */
  function Since(h: History, key: OrderKey): nat {
    if h == [] then 0
    else
      var before := h[..|h| - 1];
      if QueueOf(before, key) == [] then |before| else Since(before, key)
  }

  /** The orders with queued tasks, by the time their queues began. */
  ghost predicate Ordered(order: seq<OrderKey>, pending: map<OrderKey, seq<Task>>, h: History) {
    && (forall i :: 0 <= i < |order| ==> order[i] in pending)
    && (forall key :: key in pending ==> key in order)
    && (forall i, j :: 0 <= i < j < |order| ==> Since(h, order[i]) < Since(h, order[j]))
  }

  function Filtered(order: seq<OrderKey>, keys: set<OrderKey>): seq<OrderKey> {
    if order == [] then []
    else
      var last := order[|order| - 1];
      Filtered(order[..|order| - 1], keys) + (if last in keys then [last] else [])
  }

  lemma SinceStays(h: History, op: Op, key: OrderKey)
    ensures QueueOf(h, key) != [] ==> Since(h + [op], key) == Since(h, key)
    ensures QueueOf(h, key) == [] ==> Since(h + [op], key) == |h|
  {
    assert (h + [op])[..|h|] == h;
    hide QueueOf;
  }

  lemma {:induction false} SinceIsPast(h: History, key: OrderKey)
    requires QueueOf(h, key) != []
    ensures Since(h, key) < |h|
  {
    if h != [] && QueueOf(h[..|h| - 1], key) != [] {
      hide QueueOf;
      SinceIsPast(h[..|h| - 1], key);
    }
  }

  lemma {:induction false} FilteredHas(order: seq<OrderKey>, keys: set<OrderKey>, key: OrderKey)
    ensures key in Filtered(order, keys) <==> key in order && key in keys
  {
    if order != [] {
      var n := |order| - 1;
      FilteredHas(order[..n], keys, key);
      assert key in order <==> key in order[..n] || key == order[n];
    }
  }

  ghost predicate SortedBy(order: seq<OrderKey>, time: OrderKey -> int) {
    forall i, j :: 0 <= i < j < |order| ==> time(order[i]) < time(order[j])
  }

  lemma {:induction false} FilteredStaysSorted(order: seq<OrderKey>, keys: set<OrderKey>, time: OrderKey -> int)
    requires SortedBy(order, time)
    ensures SortedBy(Filtered(order, keys), time)
  {
    if order != [] {
      var n := |order| - 1;
      FilteredStaysSorted(order[..n], keys, time);
      var before := Filtered(order[..n], keys);
      forall i | 0 <= i < |before|
        ensures time(before[i]) < time(order[n])
      {
        FilteredHas(order[..n], keys, before[i]);
        var k :| 0 <= k < n && order[k] == before[i];
      }
    }
  }

  /** Queues that stay keep their places, a queue that begins comes last. */
  lemma OrderGoesOn(
    order: seq<OrderKey>, pending: map<OrderKey, seq<Task>>, h: History, after: map<OrderKey, seq<Task>>, op: Op)
    requires Ordered(order, pending, h) && Represents(pending, h) && after.Keys <= pending.Keys
    ensures Ordered(Filtered(order, after.Keys), after, h + [op])
  {
    forall i | 0 <= i < |order|
      ensures Since(h + [op], order[i]) == Since(h, order[i])
    {
      SinceStays(h, op, order[i]);
    }
    hide Since, QueueOf;
    var time := (key: OrderKey) => Since(h + [op], key);
    assert SortedBy(order, time);
    FilteredStaysSorted(order, after.Keys, time);
    var kept := Filtered(order, after.Keys);
    assert forall i :: 0 <= i < |kept| ==> time(kept[i]) == Since(h + [op], kept[i]);
    forall i | 0 <= i < |kept|
      ensures kept[i] in after
    {
      FilteredHas(order, after.Keys, kept[i]);
    }
    forall key | key in after
      ensures key in kept
    {
      assert key in pending.Keys;
      FilteredHas(order, after.Keys, key);
    }
  }

  lemma AddOrders(
    order: seq<OrderKey>, pending: map<OrderKey, seq<Task>>, h: History, key: OrderKey, tasks: seq<Task>, op: Op)
    requires Ordered(order, pending, h) && Represents(pending, h)
    ensures Ordered(if key in pending then order else order + [key], pending[key := tasks], h + [op])
  {
    forall i | 0 <= i < |order|
      ensures Since(h + [op], order[i]) == Since(h, order[i]) < |h|
    {
      SinceStays(h, op, order[i]);
      SinceIsPast(h, order[i]);
    }
    SinceStays(h, op, key);
    assert key !in pending ==> QueueOf(h, key) == [];
    hide Since, QueueOf, Represents;
    var more := order + [key];
    assert forall k :: k in more <==> k in order || k == key;
  }

  lemma {:induction false} DistinctCount(order: seq<OrderKey>, keys: set<OrderKey>)
    requires forall i, j :: 0 <= i < j < |order| ==> order[i] != order[j]
    requires forall key :: key in keys <==> key in order
    ensures |order| == |keys|
  {
    if order != [] {
      var n := |order| - 1;
      assert forall key :: key in order <==> key in order[..n] || key == order[n];
      DistinctCount(order[..n], keys - {order[n]});
    }
  }

  lemma HeadIsOfOrder(pending: map<OrderKey, seq<Task>>, h: History, key: OrderKey)
    requires Represents(pending, h) && key in pending
    ensures pending[key] != [] && pending[key][0].key == key
  {
    QueuedAreArrivals(h, key);
    TasksTail(h, QueueOf(h, key));
  }

  lemma HeadsAreAll(order: seq<OrderKey>, pending: map<OrderKey, seq<Task>>, heads: seq<Task>)
    requires |heads| == |order| && forall key :: key in pending <==> key in order
    requires forall k :: 0 <= k < |order| ==> pending[order[k]] != [] && heads[k] == pending[order[k]][0]
    ensures forall task ::
          task in heads <==> exists key :: key in pending && pending[key] != [] && pending[key][0] == task
  {
    forall task | task in heads
      ensures exists key :: key in pending && pending[key] != [] && pending[key][0] == task
    {
      var k :| 0 <= k < |heads| && heads[k] == task;
      assert order[k] in pending;
    }
    forall key | key in pending && pending[key] != []
      ensures pending[key][0] in heads
    {
      var k :| 0 <= k < |order| && order[k] == key;
      assert heads[k] in heads;
    }
  }

  class AsyncPendingQueue {
    var pending: map<OrderKey, seq<Task>>
    var order: seq<OrderKey>                // in which the map lists its keys
    var generations: map<int, nat>
    ghost var history: History

    ghost predicate Valid()
      reads this
    {
      && Represents(pending, history) && Ordered(order, pending, history)
      && forall p :: Look(generations, p) == Generation(history, p)
    }

    constructor ()
      ensures Valid() && history == []
    {
      pending, order, generations, history := map[], [], map[], [];
    }

    /** The task joins the end of its order's queue under the current generation of its partition. */
    method Add(key: OrderKey, partition: int, arrival: nat) returns (task: Task)
      requires Valid() && arrival == |history|
      modifies this
      ensures Valid() && history == old(history) + [Added(key, partition)]
      ensures task == TaskAt(history, arrival)
    {
      hide Represents, Ordered, Generation, QueueOf;
      ghost var h, op := history, Added(key, partition);
      task := Task(arrival, key, partition, Look(generations, partition));
      AddRepresents(pending, h, key, partition, task);
      AddOrders(order, pending, h, key, (if key in pending then pending[key] else []) + [task], op);
      if key !in pending {
        order := order + [key];
      }
      pending := pending[key := (if key in pending then pending[key] else []) + [task]];
      history := history + [op];
      GenerationGrows(h, op);
    }

    /** The task every order would run next, the order whose queue has begun first in front. */
    method Heads() returns (heads: seq<Task>)
      requires Valid()
      ensures |heads| == |pending|
      ensures forall task ::
            task in heads <==> exists key :: key in pending && pending[key] != [] && pending[key][0] == task
      ensures forall i, j :: 0 <= i < j < |heads| ==> Since(history, heads[i].key) < Since(history, heads[j].key)
    {
      hide Represents, QueueOf, Since;
      heads := [];
      for i := 0 to |order|
        invariant |heads| == i
        invariant forall k :: 0 <= k < i ==> order[k] in pending && pending[order[k]] != []
        invariant forall k :: 0 <= k < i ==> heads[k] == pending[order[k]][0] && heads[k].key == order[k]
      {
        HeadIsOfOrder(pending, history, order[i]);
        heads := heads + [pending[order[i]][0]];
      }
      DistinctCount(order, pending.Keys);
      HeadsAreAll(order, pending, heads);
    }

    /** Completing a task that does not stand first changes no queue. */
    method Complete(task: Task)
      requires Valid() && IsArrival(history, task.arrival) && task == TaskAt(history, task.arrival)
      modifies this
      ensures Valid() && history == old(history) + [Completed(task.arrival)]
    {
      hide Represents, Ordered, Generation, QueueOf;
      ghost var h, op, before := history, Completed(task.arrival), pending;
      CompleteRepresents(pending, h, task);
      history := history + [op];
      GenerationGrows(h, op);
      if task.key in pending && pending[task.key] != [] && pending[task.key][0] == task {
        var rest := pending[task.key][1..];
        pending := if rest == [] then pending - {task.key} else pending[task.key := rest];
      }
      OrderGoesOn(order, before, h, pending, op);
      order := Filtered(order, pending.Keys);
    }

    /** Whether an acknowledgement of the task may still be sent. */
    method IsCurrent(task: Task) returns (current: bool)
      requires Valid() && IsArrival(history, task.arrival) && task == TaskAt(history, task.arrival)
      ensures current <==> !RevokedSince(history, task.arrival)
    {
      current := task.epoch == Look(generations, task.partition);
      CurrentUntilRevoked(history, task.arrival);
    }

    /** The tasks left are exactly those of the partitions that stay. */
    method Revoke(partitions: seq<int>)
      requires Valid()
      modifies this
      ensures Valid() && history == old(history) + [Revoked(partitions)]
    {
      hide Represents, Ordered, Generation, QueueOf;
      ghost var h, op := history, Revoked(partitions);
      for i := 0 to |partitions|
        invariant pending == old(pending) && order == old(order) && history == h
        invariant forall p :: Look(generations, p) == Generation(h, p) + Times(partitions[..i], p)
      {
        assert partitions[..i + 1][..i] == partitions[..i];
        generations := generations[partitions[i] := Look(generations, partitions[i]) + 1];
      }
      assert partitions[..|partitions|] == partitions;
      history := history + [op];
      GenerationGrows(h, op);
      var keys := pending.Keys;
      while keys != {}
        invariant keys <= old(pending).Keys && order == old(order)
        invariant history == h + [op] && forall p :: Look(generations, p) == Generation(history, p)
        invariant forall key :: key in pending <==>
          key in old(pending) && (key in keys || Remaining(old(pending)[key], partitions) != [])
        invariant forall key :: key in pending ==>
          pending[key] == if key in keys then old(pending)[key] else Remaining(old(pending)[key], partitions)
        decreases |keys|
      {
        var key :| key in keys;
        var rest := Remaining(pending[key], partitions);
        pending := if rest == [] then pending - {key} else pending[key := rest];
        keys := keys - {key};
      }
      RevokeRepresents(old(pending), pending, h, partitions);
      OrderGoesOn(order, old(pending), h, pending, op);
      order := Filtered(order, pending.Keys);
    }
  }
}
