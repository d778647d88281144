/**
 * The task-admission engine of utils/AsyncExecutor.py, reduced to its sequential bookkeeping:
 * the running registry (id -> long/short flag and the future's `done` flag), the
 * insertion-ordered queue of waiting descriptors, the cross-process pid registry, the
 * shutdown flag and the three capacities. The event loop, the pools and the futures
 * themselves are not modelled; a future is its `done` flag, and the worker process's own
 * writes to the pid registry are the explicit events WorkerRegister and WorkerDeregister.
 */
module Executor {
  import opened Wrappers
  import opened Sets

  type TaskId = string
  /** The callable together with its positional and keyword arguments; opaque here. */
  type WorkRef = nat
  /** A completion callback; opaque here. */
  type CallbackRef = nat
  /** The start-notification hook installed by set_notify_processing; opaque here. */
  type HookRef = nat

  /** A running-registry value: the task's `is_long_task` flag and whether its future is done. */
  datatype RunningEntry = RunningEntry(isLong: bool, done: bool)

  /** What execute_async stores for a task it queues (and _submit_task keeps as the latest task). */
  datatype Descriptor = Descriptor(id: TaskId, work: WorkRef, isLong: bool, callback: Option<CallbackRef>)

  /** An exception a task can end with. */
  datatype Failure =
    | Cancelled
    | BrokenPool
    | Raised(code: int)
    | RuntimeError(cause: Failure)

  /** What a finished future yields: a value, or an exception (raised or returned by the wrapper). */
  datatype Outcome = Returned(value: int) | Failed(failure: Failure)

  /** A `(callback, result)` pair, as put in the deferred mailbox or handed to a callback. */
  datatype Delivery = Delivery(callback: Option<CallbackRef>, result: Outcome)

  /** What one call of _process_next_queued_task did. */
  datatype Promotion =
    | Idle               // queue empty and no latest task: returns at once
    | HeadOfEmptyQueue   // queue empty but a latest task is set: next(iter(...)) raises StopIteration
    | UnitFull           // the head's pool is at capacity: nothing changes
    | Promoted(task: Descriptor)

  /** How cancel_task ended, for the branches this model covers. */
  datatype CancelOutcome =
    | RemovedFromQueue   // returns True
    | NotFound           // no running future: returns False
    | AlreadyDone        // the future is done: returns False
    | RunningTask        // the process-kill / watchdog branch, which is not modelled

  // ---------------------------------------------------------------------------------------
  // RunningTasksContainer: the two counting properties

  function ShortIds(m: map<TaskId, RunningEntry>): set<TaskId>
  {
    set id | id in m && !m[id].isLong
  }

  function LongIds(m: map<TaskId, RunningEntry>): set<TaskId>
  {
    set id | id in m && m[id].isLong
  }

  /** `short_task_count`: the number of running entries whose task is short. */
  function ShortCount(m: map<TaskId, RunningEntry>): (n: nat)
    ensures n <= |m|
  {
    assert ShortIds(m) <= m.Keys;
    SubsetCard(ShortIds(m), m.Keys);
    |ShortIds(m)|
  }

  /** `long_task_count`: the number of running entries whose task is long. */
  function LongCount(m: map<TaskId, RunningEntry>): (n: nat)
    ensures n <= |m|
  {
    assert LongIds(m) <= m.Keys;
    SubsetCard(LongIds(m), m.Keys);
    |LongIds(m)|
  }

  /** Every running entry is either short or long. */
  lemma CountsPartition(m: map<TaskId, RunningEntry>)
    ensures ShortCount(m) + LongCount(m) == |m|
  {
    assert m.Keys == ShortIds(m) + LongIds(m);
    assert ShortIds(m) * LongIds(m) == {};
  }

  /** Adding a fresh entry raises exactly the count of its own kind, by one. */
  lemma CountsAfterInsert(m: map<TaskId, RunningEntry>, id: TaskId, e: RunningEntry)
    requires id !in m
    ensures ShortCount(m[id := e]) == ShortCount(m) + (if e.isLong then 0 else 1)
    ensures LongCount(m[id := e]) == LongCount(m) + (if e.isLong then 1 else 0)
  {
    ShortIdsAfterInsert(m, id, e);
    LongIdsAfterInsert(m, id, e);
    if e.isLong {
      assert id !in LongIds(m);
    } else {
      assert id !in ShortIds(m);
    }
  }

  lemma ShortIdsAfterInsert(m: map<TaskId, RunningEntry>, id: TaskId, e: RunningEntry)
    requires id !in m
    ensures ShortIds(m[id := e]) == ShortIds(m) + (if e.isLong then {} else {id})
  {
    var m' := m[id := e];
    forall x | x != id
      ensures x in ShortIds(m') <==> x in ShortIds(m)
    {
      assert x in m' <==> x in m;
    }
  }

  lemma LongIdsAfterInsert(m: map<TaskId, RunningEntry>, id: TaskId, e: RunningEntry)
    requires id !in m
    ensures LongIds(m[id := e]) == LongIds(m) + (if e.isLong then {id} else {})
  {
    var m' := m[id := e];
    forall x | x != id
      ensures x in LongIds(m') <==> x in LongIds(m)
    {
      assert x in m' <==> x in m;
    }
  }

  /** Removing an entry lowers exactly the count of its own kind, by one. */
  lemma CountsAfterRemove(m: map<TaskId, RunningEntry>, id: TaskId)
    requires id in m
    ensures ShortCount(m - {id}) == ShortCount(m) - (if m[id].isLong then 0 else 1)
    ensures LongCount(m - {id}) == LongCount(m) - (if m[id].isLong then 1 else 0)
  {
    var e := m[id];
    assert (m - {id})[id := e] == m;
    CountsAfterInsert(m - {id}, id, e);
  }

  /** Popping a present key shrinks the map by exactly one. */
  lemma RemoveOneKey<V>(m: map<TaskId, V>, id: TaskId)
    requires id in m
    ensures |m - {id}| == |m| - 1
  {
    assert (m - {id}).Keys == m.Keys - {id};
  }

  /** Popping a running entry keeps every queued id out of the running registry, and an empty registry empty. */
  lemma RemoveKeepsDisjoint(q: seq<Descriptor>, m: map<TaskId, RunningEntry>, id: TaskId)
    ensures (forall i :: 0 <= i < |q| ==> q[i].id !in m) ==> (forall i :: 0 <= i < |q| ==> q[i].id !in m - {id})
    ensures m == map[] ==> m - {id} == map[]
  {
    if m == map[] {
      assert (m - {id}).Keys == {};
    }
  }

  // ---------------------------------------------------------------------------------------
  // The two capacity tests

  /** The test execute_async makes: the pool of the task's kind is at capacity. */
  function PoolFull(m: map<TaskId, RunningEntry>, maxWorkers: int, maxProcesses: int, isLong: bool): (full: bool)
    ensures full ==> |m| >= (if isLong then maxProcesses else maxWorkers)
  {
    (!isLong && ShortCount(m) >= maxWorkers) || (isLong && LongCount(m) >= maxProcesses)
  }

  /**
   * The test _process_next_queued_task makes: a long head waits on the size of the pid
   * registry, a short head on the TOTAL number of running entries.
   */
  function PromotionBlocked(m: map<TaskId, RunningEntry>, pidCount: nat, maxWorkers: int, maxProcesses: int, isLong: bool): (blocked: bool)
    ensures !isLong && PoolFull(m, maxWorkers, maxProcesses, false) ==> blocked
  {
    (isLong && pidCount >= maxProcesses) || (!isLong && |m| >= maxWorkers)
  }

  /** For a short task the promotion test is at least as strict as the admission test. */
  lemma ShortPromotionStricterThanAdmission(m: map<TaskId, RunningEntry>, pidCount: nat, maxWorkers: int, maxProcesses: int)
    ensures PoolFull(m, maxWorkers, maxProcesses, false) ==> PromotionBlocked(m, pidCount, maxWorkers, maxProcesses, false)
  {
    CountsPartition(m);
  }

  /**
   * ... and strictly so: with one short and one long task running and two threads, a short
   * task would be admitted directly but a queued short task is not promoted.
   */
  lemma ShortPromotionBlockedByLongTask()
    ensures var m := map["B" := RunningEntry(false, false), "C" := RunningEntry(true, false)];
      !PoolFull(m, 2, 1, false) && PromotionBlocked(m, 0, 2, 1, false)
  {
    var m := map["B" := RunningEntry(false, false), "C" := RunningEntry(true, false)];
    assert ShortIds(m) == {"B"};
  }

  /**
   * In every state: a short task passes the admission test yet a queued short task is not
   * promoted exactly when the running short tasks are below the thread capacity but the
   * short and long tasks together reach it.
   */
  lemma ShortPromotionDivergence(m: map<TaskId, RunningEntry>, pidCount: nat, maxWorkers: int, maxProcesses: int)
    ensures !PoolFull(m, maxWorkers, maxProcesses, false) && PromotionBlocked(m, pidCount, maxWorkers, maxProcesses, false)
      <==> ShortCount(m) < maxWorkers <= ShortCount(m) + LongCount(m)
  {
    CountsPartition(m);
  }

  /** Which queued entry _process_next_queued_task takes, if any: only ever the head. */
  function PromotionDecision(q: seq<Descriptor>, latest: Option<Descriptor>, m: map<TaskId, RunningEntry>,
                             pidCount: nat, maxWorkers: int, maxProcesses: int): (p: Promotion)
    ensures p.Promoted? <==> q != [] && !PromotionBlocked(m, pidCount, maxWorkers, maxProcesses, q[0].isLong)
    ensures p.Promoted? ==> p.task == q[0]
    ensures p == HeadOfEmptyQueue <==> q == [] && latest.Some?
    ensures p == Idle <==> q == [] && latest.None?
  {
    if q == [] then
      (if latest.None? then Idle else HeadOfEmptyQueue)
    else if PromotionBlocked(m, pidCount, maxWorkers, maxProcesses, q[0].isLong) then
      UnitFull
    else
      Promoted(q[0])
  }

  /** The state change a promotion decision causes, from (q0, r0, l0, s0) to (q1, r1, l1, s1). */
  predicate PromotionEffect(p: Promotion, hook: Option<HookRef>,
                            q0: seq<Descriptor>, r0: map<TaskId, RunningEntry>, l0: Option<Descriptor>, s0: seq<TaskId>,
                            q1: seq<Descriptor>, r1: map<TaskId, RunningEntry>, l1: Option<Descriptor>, s1: seq<TaskId>)
  {
    if p.Promoted? then
      && |q0| > 0 && q1 == q0[1..]
      && r1 == r0[p.task.id := RunningEntry(p.task.isLong, false)]
      && l1 == Some(p.task)
      && s1 == s0 + (if hook.Some? then [p.task.id] else [])
    else
      q1 == q0 && r1 == r0 && l1 == l0 && s1 == s0
  }

  /** `_latest_task` after _done_callback or cancel_task for `id`: cleared when it names `id`. */
  function ClearLatest(l: Option<Descriptor>, id: TaskId): (r: Option<Descriptor>)
    ensures r.None? <==> l.None? || l.value.id == id
    ensures r.Some? ==> r == l
  {
    if l.Some? && l.value.id == id then None else l
  }

  /** The running entry for `id` exists and its future is done: _done_callback cleans it up. */
  predicate Finished(m: map<TaskId, RunningEntry>, id: TaskId)
  {
    id in m && m[id].done
  }

  /** The promotion attempted after task `id` is cleaned up. */
  function AfterCompletion(q: seq<Descriptor>, latest: Option<Descriptor>, m: map<TaskId, RunningEntry>,
                           pids: map<TaskId, int>, id: TaskId, maxWorkers: int, maxProcesses: int): Promotion
  {
    PromotionDecision(q, ClearLatest(latest, id), m - {id}, |pids - {id}|, maxWorkers, maxProcesses)
  }

  // ---------------------------------------------------------------------------------------
  // Results and the deferred mailbox

  /** _done_callback's normalisation: any exception result is wrapped in a RuntimeError. */
  function Normalize(o: Outcome): (r: Outcome)
    ensures r.Failed? <==> o.Failed?
    ensures o.Failed? ==> r.failure == RuntimeError(o.failure)
    ensures o.Returned? ==> r == o
  {
    match o
    case Returned(_) => o
    case Failed(f) => Failed(RuntimeError(f))
  }

  /** The mailbox entries whose callback is set, in order: those process_callbacks can call. */
  function WithCallback(s: seq<Delivery>): (r: seq<Delivery>)
    ensures |r| <= |s|
    ensures forall d :: d in r ==> d in s && d.callback.Some?
    ensures forall d :: d in s && d.callback.Some? ==> d in r
  {
    if s == [] then []
    else
      var last := s[|s| - 1];
      assert s == s[..|s| - 1] + [last];
      WithCallback(s[..|s| - 1]) + (if last.callback.Some? then [last] else [])
  }

  /** Draining one more mailbox entry delivers it exactly when its callback is set. */
  lemma WithCallbackSnoc(s: seq<Delivery>, d: Delivery)
    ensures WithCallback(s + [d]) == WithCallback(s) + (if d.callback.Some? then [d] else [])
  {
    assert (s + [d])[..|s|] == s;
  }

  // ---------------------------------------------------------------------------------------
  // The queued map: insertion-ordered, keyed by task id

  function QueuedIds(q: seq<Descriptor>): set<TaskId>
  {
    set i | 0 <= i < |q| :: q[i].id
  }

  lemma QueuedIdsCons(d: Descriptor, s: seq<Descriptor>)
    ensures QueuedIds([d] + s) == {d.id} + QueuedIds(s)
  {
    var q := [d] + s;
    forall x | x in QueuedIds(q) ensures x in {d.id} + QueuedIds(s) {
      var i :| 0 <= i < |q| && q[i].id == x;
      if i > 0 { assert q[i] == s[i - 1]; }
    }
    forall x | x in QueuedIds(s) ensures x in QueuedIds(q) {
      var i :| 0 <= i < |s| && s[i].id == x;
      assert q[i + 1] == s[i];
    }
    assert q[0] == d;
  }

  predicate DistinctIds(q: seq<Descriptor>)
  {
    forall i, j :: 0 <= i < j < |q| ==> q[i].id != q[j].id
  }

  /** `dict.pop(task_id)` on the queued map: drop that id's entry, keep the order of the rest. */
  function RemoveId(q: seq<Descriptor>, id: TaskId): (r: seq<Descriptor>)
    ensures QueuedIds(r) == QueuedIds(q) - {id}
    ensures forall d :: d in r ==> d in q
    ensures id !in QueuedIds(q) ==> r == q
    ensures DistinctIds(q) ==> DistinctIds(r)
    ensures DistinctIds(q) && id in QueuedIds(q) ==> |r| == |q| - 1
  {
    if q == [] then []
    else
      var rest := RemoveId(q[1..], id);
      assert q == [q[0]] + q[1..];
      QueuedIdsCons(q[0], q[1..]);
      assert DistinctIds(q) ==> q[0].id !in QueuedIds(q[1..]) by {
        if DistinctIds(q) {
          forall k | 0 <= k < |q| - 1 ensures q[1..][k].id != q[0].id {
            assert q[1..][k] == q[k + 1];
          }
        }
      }
      if q[0].id == id then rest
      else
        var r := [q[0]] + rest;
        QueuedIdsCons(q[0], rest);
        assert DistinctIds(q) ==> DistinctIds(r) by {
          if DistinctIds(q) {
            forall i, j | 0 <= i < j < |r| ensures r[i].id != r[j].id {
              if i == 0 {
                assert r[j] in rest;
                assert r[j].id in QueuedIds(rest);
              }
            }
          }
        }
        r
  }

  /**
   * Cancelling a queued id keeps the queue's order: the entry at the returned position k
   * goes, and the entries before and after it stay in place, so FIFO promotion still
   * takes the oldest remaining entry.
   */
  lemma {:induction false} RemoveIdAt(q: seq<Descriptor>, id: TaskId) returns (k: nat)
    requires DistinctIds(q) && id in QueuedIds(q)
    ensures k < |q| && q[k].id == id
    ensures RemoveId(q, id) == q[..k] + q[k + 1..]
  {
    assert q == [q[0]] + q[1..];
    QueuedIdsCons(q[0], q[1..]);
    assert DistinctIds(q[1..]) by {
      forall i, j | 0 <= i < j < |q| - 1 ensures q[1..][i].id != q[1..][j].id {
        assert q[1..][i] == q[i + 1] && q[1..][j] == q[j + 1];
      }
    }
    if q[0].id == id {
      k := 0;
      forall i | 0 <= i < |q| - 1 ensures q[1..][i].id != id {
        assert q[1..][i] == q[i + 1];
      }
      assert id !in QueuedIds(q[1..]);
    } else {
      var k' := RemoveIdAt(q[1..], id);
      k := k' + 1;
      assert q[..k] == [q[0]] + q[1..][..k'];
      assert q[k + 1..] == q[1..][k' + 1..];
    }
  }

  // ---------------------------------------------------------------------------------------
  // The pid registry

  /** The pids registered under the given task ids. */
  function PidsOf(m: map<TaskId, int>, ks: set<TaskId>): set<int>
  {
    set t | t in ks && t in m :: m[t]
  }

  lemma PidsOfAdd(m: map<TaskId, int>, ks: set<TaskId>, t: TaskId)
    requires t in m
    ensures PidsOf(m, ks + {t}) == PidsOf(m, ks) + {m[t]}
  {
    forall p | p in PidsOf(m, ks + {t}) ensures p in PidsOf(m, ks) + {m[t]} {
      var u :| u in ks + {t} && u in m && m[u] == p;
      if u != t { assert u in ks; }
    }
  }

  lemma PidsOfAll(m: map<TaskId, int>)
    ensures PidsOf(m, m.Keys) == m.Values
  {
    forall p | p in m.Values ensures p in PidsOf(m, m.Keys) {
      var u :| u in m && m[u] == p;
    }
  }

  // ---------------------------------------------------------------------------------------
  // AsyncExecutor

  /**
   * The executor's invariant: queued ids are distinct and none is running; the queue
   * respects its limit; the latest task is running; shutdown leaves nothing behind; direct
   * mode never uses the mailbox.
   */
  ghost predicate Invariant(queued: seq<Descriptor>, running: map<TaskId, RunningEntry>, latestTask: Option<Descriptor>,
                            shutdownFlag: bool, maxQueueSize: int, callbackDirect: bool, mailbox: seq<Delivery>)
  {
    && DistinctIds(queued)
    && (forall i :: 0 <= i < |queued| ==> queued[i].id !in running)
    && (|queued| <= maxQueueSize || queued == [])
    && (latestTask.Some? ==> latestTask.value.id in running)
    && (shutdownFlag ==> running == map[] && queued == [] && latestTask.None?)
    && (callbackDirect ==> mailbox == [])
  }

  /** `_cleanup_task` keeps the invariant when the latest task is not the one removed. */
  lemma CleanupKeepsInvariant(queued: seq<Descriptor>, running: map<TaskId, RunningEntry>, running': map<TaskId, RunningEntry>,
                              latestTask: Option<Descriptor>, shutdownFlag: bool, maxQueueSize: int, callbackDirect: bool,
                              mailbox: seq<Delivery>, id: TaskId)
    requires Invariant(queued, running, latestTask, shutdownFlag, maxQueueSize, callbackDirect, mailbox)
    requires latestTask.Some? ==> latestTask.value.id != id
    requires running' == running - {id}
    ensures Invariant(queued, running', latestTask, shutdownFlag, maxQueueSize, callbackDirect, mailbox)
    ensures id in running ==> |running'| == |running| - 1
  {
    if id in running {
      RemoveOneKey(running, id);
    }
    RemoveKeepsDisjoint(queued, running, id);
  }

  class AsyncExecutor {
    /** `_running_tasks`: id -> (is_long_task, future done). */
    var running: map<TaskId, RunningEntry>
    /** `_queued_tasks`, in insertion order. */
    var queued: seq<Descriptor>
    /** `_process_pids`: id -> OS pid, written by the worker process. */
    var pids: map<TaskId, int>
    var shutdownFlag: bool
    /** `_thread_pool._max_workers` and `_process_pool._max_workers`. */
    var maxWorkers: int
    var maxProcesses: int
    const maxQueueSize: int
    const callbackDirect: bool
    /** `_latest_task`: the descriptor most recently handed to _submit_task. */
    var latestTask: Option<Descriptor>
    /** `_notify_processing`. */
    var notifyHook: Option<HookRef>
    /** Event log: the ids the start hook was called with, in order. */
    var started: seq<TaskId>
    /** `_callback_queue` (deferred mode). */
    var mailbox: seq<Delivery>
    /** Event log: callbacks invoked, in order. */
    var delivered: seq<Delivery>
    /** Event log: the pids a termination was issued for. */
    var terminated: set<int>

    ghost predicate Valid()
      reads this
    {
      Invariant(queued, running, latestTask, shutdownFlag, maxQueueSize, callbackDirect, mailbox)
    }

    constructor (maxWorkers: int, maxProcesses: int, maxQueueSize: int, callbackDirect: bool)
      ensures Valid()
      ensures running == map[] && queued == [] && pids == map[] && !shutdownFlag
      ensures this.maxWorkers == maxWorkers && this.maxProcesses == maxProcesses
      ensures this.maxQueueSize == maxQueueSize && this.callbackDirect == callbackDirect
      ensures latestTask.None? && notifyHook.None?
      ensures started == [] && mailbox == [] && delivered == [] && terminated == {}
    {
      running, queued, pids := map[], [], map[];
      shutdownFlag := false;
      this.maxWorkers, this.maxProcesses := maxWorkers, maxProcesses;
      this.maxQueueSize, this.callbackDirect := maxQueueSize, callbackDirect;
      latestTask, notifyHook := None, None;
      started, mailbox, delivered, terminated := [], [], [], {};
    }

    /** `set_notify_processing`. */
    method SetNotifyProcessing(hook: HookRef)
      modifies this`notifyHook
      ensures notifyHook == Some(hook)
    {
      notifyHook := Some(hook);
    }

    /**
     * `_submit_task`, bookkeeping only: record the latest task, store the running entry, then
     * call the start hook, which raises TypeError when no hook was ever installed.
     */
    method SubmitTask(d: Descriptor) returns (r: Result<()>)
      modifies this`latestTask, this`running, this`started
      ensures shutdownFlag ==> r == Err(ShutdownError)
      ensures shutdownFlag ==> running == old(running) && latestTask == old(latestTask) && started == old(started)
      ensures !shutdownFlag ==> latestTask == Some(d) && running == old(running)[d.id := RunningEntry(d.isLong, false)]
      ensures !shutdownFlag ==> started == old(started) + (if notifyHook.Some? then [d.id] else [])
      ensures !shutdownFlag ==> r == if notifyHook.Some? then Ok(()) else Err(TypeError)
    {
      if shutdownFlag {
        return Err(ShutdownError);
      }
      latestTask := Some(d);
      running := running[d.id := RunningEntry(d.isLong, false)];
      if notifyHook.None? {
        return Err(TypeError);
      }
      started := started + [d.id];
      r := Ok(());
    }

    /** `execute_async`: run the task now, queue it, or reject it. */
    method ExecuteAsync(id: TaskId, work: WorkRef, isLong: bool, callback: Option<CallbackRef>) returns (accepted: bool)
      requires Valid()
      modifies this`latestTask, this`running, this`started, this`queued
      ensures Valid()
      // rejected without effect: shut down, or the id is already running or queued
      ensures old(shutdownFlag || id in running || id in QueuedIds(queued)) ==>
        && !accepted
        && running == old(running) && queued == old(queued)
        && latestTask == old(latestTask) && started == old(started)
      // the task's pool is full: queue at the tail, or reject when the queue is full
      ensures !old(shutdownFlag || id in running || id in QueuedIds(queued)) && PoolFull(old(running), maxWorkers, maxProcesses, isLong) ==>
        && running == old(running) && latestTask == old(latestTask) && started == old(started)
        && (if old(|queued|) >= maxQueueSize then !accepted && queued == old(queued)
            else accepted && queued == old(queued) + [Descriptor(id, work, isLong, callback)])
      // immediate submission: exactly one new running entry; true only when the hook exists
      ensures !old(shutdownFlag || id in running || id in QueuedIds(queued)) && !PoolFull(old(running), maxWorkers, maxProcesses, isLong) ==>
        && queued == old(queued)
        && running == old(running)[id := RunningEntry(isLong, false)]
        && |running| == |old(running)| + 1
        && latestTask == Some(Descriptor(id, work, isLong, callback))
        && started == old(started) + (if notifyHook.Some? then [id] else [])
        && accepted == notifyHook.Some?
      // admission never pushes a pool's count past its capacity
      ensures ShortCount(running) > ShortCount(old(running)) ==> ShortCount(running) <= maxWorkers
      ensures LongCount(running) > LongCount(old(running)) ==> LongCount(running) <= maxProcesses
    {
      if shutdownFlag {
        return false;
      }
      if id in running || id in QueuedIds(queued) {
        return false;
      }
      var d := Descriptor(id, work, isLong, callback);
      if PoolFull(running, maxWorkers, maxProcesses, isLong) {
        if |queued| >= maxQueueSize {
          return false;
        }
        queued := queued + [d];
        return true;
      }
      CountsAfterInsert(running, id, RunningEntry(isLong, false));
      var r := SubmitTask(d);
      accepted := r.Ok?;
    }

    /** `_cleanup_task`: drop the id from the pid registry and from the running registry. */
    method CleanupTask(id: TaskId)
      requires Valid()
      requires latestTask.Some? ==> latestTask.value.id != id
      modifies this`pids, this`running
      ensures Valid()
      ensures pids == old(pids) - {id} && running == old(running) - {id}
      ensures id in old(running) ==> |running| == |old(running)| - 1
    {
      pids := pids - {id};
      running := running - {id};
      CleanupKeepsInvariant(queued, old(running), running, latestTask, shutdownFlag, maxQueueSize, callbackDirect, mailbox, id);
    }

    /** `_process_next_queued_task`: look at the head of the queue only. */
    method ProcessNextQueuedTask() returns (p: Promotion)
      requires Valid()
      modifies this`latestTask, this`running, this`started, this`queued
      ensures Valid()
      ensures p == PromotionDecision(old(queued), old(latestTask), old(running), |pids|, maxWorkers, maxProcesses)
      ensures PromotionEffect(p, notifyHook, old(queued), old(running), old(latestTask), old(started),
                              queued, running, latestTask, started)
      ensures ShortCount(running) > ShortCount(old(running)) ==> ShortCount(running) <= maxWorkers
    {
      p := PromotionDecision(queued, latestTask, running, |pids|, maxWorkers, maxProcesses);
      if !p.Promoted? {
        return;
      }
      var head := queued[0];
      assert head.id !in running;
      CountsPartition(running);
      CountsAfterInsert(running, head.id, RunningEntry(head.isLong, false));
      // A failed submission is logged and the entry still leaves the queue.
      var _ := SubmitTask(head);
      queued := queued[1..];
    }

    /** The completion step of _done_callback: `_cleanup_task`, then one promotion attempt. */
    method CleanupAndPromote(id: TaskId) returns (p: Promotion)
      requires Valid()
      requires latestTask.Some? ==> latestTask.value.id != id
      modifies this`latestTask, this`running, this`pids, this`started, this`queued
      ensures Valid()
      ensures pids == old(pids) - {id}
      ensures p == PromotionDecision(old(queued), old(latestTask), old(running) - {id}, |old(pids) - {id}|, maxWorkers, maxProcesses)
      ensures PromotionEffect(p, notifyHook, old(queued), old(running) - {id}, old(latestTask), old(started),
                              queued, running, latestTask, started)
    {
      CleanupTask(id);
      p := ProcessNextQueuedTask();
    }

    /**
     * `_done_callback` for task `id`, whose future has produced `outcome`; `callback` is the
     * callback bound at submission.
     */
    method DoneCallback(id: TaskId, callback: Option<CallbackRef>, outcome: Outcome)
      requires Valid()
      modifies this`latestTask, this`running, this`pids, this`started, this`queued, this`mailbox, this`delivered
      ensures Valid()
      ensures old(shutdownFlag) ==>
        && running == old(running) && pids == old(pids) && queued == old(queued) && latestTask == old(latestTask)
        && started == old(started) && mailbox == old(mailbox) && delivered == old(delivered)
      ensures !old(shutdownFlag) ==>
        mailbox == old(mailbox) + (if callbackDirect then [] else [Delivery(callback, Normalize(outcome))])
      ensures !old(shutdownFlag) && Finished(old(running), id) ==>
        && pids == old(pids) - {id}
        && PromotionEffect(AfterCompletion(old(queued), old(latestTask), old(running), old(pids), id, maxWorkers, maxProcesses),
                           notifyHook, old(queued), old(running) - {id}, ClearLatest(old(latestTask), id), old(started),
                           queued, running, latestTask, started)
      ensures !old(shutdownFlag) && !Finished(old(running), id) ==>
        && pids == old(pids) && running == old(running) && queued == old(queued)
        && latestTask == ClearLatest(old(latestTask), id) && started == old(started)
      ensures !old(shutdownFlag) ==>
        delivered == old(delivered) +
          (if callback.Some? && id in old(running) && callbackDirect
              && !(Finished(old(running), id) && old(queued) == [] && ClearLatest(old(latestTask), id).Some?)
           then [Delivery(callback, Normalize(outcome))] else [])
    {
      if shutdownFlag {
        return;
      }
      var result := Normalize(outcome);
      latestTask := ClearLatest(latestTask, id);
      var existed := id in running;
      if !callbackDirect {
        mailbox := mailbox + [Delivery(callback, result)];
      }
      var raised := false;
      if existed && running[id].done {
        var promotion := CleanupAndPromote(id);
        // StopIteration escapes the handler, so the direct callback below is never reached.
        raised := promotion == HeadOfEmptyQueue;
      }
      assert Valid();
      if callback.Some? && existed && callbackDirect && !raised {
        delivered := delivered + [Delivery(callback, result)];
      }
    }

    /** `process_callbacks` (deferred mode): drain the mailbox, calling each set callback. */
    method ProcessCallbacks() returns (r: Result<()>)
      requires Valid()
      modifies this`mailbox, this`delivered
      ensures Valid()
      ensures shutdownFlag ==> r == Err(ShutdownError) && mailbox == old(mailbox) && delivered == old(delivered)
      ensures !shutdownFlag ==> r == Ok(())
      ensures !shutdownFlag && callbackDirect ==> mailbox == old(mailbox) && delivered == old(delivered)
      ensures !shutdownFlag && !callbackDirect ==> mailbox == [] && delivered == old(delivered) + WithCallback(old(mailbox))
    {
      if shutdownFlag {
        return Err(ShutdownError);
      }
      r := Ok(());
      if callbackDirect {
        return;
      }
      var box, out := mailbox, delivered;
      for n := 0 to |box|
        invariant out == old(delivered) + WithCallback(box[..n])
      {
        var entry := box[n];
        assert box[..n + 1] == box[..n] + [entry];
        WithCallbackSnoc(box[..n], entry);
        // A missing callback makes the call raise TypeError, which the loop logs and skips.
        if entry.callback.Some? {
          out := out + [entry];
        }
      }
      assert box[..|box|] == box;
      mailbox, delivered := [], out;
    }

    /** `cancel_task`, for queued, unknown and already-done ids. */
    method CancelTask(id: TaskId) returns (r: CancelOutcome)
      requires Valid()
      modifies this`latestTask, this`queued
      ensures Valid()
      ensures latestTask == if old(latestTask).Some? && old(latestTask).value.id == id then None else old(latestTask)
      ensures id in old(QueuedIds(queued)) ==>
        r == RemovedFromQueue && queued == RemoveId(old(queued), id) && |queued| == |old(queued)| - 1
      ensures id !in old(QueuedIds(queued)) ==> queued == old(queued)
      ensures id !in old(QueuedIds(queued)) ==>
        r == (if id !in running then NotFound else if running[id].done then AlreadyDone else RunningTask)
    {
      if latestTask.Some? && latestTask.value.id == id {
        latestTask := None;
      }
      if id in QueuedIds(queued) {
        queued := RemoveId(queued, id);
        forall i | 0 <= i < |queued| ensures queued[i].id !in running {
          assert queued[i] in old(queued);
        }
        return RemovedFromQueue;
      }
      if id !in running {
        return NotFound;
      }
      if running[id].done {
        return AlreadyDone;
      }
      r := RunningTask;
    }

    /** `has_tasks`: running plus queued. */
    method HasTasks() returns (n: nat)
      ensures n == |running| + |queued|
      ensures n == 0 <==> running == map[] && queued == []
    {
      n := |running| + |queued|;
    }

    /** `is_queued`. */
    method IsQueued(id: TaskId) returns (b: bool)
      ensures b <==> exists i :: 0 <= i < |queued| && queued[i].id == id
    {
      b := id in QueuedIds(queued);
    }

    /** `is_all_tasks_done`. */
    method IsAllTasksDone() returns (b: bool)
      ensures b <==> running == map[] && queued == []
    {
      b := |running| == 0 && |queued| == 0;
    }

    /** `get_queued_task_count`. */
    method GetQueuedTaskCount() returns (n: nat)
      ensures n == |queued|
    {
      n := |queued|;
    }

    /** `get_running_process_count`. */
    method GetRunningProcessCount() returns (n: nat)
      ensures n == |pids|
    {
      n := |pids|;
    }

    /** `set_concurrency`: overwrite both capacities, without any check. */
    method SetConcurrency(workers: int, processes: int)
      modifies this`maxWorkers, this`maxProcesses
      ensures maxWorkers == workers && maxProcesses == processes
    {
      maxWorkers, maxProcesses := workers, processes;
    }

    /** The worker process of a long task records its pid (`_run_long_task`). */
    method WorkerRegister(id: TaskId, pid: int)
      modifies this`pids
      ensures pids == old(pids)[id := pid]
    {
      pids := pids[id := pid];
    }

    /** The worker process removes its own pid on every exit path (`_run_long_task`'s finally). */
    method WorkerDeregister(id: TaskId)
      modifies this`pids
      ensures pids == old(pids) - {id}
    {
      pids := pids - {id};
    }

    /** The task's future resolves: its `done` flag becomes true; the registries keep their keys. */
    method FinishFuture(id: TaskId)
      requires Valid()
      modifies this`running
      ensures Valid()
      ensures running.Keys == old(running).Keys
      ensures id in running ==> running == old(running)[id := RunningEntry(old(running)[id].isLong, true)]
      ensures id !in running ==> running == old(running)
    {
      if id in running {
        running := running[id := running[id].(done := true)];
      }
    }

    /** `shutdown`: once only; empties the queue and both registries and kills every registered pid. */
    method Shutdown()
      requires Valid()
      modifies this
      ensures Valid()
      ensures old(shutdownFlag) ==> unchanged(this)
      ensures !old(shutdownFlag) ==>
        && shutdownFlag
        && queued == [] && running == map[] && pids == map[] && latestTask.None?
        && mailbox == []
        && terminated == old(terminated) + old(pids).Values
        && started == old(started) && delivered == old(delivered) && notifyHook == old(notifyHook)
        && maxWorkers == old(maxWorkers) && maxProcesses == old(maxProcesses)
      ensures |running| + |queued| == 0
    {
      if shutdownFlag {
        return;
      }
      shutdownFlag := true;
      latestTask := None;
      queued := [];
      var pending, killed := pids.Keys, terminated;
      while pending != {}
        invariant pending <= pids.Keys
        invariant killed == old(terminated) + PidsOf(pids, pids.Keys - pending)
        modifies {}
        decreases pending
      {
        var t :| t in pending;
        assert pids.Keys - (pending - {t}) == (pids.Keys - pending) + {t};
        PidsOfAdd(pids, pids.Keys - pending, t);
        killed := killed + {pids[t]};
        pending := pending - {t};
      }
      assert pids.Keys - pending == pids.Keys;
      PidsOfAll(pids);
      terminated := killed;
      // Cancelling the still-pending futures has no effect on the bookkeeping that follows.
      pids := map[];
      running := map[];
      mailbox := [];
    }
  }
}
