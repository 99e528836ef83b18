/** The pool object: the code that each critical section runs, against the state machine's steps. */
module ThreadPoolCode {
  import opened Bytes
  import opened ThreadPool

  datatype AddResult = MustWait | Refused | Added

  /** The worker's steps for what is left of its batch. */
  function BatchSteps(w: nat, n: nat): seq<Event> { if n == 0 then [] else [RunTask(w)] + BatchSteps(w, n - 1) }

  /** All the steps of a batch: its tasks are run, in order. */
  lemma {:induction false} BatchRuns(c: Config, s: State, w: nat)
    requires w < |s.workers| && w < |s.ran| && s.workers[w].Busy?
    ensures var b := s.workers[w].batch;
            Run(c, s, BatchSteps(w, |b|)) == s.(workers := s.workers[w := Busy([])], ran := s.ran[w := s.ran[w] + b])
    decreases |s.workers[w].batch|
  {
    var b := s.workers[w].batch;
    if b == [] {
      assert s.workers[w := Busy([])] == s.workers;
      assert s.ran[w] + [] == s.ran[w] && s.ran[w := s.ran[w]] == s.ran;
    } else {
      var s' := Next(c, s, RunTask(w));
      assert BatchSteps(w, |b|)[1..] == BatchSteps(w, |b| - 1);
      BatchRuns(c, s', w);
      assert s.ran[w] + [b[0]] + b[1..] == s.ran[w] + b;
    }
  }

  class Pool {
    const minThrNum: nat
    const maxThrNum: nat
    const maxTasksNum: nat
    const isDynamic: bool
    var busyThrNum: int
    var liveThrNum: int
    var destroyThrNum: int
    var shutdown: bool
    var taskQ: seq<Task>
    var producer: Producer    // who is in add_task, and whether it waits on is_push
    const threads: array<Worker>   // where each worker is, asleep on is_take included

    function Cfg(): Config { Config(minThrNum, maxThrNum, maxTasksNum, isDynamic) }

    /** The machine's state: what the pool object holds, and the rest. */
    ghost function Snapshot(rest: State): State
      reads this, threads
    {
      rest.(q := taskQ, live := liveThrNum, busy := busyThrNum, destroy := destroyThrNum, shutdown := shutdown,
            workers := threads[..], producer := producer)
    }

    constructor (minThr: int, maxThr: int, maxTasks: int, isDynamic: bool)
      ensures Cfg() == MakeConfig(minThr, maxThr, maxTasks, isDynamic)
      ensures fresh(threads) && threads[..] == Init(Cfg()).workers
      ensures Snapshot(Init(Cfg())) == Init(Cfg())
      ensures minThrNum == (if minThr <= 0 then 3 else minThr)
              && maxThrNum == (if maxThr < minThrNum then minThrNum + 50 else maxThr)
              && maxTasksNum == (if maxTasks < 1000 then 1000 else maxTasks) && this.isDynamic == isDynamic
      ensures threads.Length == maxThrNum && liveThrNum == minThrNum && busyThrNum == destroyThrNum == 0
              && forall k :: 0 <= k < maxThrNum ==> threads[k] == if k < minThrNum then Top else Absent
    {
      var lo, hi, tasks := minThr, maxThr, maxTasks;
      if lo <= 0 { lo := 3; }
      if hi < lo { hi := lo + 50; }
      if tasks < 1000 { tasks := 1000; }
      minThrNum := lo;
      maxThrNum := hi;
      maxTasksNum := tasks;
      this.isDynamic := isDynamic;
      busyThrNum := 0;
      liveThrNum := lo;
      destroyThrNum := 0;
      shutdown := false;
      taskQ := [];
      producer := Idle;
      threads := new Worker[hi](_ => Absent);
      new;
      for i := 0 to minThrNum
        invariant taskQ == [] && producer == Idle && liveThrNum == minThrNum && busyThrNum == destroyThrNum == 0
                  && !shutdown
        invariant forall k :: 0 <= k < threads.Length ==> threads[k] == if k < i then Top else Absent
      {
        threads[i] := Top;
      }
    }

    /** add_task once it holds the lock: wait, refuse, or push and signal; `wake` is the sleeper that
        the signal on is_take wakes. */
    method AddTaskSection(wake: Option<nat>, ghost rest: State) returns (r: AddResult)
      requires Enabled(Cfg(), Snapshot(rest), ProducerSection(wake))
      modifies this`taskQ, this`producer, threads
      ensures var s' := Next(Cfg(), old(Snapshot(rest)), ProducerSection(wake)); Snapshot(s') == s'
      ensures r == MustWait <==> |old(taskQ)| == maxTasksNum && !shutdown
      ensures r == Refused <==> shutdown
      ensures taskQ == if r == Added then old(taskQ) + [old(producer).t] else old(taskQ)
      ensures producer == if r == MustWait then Waiting(old(producer).t) else Idle
      ensures forall i :: 0 <= i < threads.Length ==>
                threads[i] == if r == Added && wake == Some(i) then Woken else old(threads[i])
    {
      var t := producer.t;
      if |taskQ| == maxTasksNum && !shutdown {
        producer := Waiting(t);
        return MustWait;
      }
      producer := Idle;
      if shutdown { return Refused; }
      taskQ := taskQ + [t];
      if wake.Some? { threads[wake.value] := Woken; }
      r := Added;
    }

    /** As many tasks as one worker takes: all there were, or one more than its share of the capacity, of at
        least one. */
    predicate IsBatch(batch: seq<Task>, left: seq<Task>)
      reads this
      requires liveThrNum > 0
    {
      var share := maxTasksNum / liveThrNum;
      var most := (if share > 1 then share else 1) + 1;
      |batch| <= most && (left != [] ==> |batch| == most)
    }

    /** The worker once it holds the lock, from the top of its loop or out of its wait. */
    method WorkerSection(w: nat, ghost rest: State) returns (out: Outcome)
      requires Enabled(Cfg(), Snapshot(rest), ThreadPool.WorkerSection(w))
      modifies this`taskQ, this`liveThrNum, this`destroyThrNum, this`producer, threads
      ensures var s' := Next(Cfg(), old(Snapshot(rest)), ThreadPool.WorkerSection(w)); Snapshot(s') == s'
      // what the worker goes on with is where it is put
      ensures out == Sleep <==> threads[w] == Asleep
      ensures out == Exit <==> threads[w] == Exited
      ensures forall batch :: out == Take(batch) <==> threads[w] == Took(batch)
      ensures forall i :: 0 <= i < threads.Length && i != w ==> threads[i] == old(threads[i])
      // a woken worker uses up one request to leave, and leaves if there are more than the fewest
      ensures var asked := old(threads[w]) == Woken && old(destroyThrNum) > 0;
              && destroyThrNum == (if asked then old(destroyThrNum) - 1 else old(destroyThrNum))
              && (out == Exit <==> (asked && old(liveThrNum) > minThrNum) || (old(taskQ) == [] && shutdown))
              && (out == Sleep <==>
                    !(asked && old(liveThrNum) > minThrNum) && old(taskQ) == [] && !shutdown)
      ensures liveThrNum == if out == Exit then old(liveThrNum) - 1 else old(liveThrNum)
      ensures out.Take? ==> old(taskQ) == out.batch + taskQ && IsBatch(out.batch, taskQ)
      ensures !out.Take? ==> taskQ == old(taskQ)
      ensures producer == if out.Take? && old(producer).Waiting? then Signalled(old(producer).t) else old(producer)
    {
      hide BatchSize;
      if threads[w] == Woken && destroyThrNum > 0 {
        destroyThrNum := destroyThrNum - 1;
        if liveThrNum > minThrNum {
          liveThrNum := liveThrNum - 1;
          threads[w] := Exited;
          return Exit;
        }
      }
      if taskQ == [] && !shutdown {
        threads[w] := Asleep;
        return Sleep;
      }
      if taskQ == [] && shutdown {
        liveThrNum := liveThrNum - 1;
        threads[w] := Exited;
        return Exit;
      }
      var batch := TakeBatch();
      threads[w] := Took(batch);
      if producer.Waiting? { producer := Signalled(producer.t); }
      out := Take(batch);
    }

    method CountBusy(w: nat, ghost rest: State)
      requires Enabled(Cfg(), Snapshot(rest), ThreadPool.CountBusy(w))
      modifies this`busyThrNum, threads
      ensures var s' := Next(Cfg(), old(Snapshot(rest)), ThreadPool.CountBusy(w)); Snapshot(s') == s'
    {
      busyThrNum := busyThrNum + 1;
      threads[w] := Busy(threads[w].batch);
    }

    method UncountBusy(w: nat, ghost rest: State)
      requires Enabled(Cfg(), Snapshot(rest), ThreadPool.UncountBusy(w))
      modifies this`busyThrNum, threads
      ensures var s' := Next(Cfg(), old(Snapshot(rest)), ThreadPool.UncountBusy(w)); Snapshot(s') == s'
    {
      busyThrNum := busyThrNum - 1;
      threads[w] := Top;
    }

    /** Moves tasks from the queue to a local list, at most max(1, tasks / live) + 1 of them. */
    method TakeBatch() returns (taskList: seq<Task>)
      requires liveThrNum > 0
      modifies this`taskQ
      ensures var n := BatchSize(Cfg(), liveThrNum, |old(taskQ)|);
              taskList == old(taskQ)[..n] && taskQ == old(taskQ)[n..]
      ensures old(taskQ) == taskList + taskQ && IsBatch(taskList, taskQ)
    {
      var maxTask := if maxTasksNum / liveThrNum > 1 then maxTasksNum / liveThrNum else 1;
      var cnt := 0;
      taskList := [];
      while taskQ != [] && cnt <= maxTask
        invariant 0 <= cnt <= maxTask + 1 && cnt <= |old(taskQ)|
        invariant taskList == old(taskQ)[..cnt] && taskQ == old(taskQ)[cnt..]
        decreases |taskQ|
      {
        taskList := taskList + [taskQ[0]];
        taskQ := taskQ[1..];
        cnt := cnt + 1;
      }
    }

    /** The worker's loop over its batch: one step of the machine for each task, in order; `ran` are the
        tasks called. */
    method RunBatch(w: nat, ghost rest: State) returns (ran: seq<Task>)
      requires w < threads.Length && threads[w].Busy? && w < |rest.ran|
      modifies threads
      ensures var s' := Run(Cfg(), old(Snapshot(rest)), BatchSteps(w, |old(threads[w]).batch|));
              Snapshot(s') == s' && s'.ran == rest.ran[w := rest.ran[w] + ran] && threads[w] == Busy([])
      ensures ran == old(threads[w]).batch
    {
      hide Run, Next, BatchSteps;
      BatchRuns(Cfg(), Snapshot(rest), w);
      ghost var was := threads[..];
      var taskList := threads[w].batch;
      ran := [];
      while taskList != []
        invariant threads[..] == old(threads[..])[w := Busy(taskList)] && ran + taskList == old(threads[w]).batch
        decreases |taskList|
      {
        var t := taskList[0];
        taskList := taskList[1..];
        threads[w] := Busy(taskList);
        ran := ran + [t];
      }
      assert ran == old(threads[w]).batch;
      assert threads[..] == was[w := Busy([])];
    }

    /** Below slot m every free slot has a new thread; the others, and those from m on, are as they were. */
    predicate GrownBelow(m: int, was: seq<Worker>, dead: set<nat>)
      reads threads
    {
      && |was| == threads.Length
      && forall i :: 0 <= i < |was| ==>
           threads[i] == if i < m && (was[i] == Absent || (was[i] == Exited && i in dead)) then Top else was[i]
    }

    /** The admin's growing loop, from the counts it sampled before; `dead` are the slots whose
        thread pthread_kill reports gone. */
    method GrowSection(live: int, tasks: nat, dead: set<nat>, ghost rest: State)
      requires rest.admin.Measured? && rest.admin.live == live && rest.admin.tasks == tasks
      modifies threads, this`liveThrNum
      ensures var s' := Next(Cfg(), old(Snapshot(rest)), AdminGrow(dead)); Snapshot(s') == s'
      ensures var (ws, n) := if tasks > live && live < maxTasksNum then Grow(old(threads[..]), dead, 0, 0)
                             else (old(threads[..]), 0);
              threads[..] == ws && liveThrNum == old(liveThrNum) + n
      // started in the free slots below some mark; at the last slot, or when ten have been started, it stops
      ensures old(liveThrNum) <= liveThrNum <= old(liveThrNum) + 10
      ensures tasks > live && live < maxTasksNum ==>
                exists m :: 0 <= m <= threads.Length && (m < threads.Length ==> liveThrNum == old(liveThrNum) + 10)
                            && GrownBelow(m, old(threads[..]), dead)
      ensures !(tasks > live && live < maxTasksNum) ==>
                threads[..] == old(threads[..]) && liveThrNum == old(liveThrNum)
    {
      if tasks > live && live < maxTasksNum {
        var i, j := 0, 0;
        while j < THREAD_INCREMENT && i < threads.Length
          invariant i <= threads.Length && liveThrNum == old(liveThrNum) + j
          invariant Grow(old(threads[..]), dead, 0, 0) == Grow(threads[..], dead, i, j)
          invariant 0 <= i && j <= 10 && GrownBelow(i, old(threads[..]), dead)
        {
          label BeforeStore:
          if Free(threads[i], i in dead) {
            threads[i] := Top;
            j := j + 1;
            liveThrNum := liveThrNum + 1;
            assert threads[..] == old@BeforeStore(threads[..])[i := Top];
          }
          i := i + 1;
        }
      }
    }

    /** The admin's decision to shrink, from the counts it sampled before: more than half of the threads were
        idle, and there were more than the fewest. Ten are then asked to leave. */
    method ShrinkSection(live: int, busy: int, ghost rest: State) returns (shrink: bool)
      requires rest.admin == Grown(live, busy)
      modifies this`destroyThrNum
      ensures var s' := Next(Cfg(), old(Snapshot(rest)), AdminDecide);
              Snapshot(s') == s' && s'.admin == if shrink then Signalling(10) else Resting
      ensures shrink <==> 2 * busy < live && live > minThrNum
      ensures destroyThrNum == if shrink then 10 else old(destroyThrNum)
    {
      shrink := busy * 2 < live && live > minThrNum;
      if shrink { destroyThrNum := THREAD_INCREMENT; }
    }
  }
}
