/**
 Which pools can lose a wake-up: exactly those whose admin can start a thread. In each of them there
 is a run after which a task is queued, every worker is asleep or gone, and nobody is left to signal.
 */
module ThreadPoolStranding {
  import opened Bytes
  import opened ThreadPool
  import opened ThreadPoolRuns
  import opened ThreadPoolLiveness

  ghost predicate Reached(c: Config, s: State) { exists es :: Run(c, Init(c), es) == s }

  lemma RunOne(c: Config, s: State, e: Event)
    ensures Run(c, s, [e]) == Next(c, s, e)
  {
    hide Next;
    assert [e][1..] == [];
  }

  lemma Take(c: Config, s: State, e: Event) returns (s': State)
    requires Reached(c, s)
    ensures Reached(c, s') && s' == Next(c, s, e)
  {
    var es :| Run(c, Init(c), es) == s;
    RunAppend(c, Init(c), es, [e]);
    RunOne(c, s, e);
    s' := Next(c, s, e);
    assert Run(c, Init(c), es + [e]) == s';
  }

  /** Nobody is adding, closing or working. */
  predicate AtRest(c: Config, s: State) {
    && s.producer == Idle && !s.shutdown && s.admin == Resting && s.busy == 0
    && |s.workers| == |s.ran| == c.maxThr
  }

  predicate TopOrAbsent(ws: seq<Worker>) {
    ws != [] && ws[0] == Top && forall i :: 0 <= i < |ws| ==> ws[i] == Top || ws[i] == Absent
  }

  /** n tasks queue up before any worker has locked. */
  lemma {:induction false} QueueUp(c: Config, n: nat) returns (s: State)
    requires ValidConfig(c) && c.dynamic && n <= c.maxTasks
    ensures Reached(c, s) && AtRest(c, s) && |s.q| == n && s.live == c.minThr && s.destroy == 0
    ensures TopOrAbsent(s.workers) && (c.minThr < c.maxThr ==> s.workers[c.minThr] == Absent)
  {
    if n == 0 {
      s := Init(c);
      assert Run(c, s, []) == s;
    } else {
      s := QueueUp(c, n - 1);
      hide Reached;
      s := Take(c, s, AddTask(Task(0, 0)));
      s := Take(c, s, ProducerSection(None));
    }
  }

  /** The growing loop starts at least one thread if a slot is unused. */
  lemma {:induction false} GrowStarts(ws: seq<Worker>, dead: set<nat>, i: nat, j: nat, k: nat)
    requires i <= k < |ws| && ws[k] == Absent && j < THREAD_INCREMENT
    ensures Grow(ws, dead, i, j).1 > j
    decreases |ws| - i
  {
    if Free(ws[i], i in dead) {
      GrowIsSound(ws[i := Top], dead, i + 1, j + 1);
    } else {
      GrowStarts(ws, dead, i + 1, j, k);
    }
  }

  /** One round of the admin while nobody is busy. */
  lemma AdminRound(c: Config, s: State) returns (s': State)
    requires Reached(c, s) && AtRest(c, s)
    ensures Reached(c, s')
    ensures var (ws, n) := if |s.q| > s.live && s.live < c.maxTasks then Grow(s.workers, {}, 0, 0) else (s.workers, 0);
            var shrink := 0 < s.live && s.live > c.minThr;
            s' == s.(workers := ws, live := s.live + n,
                     destroy := if shrink then THREAD_INCREMENT else s.destroy,
                     admin := if shrink then Signalling(THREAD_INCREMENT) else Resting)
  {
    hide Reached, Grow;
    s' := Take(c, s, AdminSample);
    s' := Take(c, s', AdminMeasure);
    s' := Take(c, s', AdminGrow({}));
    s' := Take(c, s', AdminDecide);
  }

  /** More tasks than threads: the admin starts threads. */
  lemma Grows(c: Config) returns (s: State)
    requires ValidConfig(c) && CanShrink(c)
    ensures Reached(c, s) && AtRest(c, s) && s.live > c.minThr && s.destroy == 0 && TopOrAbsent(s.workers)
  {
    s := QueueUp(c, c.minThr + 1);
    GrowStarts(s.workers, {}, 0, 0, c.minThr);
    GrowIsSound(s.workers, {}, 0, 0);
    hide Reached, Grow, Sum;
    s := AdminRound(c, s);
  }

  /** Worker 0 runs what is left of its batch. */
  lemma {:induction false} RunsBatch(c: Config, s: State) returns (s': State)
    requires Reached(c, s) && s.workers != [] && s.ran != [] && s.workers[0].Busy?
    ensures Reached(c, s') && s' == s.(workers := s.workers[0 := Busy([])], ran := s'.ran) && |s'.ran| == |s.ran|
    decreases |s.workers[0].batch|
  {
    hide Reached;
    if s.workers[0].batch == [] {
      s' := s;
      assert s.workers[0 := Busy([])] == s.workers;
    } else {
      s' := Take(c, s, RunTask(0));
      s' := RunsBatch(c, s');
    }
  }

  /** Worker 0 empties the queue and is back at the top of its loop. */
  lemma {:induction false} Empties(c: Config, s: State) returns (s': State)
    requires Reached(c, s) && AtRest(c, s) && s.live > 0 && TopOrAbsent(s.workers)
    ensures Reached(c, s') && AtRest(c, s') && s'.q == [] && s'.live == s.live && s'.destroy == s.destroy
            && s'.workers == s.workers
    decreases |s.q|
  {
    hide Reached;
    s' := s;
    if s.q != [] {
      hide BatchSize;
      s' := Take(c, s', WorkerSection(0));
      s' := Take(c, s', CountBusy(0));
      s' := RunsBatch(c, s');
      s' := Take(c, s', UncountBusy(0));
      assert s'.workers == s.workers;
      s' := Empties(c, s');
    }
  }

  /** Signals that no thread is waiting for are lost. */
  lemma {:induction false} SignalsAreLost(c: Config, s: State) returns (s': State)
    requires Reached(c, s) && s.admin.Signalling? && TopOrAbsent(s.workers)
    ensures Reached(c, s') && s' == s.(admin := Resting)
    decreases s.admin.n
  {
    hide Reached;
    s' := Take(c, s, AdminSignal(None));
    if s.admin.n > 0 { s' := SignalsAreLost(c, s'); }
  }

  /** The admin asks threads to leave while none of them sleeps. */
  lemma AsksToLeave(c: Config) returns (s: State)
    requires ValidConfig(c) && CanShrink(c)
    ensures Reached(c, s) && AtRest(c, s) && s.live > c.minThr && s.destroy > 0 && s.q == [] && TopOrAbsent(s.workers)
  {
    s := Grows(c);
    s := Empties(c, s);
    hide Reached;
    s := AdminRound(c, s);
    s := SignalsAreLost(c, s);
  }

  predicate AsleepOrAbsent(ws: seq<Worker>, n: nat) {
    forall i :: 0 <= i < |ws| && i < n ==> ws[i] == Asleep || ws[i] == Absent
  }

  /** The first n workers go to sleep on the empty queue. */
  lemma {:induction false} FallAsleep(c: Config, s: State, n: nat) returns (s': State)
    requires Reached(c, s) && AtRest(c, s) && s.live > 0 && s.q == [] && TopOrAbsent(s.workers) && 0 < n <= |s.workers|
    ensures Reached(c, s') && AtRest(c, s') && s'.live == s.live && s'.destroy == s.destroy && s'.q == []
    ensures s'.workers[0] == Asleep && AsleepOrAbsent(s'.workers, n) && s'.workers[n..] == s.workers[n..]
    decreases n
  {
    hide Reached;
    s' := s;
    if n > 1 { s' := FallAsleep(c, s, n - 1); }
    assert s'.workers[n - 1] == s.workers[n - 1] by { if n > 1 { assert s'.workers[n - 1] == s'.workers[n - 1..][0]; } }
    assert s'.workers[n..] == s.workers[n..] by { if n > 1 { assert s'.workers[n..] == s'.workers[n - 1..][1..]; } }
    if s.workers[n - 1] == Top {
      s' := Take(c, s', WorkerSection(n - 1));
    }
  }

  /** A task is queued; every worker is asleep or gone, and no signal is on its way. */
  ghost predicate Stranded(s: State) {
    && s.q != [] && !s.shutdown && s.producer == Idle && s.admin == Resting
    && forall i :: 0 <= i < |s.workers| ==> Gone(s.workers[i]) || s.workers[i] == Asleep
  }

  /** The signal for a new task meets a worker that is to leave, and nobody takes the task. */
  lemma TaskIsStranded(c: Config) returns (s: State)
    requires ValidConfig(c) && CanShrink(c)
    ensures Reached(c, s) && Stranded(s)
  {
    s := AsksToLeave(c);
    s := FallAsleep(c, s, |s.workers|);
    hide Reached;
    s := Take(c, s, AddTask(Task(0, 0)));
    s := Take(c, s, ProducerSection(Some(0)));
    s := Take(c, s, WorkerSection(0));
  }

  /** A wake-up can be lost exactly when the admin can start a thread: in a dynamic pool with fewer
      threads at first than it may have, and fewer than its queue can hold tasks. */
  lemma WakeUpsAreKeptExactlyWhen(c: Config)
    requires ValidConfig(c)
    ensures (forall es :: var s := Run(c, Init(c), es); s.q != [] ==> SomeoneAwake(s.workers)) <==> !CanShrink(c)
    ensures (exists es :: Stranded(Run(c, Init(c), es))) <==> CanShrink(c)
  {
    if CanShrink(c) {
      var s := TaskIsStranded(c);
      var es :| Run(c, Init(c), es) == s;
      assert Stranded(Run(c, Init(c), es));
      assert !SomeoneAwake(Run(c, Init(c), es).workers);
    } else {
      forall es ensures var s := Run(c, Init(c), es); !Stranded(s) && (s.q != [] ==> SomeoneAwake(s.workers)) {
        NoLostWakeUp(c, es);
      }
    }
  }
}
