/** Wake-ups, progress, shutdown and batch sizes of the thread pool. */
module ThreadPoolLiveness {
  import opened Bytes
  import opened ThreadPool
  import opened ThreadPoolRuns

  // ---------------------------------------------------------------- wake-ups

  ghost predicate SomeoneAwake(ws: seq<Worker>) { exists i :: 0 <= i < |ws| && !Gone(ws[i]) && ws[i] != Asleep }

  /** The admin of this pool can come to start threads, and so to ask threads to leave. */
  predicate CanShrink(c: Config) { c.dynamic && c.minThr < c.maxThr && c.minThr < c.maxTasks }

  /** In a pool that cannot shrink, no thread is ever asked to leave. */
  predicate Tame(c: Config, s: State) {
    !CanShrink(c) ==>
      && s.destroy == 0 && s.live <= c.minThr && !s.admin.Signalling?
      && (s.admin.Sampled? || s.admin.Measured? ==> s.admin.live == c.minThr && s.admin.tasks <= c.maxTasks)
      && (s.admin.Grown? ==> s.admin.live == c.minThr)
  }

  lemma AdministeringIsTame(c: Config, s: State, e: Event)
    requires ValidConfig(c) && Counts(c, s) && Tame(c, s) && Enabled(c, s, e)
    requires e.AdminSample? || e.AdminMeasure? || e.AdminGrow? || e.AdminDecide? || e.AdminSignal?
    ensures Tame(c, Administering(c, s, e))
  {
    AdministeringCounts(c, s, e);
    LiveBounds(Administering(c, s, e).workers);
    hide Sum, Grow;
  }

  lemma TameStep(c: Config, s: State, e: Event)
    requires ValidConfig(c) && Counts(c, s) && Tame(c, s)
    ensures Tame(c, Next(c, s, e))
  {
    hide Administering, BatchSize, Sum;
    if Enabled(c, s, e) && (e.AdminSample? || e.AdminMeasure? || e.AdminGrow? || e.AdminDecide? || e.AdminSignal?) {
      AdministeringIsTame(c, s, e);
    }
  }

  /** A broadcast has gone out since the shutdown flag was set. */
  predicate BroadcastDone(s: State) {
    s.closer == Joining || s.closer == Closed || (s.closer.Broadcasting? && s.closer.i > 0)
  }

  ghost predicate Wakeful(c: Config, s: State) { Tame(c, s) && Alert(c, s) }

  ghost predicate Alert(c: Config, s: State) {
    && Counts(c, s)
    && (BroadcastDone(s) ==> forall i :: 0 <= i < |s.workers| ==> s.workers[i] != Asleep)
    && (!CanShrink(c) && s.q != [] ==> SomeoneAwake(s.workers))
    && (s.producer.Waiting? ==> |s.q| == c.maxTasks)
  }

  lemma WorkingIsWakeful(c: Config, s: State, w: nat)
    requires ValidConfig(c) && Wakeful(c, s) && Enabled(c, s, WorkerSection(w))
    ensures Alert(c, Working(c, s, w))
  {
    hide Sum;
    SectionCounts(c, s, w);
    hide BatchSize, Counts;
    var s' := Working(c, s, w);
    CountsFacts(c, s);
    if s'.q != [] && !CanShrink(c) {
      assert !Gone(s'.workers[w]) && s'.workers[w] != Asleep;
    }
  }

  lemma CountsFacts(c: Config, s: State)
    requires Counts(c, s)
    ensures |s.workers| == c.maxThr && (!c.dynamic ==> s.destroy == 0) && (s.closer == Open <==> !s.shutdown)
  {
  }

  lemma ProducingIsWakeful(c: Config, s: State, wake: Option<nat>)
    requires ValidConfig(c) && Wakeful(c, s) && Enabled(c, s, ProducerSection(wake))
    ensures Alert(c, Producing(c, s, wake))
  {
    ProducingCounts(c, s, wake);
    var s' := Producing(c, s, wake);
    if s'.q != s.q {
      match wake
      case Some(i) => assert s'.workers[i] == Woken;
      case None => var i := SomeoneLives(s.workers); assert s'.workers[i] == s.workers[i];
    } else {
      assert s'.workers == s.workers;
    }
  }

  lemma MoveIsWakeful(c: Config, s: State, s': State, w: nat)
    requires Wakeful(c, s) && Counts(c, s') && w < |s.workers|
             && s' == s.(workers := s'.workers, busy := s'.busy, ran := s'.ran)
    requires s'.workers == s.workers[w := s'.workers[w]] && s'.workers[w] != Asleep && !Gone(s'.workers[w])
    ensures Alert(c, s')
  {
    assert SomeoneAwake(s'.workers);
  }

  lemma BroadcastIsWakeful(c: Config, s: State)
    requires Wakeful(c, s) && Enabled(c, s, CloseBroadcast) && Counts(c, Next(c, s, CloseBroadcast))
    ensures Alert(c, Next(c, s, CloseBroadcast))
  {
    if s.closer.i < s.live {
      if SomeoneAwake(s.workers) {
        var i :| 0 <= i < |s.workers| && !Gone(s.workers[i]) && s.workers[i] != Asleep;
        assert WakeAll(s.workers)[i] == s.workers[i];
      }
    } else if s.closer.i == 0 {
      forall i | 0 <= i < |s.workers| ensures s.workers[i] != Asleep {
        SumAtLeast(s.workers, i, LIVE);
      }
    }
  }

  lemma AdministeringIsWakeful(c: Config, s: State, e: Event)
    requires ValidConfig(c) && Wakeful(c, s) && Enabled(c, s, e)
    requires e.AdminSample? || e.AdminMeasure? || e.AdminGrow? || e.AdminDecide? || e.AdminSignal?
    ensures Alert(c, Administering(c, s, e))
  {
    AdministeringCounts(c, s, e);
    hide Sum;
    assert c.dynamic;
    if e.AdminGrow? {
      GrowIsSound(s.workers, e.dead, 0, 0);
      if SomeoneAwake(s.workers) {
        var i :| 0 <= i < |s.workers| && !Gone(s.workers[i]) && s.workers[i] != Asleep;
        assert Grow(s.workers, e.dead, 0, 0).0[i] == s.workers[i];
      }
    }
  }

  lemma WakefulStep(c: Config, s: State, e: Event)
    requires ValidConfig(c) && Wakeful(c, s)
    ensures Wakeful(c, Next(c, s, e))
  {
    CountsStep(c, s, e);
    TameStep(c, s, e);
    hide Working, Producing, Administering, Counts, Tame;
    CountsFacts(c, s);
    var s' := Next(c, s, e);
    if Enabled(c, s, e) {
      match e
      case AddTask(_) =>
      case ProducerSection(wake) => ProducingIsWakeful(c, s, wake);
      case WorkerSection(w) => WorkingIsWakeful(c, s, w);
      case CountBusy(w) => MoveIsWakeful(c, s, s', w);
      case RunTask(w) => MoveIsWakeful(c, s, s', w);
      case UncountBusy(w) => MoveIsWakeful(c, s, s', w);
      case SpuriousWorker(w) => MoveIsWakeful(c, s, s', w);
      case SpuriousProducer =>
      case CloseFlag =>
      case CloseBroadcast => BroadcastIsWakeful(c, s);
      case CloseJoined =>
      case _ => AdministeringIsWakeful(c, s, e);
    }
  }

  lemma {:induction false} WakefulInEveryRun(c: Config, s: State, es: seq<Event>)
    requires ValidConfig(c) && Wakeful(c, s)
    ensures Wakeful(c, Run(c, s, es))
    decreases |es|
  {
    if es != [] {
      WakefulStep(c, s, es[0]);
      WakefulInEveryRun(c, Next(c, s, es[0]), es[1..]);
    }
  }

  /** No lost wake-up in a pool that cannot shrink, so in every static one: a queued task has a
      worker that is not asleep, and a producer that waits without a signal waits on a full queue. */
  lemma NoLostWakeUp(c: Config, es: seq<Event>)
    requires ValidConfig(c) && !CanShrink(c)
    ensures var s := Run(c, Init(c), es);
            && (s.q != [] ==> exists i :: 0 <= i < |s.workers| && !Gone(s.workers[i]) && s.workers[i] != Asleep)
            && (s.producer.Waiting? ==> |s.q| == c.maxTasks)
  {
    InitCounts(c);
    WakefulInEveryRun(c, Init(c), es);
  }

  // ---------------------------------------------------------------- one worker

  lemma {:induction false} TwoLive(ws: seq<Worker>, v: nat, w: nat)
    requires v < w < |ws| && !Gone(ws[v]) && !Gone(ws[w])
    ensures Sum(ws, LIVE) >= 2
    decreases |ws|
  {
    if v == 0 { SumAtLeast(ws[1..], w - 1, LIVE); } else { TwoLive(ws[1..], v - 1, w - 1); }
  }

  /** A pool that starts with one thread and cannot shrink, as every static one cannot, runs its
      tasks one at a time: in every run no two workers have a batch at once. */
  lemma OneWorkerAtATime(c: Config, es: seq<Event>, v: nat, w: nat)
    requires ValidConfig(c) && !CanShrink(c) && c.minThr == 1
    requires v < w < |Run(c, Init(c), es).workers|
    ensures var ws := Run(c, Init(c), es).workers; !((ws[v].Took? || ws[v].Busy?) && (ws[w].Took? || ws[w].Busy?))
  {
    InitCounts(c);
    WakefulInEveryRun(c, Init(c), es);
    var s := Run(c, Init(c), es);
    hide Run;
    if !Gone(s.workers[v]) && !Gone(s.workers[w]) { TwoLive(s.workers, v, w); }
  }

  /** In a static pool only the first threads ever run, take or execute anything. */
  predicate Fixed(c: Config, s: State) {
    && |s.workers| == |s.ran| == c.maxThr && s.admin == NoAdmin
    && (forall w :: c.minThr <= w < c.maxThr ==> s.workers[w] == Absent && s.ran[w] == [])
    && (forall i :: 0 <= i < |s.taken| ==> s.taken[i].0 < c.minThr)
  }

  lemma FixedStep(c: Config, s: State, e: Event)
    requires Fixed(c, s)
    ensures Fixed(c, Next(c, s, e))
  {
    hide BatchSize, Sum;
  }

  lemma {:induction false} FixedInEveryRun(c: Config, s: State, es: seq<Event>)
    requires Fixed(c, s)
    ensures Fixed(c, Run(c, s, es))
    decreases |es|
  {
    if es != [] {
      FixedStep(c, s, es[0]);
      FixedInEveryRun(c, Next(c, s, es[0]), es[1..]);
    }
  }

  lemma {:induction false} OneTaker(taken: seq<(nat, seq<Task>)>)
    requires forall i :: 0 <= i < |taken| ==> taken[i].0 == 0
    ensures BatchesOf(taken, 0) == Flatten(taken)
    decreases |taken|
  {
    if taken != [] { OneTaker(taken[..|taken| - 1]); }
  }

  /** A static pool with one thread executes the accepted tasks in the order in which they came: what
      worker 0 has run, what is left of its batch, and the queue are the accepted tasks. */
  lemma TasksRunInOrder(c: Config, es: seq<Event>)
    requires ValidConfig(c) && !c.dynamic && c.minThr == 1
    ensures var s := Run(c, Init(c), es);
            && |s.ran| == |s.workers| == c.maxThr
            && (forall w :: 0 < w < c.maxThr ==> s.ran[w] == [])
            && s.accepted == s.ran[0] + Remaining(s.workers[0]) + s.q
  {
    ExactlyOnceInOrder(c, es);
    FixedInEveryRun(c, Init(c), es);
    var s := Run(c, Init(c), es);
    hide Run;
    OneTaker(s.taken);
  }

  /** The pool that the server builds. */
  const SERVER_POOL: Config := MakeConfig(1, 20, 10000, false)

  lemma ServerTasksAreSerial(es: seq<Event>, v: nat, w: nat)
    requires v < w < |Run(SERVER_POOL, Init(SERVER_POOL), es).workers|
    ensures var ws := Run(SERVER_POOL, Init(SERVER_POOL), es).workers;
            !((ws[v].Took? || ws[v].Busy?) && (ws[w].Took? || ws[w].Busy?))
  {
    OneWorkerAtATime(SERVER_POOL, es, v, w);
  }

  // ---------------------------------------------------------------- progress

  /** The steps that threads take by themselves. */
  predicate Progress(e: Event) {
    e.WorkerSection? || e.CountBusy? || e.RunTask? || e.UncountBusy? || e.ProducerSection? || e.CloseBroadcast?
      || e.CloseJoined?
  }

  ghost predicate CanProgress(c: Config, s: State) { exists e :: Progress(e) && Enabled(c, s, e) }

  lemma AwakeCanProgress(c: Config, s: State)
    requires Counts(c, s) && SomeoneAwake(s.workers)
    ensures CanProgress(c, s)
  {
    var w: nat :| w < |s.workers| && !Gone(s.workers[w]) && s.workers[w] != Asleep;
    SumAtLeast(s.workers, w, LIVE);
    var e := if s.workers[w].Took? then CountBusy(w)
             else if s.workers[w] == Busy([]) then UncountBusy(w)
             else if s.workers[w].Busy? then RunTask(w)
             else WorkerSection(w);
    assert Progress(e) && Enabled(c, s, e);
  }

  lemma ProducerCanProgress(c: Config, s: State)
    requires s.producer.Calling? || s.producer.Signalled?
    ensures CanProgress(c, s)
  {
    var wake: Option<nat> := None;
    if i: nat :| i < |s.workers| && s.workers[i] == Asleep {
      wake := Some(i);
    }
    assert SignalChoice(s.workers, wake);
    assert Progress(ProducerSection(wake)) && Enabled(c, s, ProducerSection(wake));
  }

  lemma JoiningCanProgress(c: Config, s: State)
    requires Wakeful(c, s) && s.closer == Joining && (s.admin == NoAdmin || s.admin == Left)
    ensures CanProgress(c, s)
  {
    if i: nat :| i < |s.workers| && !Gone(s.workers[i]) {
      AwakeCanProgress(c, s);
    } else {
      assert Progress(CloseJoined) && Enabled(c, s, CloseJoined);
    }
  }

  /** Work is left: a task queued or in a batch, a call of add_task, or a close under way. */
  ghost predicate Unfinished(s: State) {
    || s.q != [] || s.producer != Idle || s.closer.Broadcasting? || s.closer == Joining
    || exists w :: 0 <= w < |s.workers| && (s.workers[w].Took? || s.workers[w].Busy?)
  }

  lemma UnfinishedCanProgress(c: Config, s: State)
    requires ValidConfig(c) && Wakeful(c, s) && !c.dynamic && Unfinished(s)
    ensures CanProgress(c, s)
  {
    hide Sum;
    if s.closer.Broadcasting? {
      assert Progress(CloseBroadcast) && Enabled(c, s, CloseBroadcast);
    } else if s.closer == Joining {
      JoiningCanProgress(c, s);
    } else if s.producer.Calling? || s.producer.Signalled? {
      ProducerCanProgress(c, s);
    } else if s.q != [] {
      AwakeCanProgress(c, s);
    } else if w :| 0 <= w < |s.workers| && (s.workers[w].Took? || s.workers[w].Busy?) {
      assert SomeoneAwake(s.workers);
      AwakeCanProgress(c, s);
    }
  }

  // ---------------------------------------------------------------- a measure

  const WEIGHT: Worker -> nat := (w: Worker) =>
    match w
    case Top => 1
    case Woken => 1
    case Busy(b) => 2 + |b|
    case Took(b) => 3 + |b|
    case _ => 0

  function ProducerWeight(p: Producer): nat { match p case Idle => 0 case Waiting(_) => 6 case _ => 7 }

  /** Each broadcast may wake every worker. */
  function CloserWeight(n: nat, closer: Closer): nat {
    match closer
    case Broadcasting(i) => if i <= n then (n + 1 - i) * (n + 1) + 1 else 1
    case Joining => 1
    case _ => 0
  }

  function Measure(c: Config, s: State): nat {
    5 * |s.q| + Sum(s.workers, WEIGHT) + ProducerWeight(s.producer) + CloserWeight(c.maxThr, s.closer)
  }

  lemma SectionDecreases(c: Config, s: State, w: nat)
    requires Counts(c, s) && Enabled(c, s, WorkerSection(w))
    ensures Measure(c, Working(c, s, w)) < Measure(c, s)
  {
    hide BatchSize, Sum, CloserWeight;
    SumUpdate(s.workers, w, Working(c, s, w).workers[w], WEIGHT);
  }

  lemma ProducerDecreases(c: Config, s: State, wake: Option<nat>)
    requires Enabled(c, s, ProducerSection(wake))
    ensures Measure(c, Producing(c, s, wake)) < Measure(c, s)
  {
    if !s.shutdown && |s.q| != c.maxTasks && wake.Some? {
      SumUpdate(s.workers, wake.value, Woken, WEIGHT);
    }
  }

  lemma BroadcastDecreases(c: Config, s: State)
    requires Counts(c, s) && Enabled(c, s, CloseBroadcast)
    ensures Measure(c, Next(c, s, CloseBroadcast)) < Measure(c, s)
  {
    LiveBounds(s.workers);
    var (n, i) := (c.maxThr, s.closer.i);
    if i < s.live {
      SumMonotone(WakeAll(s.workers), WEIGHT, s.workers, WEIGHT, 1);
      assert (n + 1 - i) * (n + 1) == (n - i) * (n + 1) + (n + 1);
    } else {
      assert (n + 1 - i) * (n + 1) >= n + 1;
    }
  }

  lemma JoiningDecreases(n: nat)
    ensures CloserWeight(n, Joining) == 1 && CloserWeight(n, Closed) == 0
  {
  }

  /** Every step that a thread takes by itself brings the pool nearer to rest. */
  lemma ProgressDecreases(c: Config, s: State, e: Event)
    requires Counts(c, s) && Progress(e) && Enabled(c, s, e)
    ensures Measure(c, Next(c, s, e)) < Measure(c, s)
  {
    hide Working, Producing, Sum, CloserWeight;
    match e
    case ProducerSection(wake) => ProducerDecreases(c, s, wake);
    case WorkerSection(w) => SectionDecreases(c, s, w);
    case CountBusy(w) => SumUpdate(s.workers, w, Busy(s.workers[w].batch), WEIGHT);
    case RunTask(w) => SumUpdate(s.workers, w, Busy(s.workers[w].batch[1..]), WEIGHT);
    case UncountBusy(w) => SumUpdate(s.workers, w, Top, WEIGHT);
    case CloseBroadcast => BroadcastDecreases(c, s);
    case CloseJoined => JoiningDecreases(c.maxThr);
  }

  predicate ProgressRun(c: Config, s: State, es: seq<Event>)
    decreases |es|
  {
    es == [] || (Progress(es[0]) && Enabled(c, s, es[0]) && ProgressRun(c, Next(c, s, es[0]), es[1..]))
  }

  lemma {:induction false} ProgressRunsAreFinite(c: Config, s: State, es: seq<Event>)
    requires ValidConfig(c) && Counts(c, s) && ProgressRun(c, s, es)
    ensures |es| <= Measure(c, s)
    decreases |es|
  {
    if es != [] {
      CountsStep(c, s, es[0]);
      ProgressDecreases(c, s, es[0]);
      ProgressRunsAreFinite(c, Next(c, s, es[0]), es[1..]);
    }
  }

  lemma {:induction false} RunAppend(c: Config, s: State, es: seq<Event>, fs: seq<Event>)
    ensures Run(c, s, es + fs) == Run(c, Run(c, s, es), fs)
    decreases |es|
  {
    if es == [] {
      assert es + fs == fs;
    } else {
      assert (es + fs)[1..] == es[1..] + fs;
      RunAppend(c, Next(c, s, es[0]), es[1..], fs);
    }
  }

  /** No deadlock: from any reachable state of a static pool, the threads' own steps end after
      boundedly many, and where they end every accepted task has been run, no producer waits,
      and a close that had begun has returned. */
  lemma StaticPoolComesToRest(c: Config, es: seq<Event>, fs: seq<Event>)
    requires ValidConfig(c) && !c.dynamic && ProgressRun(c, Run(c, Init(c), es), fs)
    ensures |fs| <= Measure(c, Run(c, Init(c), es))
    ensures var s := Run(c, Init(c), es + fs);
            !CanProgress(c, s) ==>
              && Gather(s.ran) == multiset(s.accepted) && s.q == []
              && s.producer == Idle
              && (s.shutdown ==> s.closer == Closed)
  {
    InitCounts(c);
    CountsInEveryRun(c, Init(c), es);
    ProgressRunsAreFinite(c, Run(c, Init(c), es), fs);
    RunAppend(c, Init(c), es, fs);
    WakefulInEveryRun(c, Init(c), es + fs);
    var s := Run(c, Init(c), es + fs);
    if !CanProgress(c, s) {
      if Unfinished(s) { UnfinishedCanProgress(c, s); }
      NothingLeftIsAllRun(c, s, es + fs);
    }
  }

  lemma NothingLeftIsAllRun(c: Config, s: State, es: seq<Event>)
    requires ValidConfig(c) && s == Run(c, Init(c), es) && !Unfinished(s)
    ensures Gather(s.ran) == multiset(s.accepted)
  {
    HistoryInEveryRun(c, Init(c), es);
    hide Run;
    AllRun(c, s);
  }

  lemma AllRun(c: Config, s: State)
    requires History(c, s) && !Unfinished(s)
    ensures Gather(s.ran) == multiset(s.accepted)
  {
    hide BatchesOf, Flatten, Gather;
    BatchesAreTheQueue(s.taken, c.maxThr);
    forall w | 0 <= w < c.maxThr ensures s.ran[w] == BatchesOf(s.taken, w) {
      assert Remaining(s.workers[w]) == [];
      assert s.ran[w] + [] == s.ran[w];
    }
    assert s.ran == AllBatches(s.taken, c.maxThr);
    assert Flatten(s.taken) + [] == Flatten(s.taken);
  }

  // ---------------------------------------------------------------- batch sizes

  /** The queue after n batches in a row with nothing added. */
  function AfterBatches(c: Config, live: int, q: seq<Task>, n: nat): seq<Task>
    requires live > 0
  {
    if n == 0 then q else AfterBatches(c, live, Section(c, q, live, 0, true, false).1, n - 1)
  }

  lemma {:induction false} BatchesShrinkTheQueue(c: Config, live: int, q: seq<Task>, n: nat)
    requires live > 0
    ensures var most := (if c.maxTasks / live > 1 then c.maxTasks / live else 1) + 1;
            |AfterBatches(c, live, q, n)| == if |q| <= n * most then 0 else |q| - n * most
    decreases n
  {
    var most := (if c.maxTasks / live > 1 then c.maxTasks / live else 1) + 1;
    assert n * most >= 0;
    if n > 0 {
      var q' := Section(c, q, live, 0, true, false).1;
      BatchesShrinkTheQueue(c, live, q', n - 1);
      assert (n - 1) * most == n * most - most;
      assert (n - 1) * most >= 0;
    }
  }

  lemma BatchArithmetic(m: nat, live: nat, d: nat, most: nat)
    requires live > 0 && d == m / live && most >= d + 1
    ensures m <= live * most
  {
    assert m == live * d + m % live;
    assert live * most >= live * (d + 1) == live * d + live;
  }

  /** Any `live` batches in a row empty every queue the pool can hold. */
  lemma LiveBatchesEmptyTheQueue(c: Config, live: int, q: seq<Task>)
    requires live > 0 && |q| <= c.maxTasks
    ensures AfterBatches(c, live, q, live) == []
  {
    hide AfterBatches;
    BatchesShrinkTheQueue(c, live, q, live);
    BatchArithmetic(c.maxTasks, live, c.maxTasks / live, (if c.maxTasks / live > 1 then c.maxTasks / live else 1) + 1);
  }
}
