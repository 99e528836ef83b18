/** Closing the pool, static or dynamic: after the flag every step of the pool's own threads counts. */
module ThreadPoolShutdown {
  import opened Bytes
  import opened ThreadPool
  import opened ThreadPoolRuns
  import opened ThreadPoolLiveness

  predicate AdminStep(e: Event) {
    e.AdminSample? || e.AdminMeasure? || e.AdminGrow? || e.AdminDecide? || e.AdminSignal?
  }

  /** The steps that the workers, the closing thread, the producer and the admin take by themselves. */
  predicate OwnStep(e: Event) { Progress(e) || AdminStep(e) }

  /** What the admin may still do before it sees the flag: it can start ten threads and wake ten. */
  function AdminWeight(a: Admin): nat {
    match a
    case NoAdmin => 0
    case Left => 0
    case Resting => 1
    case Signalling(n) => 2 * n + 2
    case Grown(_, _) => 2 * THREAD_INCREMENT + 3
    case Measured(_, _, _) => 3 * THREAD_INCREMENT + 4
    case Sampled(_, _) => 3 * THREAD_INCREMENT + 5
  }

  function ClosingMeasure(c: Config, s: State): nat { Measure(c, s) + AdminWeight(s.admin) }

  /** A thread that is started weighs one. */
  lemma {:induction false} GrowWeighs(ws: seq<Worker>, dead: set<nat>, i: nat, j: nat)
    requires j <= THREAD_INCREMENT
    ensures var (ws', n) := Grow(ws, dead, i, j);
            j <= n <= THREAD_INCREMENT && Sum(ws', WEIGHT) + j == Sum(ws, WEIGHT) + n
    decreases |ws| - i
  {
    if i < |ws| && j < THREAD_INCREMENT {
      if Free(ws[i], i in dead) {
        SumUpdate(ws, i, Top, WEIGHT);
        GrowWeighs(ws[i := Top], dead, i + 1, j + 1);
      } else {
        GrowWeighs(ws, dead, i + 1, j);
      }
    }
  }

  lemma AdminStepDecreases(c: Config, s: State, e: Event)
    requires s.shutdown && AdminStep(e) && Enabled(c, s, e)
    ensures ClosingMeasure(c, Next(c, s, e)) < ClosingMeasure(c, s)
  {
    hide Grow, Sum, CloserWeight;
    if e.AdminGrow? { GrowWeighs(s.workers, e.dead, 0, 0); }
    if e.AdminSignal? && s.admin.n > 0 && e.wake.Some? { SumUpdate(s.workers, e.wake.value, Woken, WEIGHT); }
  }

  /** After the flag, every step of a thread of the pool lowers the measure, the admin's included. */
  lemma ClosingDecreases(c: Config, s: State, e: Event)
    requires Counts(c, s) && s.shutdown && OwnStep(e) && Enabled(c, s, e)
    ensures ClosingMeasure(c, Next(c, s, e)) < ClosingMeasure(c, s) && Next(c, s, e).shutdown
  {
    if AdminStep(e) {
      AdminStepDecreases(c, s, e);
      hide ClosingMeasure;
    } else {
      ProgressDecreases(c, s, e);
      hide Measure;
    }
  }

  predicate OwnRun(c: Config, s: State, es: seq<Event>)
    decreases |es|
  {
    es == [] || (OwnStep(es[0]) && Enabled(c, s, es[0]) && OwnRun(c, Next(c, s, es[0]), es[1..]))
  }

  lemma {:induction false} OwnRunsAreFinite(c: Config, s: State, es: seq<Event>)
    requires ValidConfig(c) && Counts(c, s) && s.shutdown && OwnRun(c, s, es)
    ensures |es| <= ClosingMeasure(c, s) && Run(c, s, es).shutdown
    decreases |es|
  {
    if es != [] {
      CountsStep(c, s, es[0]);
      ClosingDecreases(c, s, es[0]);
      hide Next, ClosingMeasure, Counts;
      OwnRunsAreFinite(c, Next(c, s, es[0]), es[1..]);
    }
  }

  ghost predicate CanStep(c: Config, s: State) { exists e :: OwnStep(e) && Enabled(c, s, e) }

  lemma AdminCanStep(c: Config, s: State)
    requires s.admin != NoAdmin && s.admin != Left
    ensures CanStep(c, s)
  {
    var wake: Option<nat> := None;
    if i: nat :| i < |s.workers| && s.workers[i] == Asleep { wake := Some(i); }
    assert SignalChoice(s.workers, wake);
    var e := match s.admin
      case Resting => AdminSample
      case Sampled(_, _) => AdminMeasure
      case Measured(_, _, _) => AdminGrow({})
      case Grown(_, _) => AdminDecide
      case _ => AdminSignal(wake);
    assert OwnStep(e) && Enabled(c, s, e);
  }

  /** Until close has returned, some thread can take a step. */
  lemma ClosingCanStep(c: Config, s: State)
    requires Wakeful(c, s) && s.shutdown && s.closer != Closed
    ensures CanStep(c, s)
  {
    if s.closer.Broadcasting? {
      assert OwnStep(CloseBroadcast) && Enabled(c, s, CloseBroadcast);
    } else if s.admin != NoAdmin && s.admin != Left {
      AdminCanStep(c, s);
    } else {
      JoiningCanProgress(c, s);
      var e :| Progress(e) && Enabled(c, s, e);
      assert OwnStep(e);
    }
  }

  /** Shutdown terminates, static or dynamic. Once close has set the flag, the steps of the pool's own
      threads, the admin's included, come to an end after boundedly many; after the broadcast no worker
      sleeps; some step is enabled until close has returned; and then nobody is left, nothing is
      queued, and what was run is what was accepted. */
  lemma ShutdownTerminates(c: Config, es: seq<Event>, fs: seq<Event>)
    requires ValidConfig(c) && Run(c, Init(c), es).shutdown && OwnRun(c, Run(c, Init(c), es), fs)
    ensures |fs| <= ClosingMeasure(c, Run(c, Init(c), es))
    ensures var s := Run(c, Init(c), es + fs);
            && (BroadcastDone(s) ==> forall i :: 0 <= i < |s.workers| ==> s.workers[i] != Asleep)
            && (s.closer != Closed ==> exists e :: OwnStep(e) && Enabled(c, s, e))
            && (s.closer == Closed ==>
                  && s.q == [] && (s.admin == NoAdmin || s.admin == Left)
                  && (forall w :: 0 <= w < |s.workers| ==> Gone(s.workers[w]))
                  && Gather(s.ran) == multiset(s.accepted))
  {
    InitCounts(c);
    CountsInEveryRun(c, Init(c), es);
    var s := Run(c, Init(c), es);
    OwnRunsAreFinite(c, s, fs);
    RunAppend(c, Init(c), es, fs);
    WakefulInEveryRun(c, Init(c), es + fs);
    DrainedInEveryRun(c, Init(c), es + fs);
    ExactlyOnceInOrder(c, es + fs);
    var t := Run(c, Init(c), es + fs);
    hide Run, OwnRun, ClosingMeasure, Gather, Flatten, BatchesOf;
    if t.closer != Closed { ClosingCanStep(c, t); }
  }
}
