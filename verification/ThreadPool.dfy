/**
 The thread pool as a state machine. Each critical section is one atomic step; between two
 steps any other thread may run. A run is a list of events folded over `Next`: an event that
 is not enabled changes nothing, so "in every run" is "for every list of events".
 */
module ThreadPool {
  import opened Bytes

  const THREAD_INCREMENT: nat := 10

  datatype Task = Task(arg: nat, fd: int)

  datatype Config = Config(minThr: nat, maxThr: nat, maxTasks: nat, dynamic: bool)

  predicate ValidConfig(c: Config) { 1 <= c.minThr <= c.maxThr && 1000 <= c.maxTasks }

  /** The constructor's parameter check. */
  function MakeConfig(minThr: int, maxThr: int, maxTasks: int, dynamic: bool): (c: Config)
    ensures ValidConfig(c)
    ensures 1 <= minThr <= maxThr && 1000 <= maxTasks ==> c == Config(minThr, maxThr, maxTasks, dynamic)
  {
    var lo := if minThr <= 0 then 3 else minThr;
    var hi := if maxThr < lo then lo + 50 else maxThr;
    Config(lo, hi, if maxTasks < 1000 then 1000 else maxTasks, dynamic)
  }

  /** A slot of the `threads` vector. */
  datatype Worker =
    | Absent              // no thread was ever created here
    | Top                 // at the top of its loop, about to lock
    | Asleep              // waiting on is_take
    | Woken               // woken from is_take, the lock not yet regained
    | Took(batch: seq<Task>)   // has a batch, not yet counted as busy
    | Busy(batch: seq<Task>)   // counted as busy, what is left of its batch
    | Exited

  datatype Producer = Idle | Calling(t: Task) | Waiting(t: Task) | Signalled(t: Task)

  datatype Closer = Open | Broadcasting(i: nat) | Joining | Closed

  datatype Admin = NoAdmin | Resting | Sampled(live: int, tasks: nat) | Measured(live: int, tasks: nat, busy: int)
    | Grown(live: int, busy: int) | Signalling(n: nat) | Left

  datatype State = State(
    q: seq<Task>, live: int, busy: int, destroy: int, shutdown: bool,
    workers: seq<Worker>, producer: Producer, closer: Closer, admin: Admin,
    accepted: seq<Task>,               // tasks pushed, in order
    taken: seq<(nat, seq<Task>)>,      // batches taken, in order, with the worker that took each
    ran: seq<seq<Task>>)               // tasks executed by each worker, in order

  // ---------------------------------------------------------------- critical sections

  datatype Outcome = Sleep | Exit | Take(batch: seq<Task>)

  function BatchSize(c: Config, live: int, queued: nat): (n: nat)
    requires live > 0
    ensures n <= queued && (queued > 0 ==> n > 0)
  {
    var most := if c.maxTasks / live > 1 then c.maxTasks / live else 1;
    if queued < most + 1 then queued else most + 1
  }

  /** The worker's critical section: what it does, and the new queue, live and destroy counts. */
  function Section(c: Config, q: seq<Task>, live: int, destroy: int, shutdown: bool, woken: bool)
    : (Outcome, seq<Task>, int, int)
    requires live > 0
  {
    var destroy' := if woken && destroy > 0 then destroy - 1 else destroy;
    if woken && destroy > 0 && live > c.minThr then (Exit, q, live - 1, destroy')
    else if q == [] && !shutdown then (Sleep, q, live, destroy')
    else if q == [] then (Exit, q, live - 1, destroy')
    else var n := BatchSize(c, live, |q|); (Take(q[..n]), q[n..], live, destroy')
  }

  /** The slots where the admin may start a thread: unused, or seen dead. */
  predicate Free(w: Worker, seenDead: bool) { w == Absent || (w == Exited && seenDead) }

  /** The admin's growing loop from slot i on, j threads started so far. */
  function Grow(ws: seq<Worker>, dead: set<nat>, i: nat, j: nat): (seq<Worker>, nat)
    decreases |ws| - i
  {
    if i >= |ws| || j >= THREAD_INCREMENT then (ws, j)
    else if Free(ws[i], i in dead) then Grow(ws[i := Top], dead, i + 1, j + 1)
    else Grow(ws, dead, i + 1, j)
  }

  // ---------------------------------------------------------------- events

  datatype Event =
    | AddTask(t: Task)                     // the producer calls add_task
    | ProducerSection(wake: Option<nat>)   // its critical section; which sleeper its signal wakes
    | WorkerSection(w: nat)
    | CountBusy(w: nat)
    | RunTask(w: nat)
    | UncountBusy(w: nat)
    | SpuriousWorker(w: nat)
    | SpuriousProducer
    | CloseFlag
    | CloseBroadcast
    | CloseJoined
    | AdminSample
    | AdminMeasure
    | AdminGrow(dead: set<nat>)
    | AdminDecide
    | AdminSignal(wake: Option<nat>)

  /** A signal wakes one sleeper if there is any. */
  predicate SignalChoice(ws: seq<Worker>, wake: Option<nat>) {
    match wake
    case Some(i) => i < |ws| && ws[i] == Asleep
    case None => forall i :: 0 <= i < |ws| ==> ws[i] != Asleep
  }

  function Wake(ws: seq<Worker>, wake: Option<nat>): seq<Worker>
    requires SignalChoice(ws, wake)
  {
    match wake case Some(i) => ws[i := Woken] case None => ws
  }

  function WakeAll(ws: seq<Worker>): seq<Worker> {
    seq(|ws|, i requires 0 <= i < |ws| => if ws[i] == Asleep then Woken else ws[i])
  }

  predicate Gone(w: Worker) { w == Absent || w == Exited }

  /** The thread may take this step now. */
  predicate Enabled(c: Config, s: State, e: Event) {
    match e
    case AddTask(_) => s.producer == Idle
    case ProducerSection(wake) =>
      && (s.producer.Calling? || s.producer.Signalled?)
      && (s.shutdown || |s.q| == c.maxTasks || SignalChoice(s.workers, wake))
    case WorkerSection(w) => w < |s.workers| && (s.workers[w] == Top || s.workers[w] == Woken) && s.live > 0
    case CountBusy(w) => w < |s.workers| && s.workers[w].Took?
    case RunTask(w) => w < |s.workers| && s.workers[w].Busy? && s.workers[w].batch != [] && w < |s.ran|
    case UncountBusy(w) => w < |s.workers| && s.workers[w] == Busy([])
    case SpuriousWorker(w) => w < |s.workers| && s.workers[w] == Asleep
    case SpuriousProducer => s.producer.Waiting?
    case CloseFlag => s.closer == Open
    case CloseBroadcast => s.closer.Broadcasting?
    case CloseJoined => s.closer == Joining && (s.admin == NoAdmin || s.admin == Left)
                        && forall i :: 0 <= i < |s.workers| ==> Gone(s.workers[i])
    case AdminSample => s.admin == Resting
    case AdminMeasure => s.admin.Sampled?
    case AdminGrow(_) => s.admin.Measured?
    case AdminDecide => s.admin.Grown?
    case AdminSignal(wake) => s.admin.Signalling? && (s.admin.n == 0 || SignalChoice(s.workers, wake))
  }

  function Producing(c: Config, s: State, wake: Option<nat>): State
    requires Enabled(c, s, ProducerSection(wake))
  {
    var t := s.producer.t;
    if |s.q| == c.maxTasks && !s.shutdown then s.(producer := Waiting(t))
    else if s.shutdown then s.(producer := Idle)
    else s.(q := s.q + [t], accepted := s.accepted + [t], producer := Idle, workers := Wake(s.workers, wake))
  }

  function Working(c: Config, s: State, w: nat): State
    requires Enabled(c, s, WorkerSection(w))
  {
    var (out, q, live, destroy) := Section(c, s.q, s.live, s.destroy, s.shutdown, s.workers[w] == Woken);
    match out
    case Sleep => s.(destroy := destroy, workers := s.workers[w := Asleep])
    case Exit => s.(live := live, destroy := destroy, workers := s.workers[w := Exited])
    case Take(batch) =>
      // the signal on is_push wakes the one producer if it waits
      s.(q := q, destroy := destroy, workers := s.workers[w := Took(batch)], taken := s.taken + [(w, batch)],
         producer := if s.producer.Waiting? then Signalled(s.producer.t) else s.producer)
  }

  function Administering(c: Config, s: State, e: Event): State
    requires Enabled(c, s, e)
    requires e.AdminSample? || e.AdminMeasure? || e.AdminGrow? || e.AdminDecide? || e.AdminSignal?
  {
    match e
    case AdminSample => s.(admin := if s.shutdown then Left else Sampled(s.live, |s.q|))
    case AdminMeasure => s.(admin := Measured(s.admin.live, s.admin.tasks, s.busy))
    case AdminGrow(dead) =>
      var next := Grown(s.admin.live, s.admin.busy);
      if s.admin.tasks > s.admin.live && s.admin.live < c.maxTasks then
        var (ws, n) := Grow(s.workers, dead, 0, 0);
        s.(admin := next, workers := ws, live := s.live + n)
      else s.(admin := next)
    case AdminDecide =>
      if s.admin.busy * 2 < s.admin.live && s.admin.live > c.minThr
      then s.(admin := Signalling(THREAD_INCREMENT), destroy := THREAD_INCREMENT)
      else s.(admin := Resting)
    case AdminSignal(wake) =>
      if s.admin.n == 0 then s.(admin := Resting)
      else s.(admin := Signalling(s.admin.n - 1), workers := Wake(s.workers, wake))
  }

  function Next(c: Config, s: State, e: Event): State {
    if !Enabled(c, s, e) then s else
    match e
    case AddTask(t) => s.(producer := Calling(t))
    case ProducerSection(wake) => Producing(c, s, wake)
    case WorkerSection(w) => Working(c, s, w)
    case CountBusy(w) => s.(busy := s.busy + 1, workers := s.workers[w := Busy(s.workers[w].batch)])
    case RunTask(w) =>
      var b := s.workers[w].batch;
      s.(workers := s.workers[w := Busy(b[1..])], ran := s.ran[w := s.ran[w] + [b[0]]])
    case UncountBusy(w) => s.(busy := s.busy - 1, workers := s.workers[w := Top])
    case SpuriousWorker(w) => s.(workers := s.workers[w := Woken])
    case SpuriousProducer => s.(producer := Signalled(s.producer.t))
    case CloseFlag => s.(shutdown := true, closer := Broadcasting(0))
    case CloseBroadcast =>
      if s.closer.i < s.live
      then s.(closer := Broadcasting(s.closer.i + 1), workers := WakeAll(s.workers))
      else s.(closer := Joining)
    case CloseJoined => s.(closer := Closed)
    case _ => Administering(c, s, e)
  }

  function Init(c: Config): State {
    State([], c.minThr, 0, 0, false,
          seq(c.maxThr, i => if i < c.minThr then Top else Absent), Idle, Open,
          if c.dynamic then Resting else NoAdmin,
          [], [], seq(c.maxThr, i => []))
  }

  function Run(c: Config, s: State, es: seq<Event>): State
    decreases |es|
  {
    if es == [] then s else Run(c, Next(c, s, es[0]), es[1..])
  }

  // ---------------------------------------------------------------- counting

  function Sum(ws: seq<Worker>, f: Worker -> nat): nat {
    if ws == [] then 0 else f(ws[0]) + Sum(ws[1..], f)
  }

  lemma {:induction false} SumUpdate(ws: seq<Worker>, i: nat, w: Worker, f: Worker -> nat)
    requires i < |ws|
    ensures Sum(ws[i := w], f) + f(ws[i]) == Sum(ws, f) + f(w)
    decreases |ws|
  {
    if i > 0 {
      assert ws[i := w][1..] == ws[1..][i - 1 := w];
      SumUpdate(ws[1..], i - 1, w, f);
    } else {
      assert ws[0 := w][1..] == ws[1..];
    }
  }

  lemma {:induction false} SumAtLeast(ws: seq<Worker>, i: nat, f: Worker -> nat)
    requires i < |ws|
    ensures Sum(ws, f) >= f(ws[i])
    decreases |ws|
  {
    if i > 0 { SumAtLeast(ws[1..], i - 1, f); }
  }

  /** If no worker weighs more under f than under g, neither do all of them together. */
  lemma {:induction false} SumMonotone(ws: seq<Worker>, f: Worker -> nat, vs: seq<Worker>, g: Worker -> nat, slack: nat)
    requires |ws| == |vs| && forall i :: 0 <= i < |ws| ==> f(ws[i]) <= g(vs[i]) + slack
    ensures Sum(ws, f) <= Sum(vs, g) + slack * |ws|
    decreases |ws|
  {
    if ws != [] {
      SumMonotone(ws[1..], f, vs[1..], g, slack);
      assert slack * |ws| == slack + slack * |ws[1..]|;
    }
  }

  const LIVE: Worker -> nat := (w: Worker) => if Gone(w) then 0 else 1
  const BUSY: Worker -> nat := (w: Worker) => if w.Busy? then 1 else 0

  lemma LiveBounds(ws: seq<Worker>)
    ensures Sum(ws, BUSY) <= Sum(ws, LIVE) <= |ws|
  {
    SumMonotone(ws, BUSY, ws, LIVE, 0);
    SumMonotone(ws, LIVE, seq(|ws|, i => Absent), LIVE, 1);
    SumOfAbsent(|ws|);
  }

  lemma {:induction false} SumOfAbsent(n: nat)
    ensures Sum(seq(n, i => Absent), LIVE) == 0
  {
    if n > 0 {
      assert seq(n, i => Absent)[1..] == seq(n - 1, i => Absent);
      SumOfAbsent(n - 1);
    }
  }

  lemma {:induction false} SumOfAppend(vs: seq<Worker>, ws: seq<Worker>, f: Worker -> nat)
    ensures Sum(vs + ws, f) == Sum(vs, f) + Sum(ws, f)
    decreases |vs|
  {
    if vs == [] {
      assert vs + ws == ws;
    } else {
      assert (vs + ws)[1..] == vs[1..] + ws;
      SumOfAppend(vs[1..], ws, f);
    }
  }
}
