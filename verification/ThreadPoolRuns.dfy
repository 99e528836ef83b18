/** What every run of the thread pool keeps, static or dynamic, and what its shutdown reaches. */
module ThreadPoolRuns {
  import opened Bytes
  import opened ThreadPool

  // ---------------------------------------------------------------- counts

  predicate Counts(c: Config, s: State) {
    && |s.workers| == |s.ran| == c.maxThr
    && s.live == Sum(s.workers, LIVE)
    && s.busy == Sum(s.workers, BUSY)
    && |s.q| <= c.maxTasks
    && (!s.shutdown ==> c.minThr <= s.live)
    && (s.closer == Open <==> !s.shutdown)
    && (s.closer.Broadcasting? ==> s.closer.i <= c.maxThr)
    && 0 <= s.destroy
    && (!c.dynamic ==> s.admin == NoAdmin && s.destroy == 0)
  }

  /** Waking sleepers, by a signal or a broadcast, changes no count. */
  lemma WakeCounts(ws: seq<Worker>, wake: Option<nat>)
    requires SignalChoice(ws, wake)
    ensures Sum(Wake(ws, wake), LIVE) == Sum(ws, LIVE) && Sum(Wake(ws, wake), BUSY) == Sum(ws, BUSY)
  {
    match wake
    case Some(i) =>
      SumUpdate(ws, i, Woken, LIVE);
      SumUpdate(ws, i, Woken, BUSY);
    case None =>
  }

  lemma {:induction false} WakeAllCounts(ws: seq<Worker>)
    ensures Sum(WakeAll(ws), LIVE) == Sum(ws, LIVE) && Sum(WakeAll(ws), BUSY) == Sum(ws, BUSY)
    decreases |ws|
  {
    if ws != [] {
      WakeAllCounts(ws[1..]);
      assert WakeAll(ws)[1..] == WakeAll(ws[1..]);
    }
  }

  /** The growing loop only turns gone slots into workers at the top, and counts them. */
  lemma {:induction false} GrowIsSound(ws: seq<Worker>, dead: set<nat>, i: nat, j: nat)
    ensures var (ws', n) := Grow(ws, dead, i, j);
            && |ws'| == |ws|
            && n >= j
            && Sum(ws', LIVE) + j == Sum(ws, LIVE) + n
            && Sum(ws', BUSY) == Sum(ws, BUSY)
            && forall k :: 0 <= k < |ws| ==> ws'[k] == ws[k] || (Gone(ws[k]) && ws'[k] == Top)
    decreases |ws| - i
  {
    if i < |ws| && j < THREAD_INCREMENT {
      if Free(ws[i], i in dead) {
        SumUpdate(ws, i, Top, LIVE);
        SumUpdate(ws, i, Top, BUSY);
        GrowIsSound(ws[i := Top], dead, i + 1, j + 1);
      } else {
        GrowIsSound(ws, dead, i + 1, j);
      }
    }
  }

  lemma SectionCounts(c: Config, s: State, w: nat)
    requires ValidConfig(c) && Counts(c, s) && Enabled(c, s, WorkerSection(w))
    ensures Counts(c, Working(c, s, w))
  {
    hide BatchSize, Sum;
    var (out, _, _, _) := Section(c, s.q, s.live, s.destroy, s.shutdown, s.workers[w] == Woken);
    var after := Working(c, s, w).workers[w];
    SumUpdate(s.workers, w, after, LIVE);
    SumUpdate(s.workers, w, after, BUSY);
  }

  lemma UpdateCounts(s: State, w: nat, after: Worker)
    requires w < |s.workers|
    ensures Sum(s.workers[w := after], LIVE) + LIVE(s.workers[w]) == Sum(s.workers, LIVE) + LIVE(after)
    ensures Sum(s.workers[w := after], BUSY) + BUSY(s.workers[w]) == Sum(s.workers, BUSY) + BUSY(after)
  {
    SumUpdate(s.workers, w, after, LIVE);
    SumUpdate(s.workers, w, after, BUSY);
  }

  lemma ProducingCounts(c: Config, s: State, wake: Option<nat>)
    requires Counts(c, s) && Enabled(c, s, ProducerSection(wake))
    ensures Counts(c, Producing(c, s, wake))
  {
    if !s.shutdown && |s.q| < c.maxTasks { WakeCounts(s.workers, wake); }
  }

  lemma AdministeringCounts(c: Config, s: State, e: Event)
    requires Counts(c, s) && Enabled(c, s, e)
    requires e.AdminSample? || e.AdminMeasure? || e.AdminGrow? || e.AdminDecide? || e.AdminSignal?
    ensures Counts(c, Administering(c, s, e))
  {
    match e
    case AdminGrow(dead) => GrowIsSound(s.workers, dead, 0, 0);
    case AdminSignal(wake) => if s.admin.n > 0 { WakeCounts(s.workers, wake); }
    case _ =>
  }

  lemma CountsStep(c: Config, s: State, e: Event)
    requires ValidConfig(c) && Counts(c, s)
    ensures Counts(c, Next(c, s, e))
  {
    hide Working, Producing, Administering, Sum;
    if Enabled(c, s, e) {
      match e
      case AddTask(_) =>
      case ProducerSection(wake) => ProducingCounts(c, s, wake);
      case WorkerSection(w) => SectionCounts(c, s, w);
      case CountBusy(w) => UpdateCounts(s, w, Busy(s.workers[w].batch));
      case RunTask(w) => UpdateCounts(s, w, Busy(s.workers[w].batch[1..]));
      case UncountBusy(w) => UpdateCounts(s, w, Top);
      case SpuriousWorker(w) => UpdateCounts(s, w, Woken);
      case SpuriousProducer =>
      case CloseFlag =>
      case CloseBroadcast => WakeAllCounts(s.workers); LiveBounds(s.workers);
      case CloseJoined =>
      case _ => AdministeringCounts(c, s, e);
    }
  }

  lemma InitCounts(c: Config)
    requires ValidConfig(c)
    ensures Counts(c, Init(c))
  {
    var lo, hi := seq(c.minThr, i => Top), seq(c.maxThr - c.minThr, i => Absent);
    assert Init(c).workers == lo + hi;
    SumOfAppend(lo, hi, LIVE);
    SumOfAppend(lo, hi, BUSY);
    SumOfAbsent(c.maxThr - c.minThr);
    SumOfTop(c.minThr);
    LiveBounds(hi);
  }

  lemma {:induction false} SumOfTop(n: nat)
    ensures Sum(seq(n, i => Top), LIVE) == n && Sum(seq(n, i => Top), BUSY) == 0
  {
    if n > 0 {
      assert seq(n, i => Top)[1..] == seq(n - 1, i => Top);
      SumOfTop(n - 1);
    }
  }

  lemma {:induction false} CountsInEveryRun(c: Config, s: State, es: seq<Event>)
    requires ValidConfig(c) && Counts(c, s)
    ensures Counts(c, Run(c, s, es))
    decreases |es|
  {
    if es != [] {
      CountsStep(c, s, es[0]);
      CountsInEveryRun(c, Next(c, s, es[0]), es[1..]);
    }
  }

  /** Count invariants of every run: the counters are exact, busy <= live <= max, live >= min until
      shutdown, the queue is bounded, and live >= 1 whenever a worker divides by it. */
  lemma CountersAreExact(c: Config, es: seq<Event>)
    requires ValidConfig(c)
    ensures var s := Run(c, Init(c), es);
            && s.live == Sum(s.workers, LIVE)
            && s.busy == Sum(s.workers, BUSY)
            && s.busy <= s.live <= c.maxThr
            && (!s.shutdown ==> c.minThr <= s.live)
            && |s.q| <= c.maxTasks
            && forall w :: 0 <= w < |s.workers| && !Gone(s.workers[w]) ==> s.live >= 1
  {
    InitCounts(c);
    CountsInEveryRun(c, Init(c), es);
    var s := Run(c, Init(c), es);
    LiveBounds(s.workers);
    forall w | 0 <= w < |s.workers| && !Gone(s.workers[w]) ensures s.live >= 1 {
      SumAtLeast(s.workers, w, LIVE);
    }
  }

  // ---------------------------------------------------------------- exactly once, in order

  function Remaining(w: Worker): seq<Task> { if w.Took? || w.Busy? then w.batch else [] }

  function Flatten(taken: seq<(nat, seq<Task>)>): seq<Task> {
    if taken == [] then [] else Flatten(taken[..|taken| - 1]) + taken[|taken| - 1].1
  }

  /** The tasks of the batches that worker w took, in taking order. */
  function BatchesOf(taken: seq<(nat, seq<Task>)>, w: nat): seq<Task> {
    if taken == [] then []
    else BatchesOf(taken[..|taken| - 1], w) + if taken[|taken| - 1].0 == w then taken[|taken| - 1].1 else []
  }

  predicate History(c: Config, s: State) {
    && |s.workers| == |s.ran| == c.maxThr
    && s.accepted == Flatten(s.taken) + s.q
    && (forall k :: 0 <= k < |s.taken| ==> s.taken[k].0 < c.maxThr)
    && (forall w :: 0 <= w < c.maxThr ==> s.ran[w] + Remaining(s.workers[w]) == BatchesOf(s.taken, w))
  }

  lemma TakenOne(taken: seq<(nat, seq<Task>)>, w: nat, b: seq<Task>, v: nat)
    ensures Flatten(taken + [(w, b)]) == Flatten(taken) + b
    ensures BatchesOf(taken + [(w, b)], v) == BatchesOf(taken, v) + if v == w then b else []
  {
    assert (taken + [(w, b)])[..|taken|] == taken;
  }

  /** A step that takes and runs nothing; what it accepts goes to the back of the queue. */
  predicate Quiet(s: State, s': State, added: seq<Task>) {
    && s'.ran == s.ran && s'.taken == s.taken && |s'.workers| == |s.workers|
    && s'.accepted == s.accepted + added && s'.q == s.q + added
    && forall v :: 0 <= v < |s.workers| ==> Remaining(s'.workers[v]) == Remaining(s.workers[v])
  }

  lemma QuietHistory(c: Config, s: State, s': State, added: seq<Task>)
    requires History(c, s) && Quiet(s, s', added)
    ensures History(c, s')
  {
    assert Flatten(s.taken) + s.q + added == Flatten(s.taken) + (s.q + added);
  }

  lemma TakeHistory(c: Config, s: State, s': State, w: nat, batch: seq<Task>)
    requires History(c, s) && w < c.maxThr && Remaining(s.workers[w]) == []
    requires s.q == batch + s'.q && s'.taken == s.taken + [(w, batch)]
    requires s'.workers == s.workers[w := Took(batch)] && s'.ran == s.ran && s'.accepted == s.accepted
    ensures History(c, s')
  {
    hide BatchesOf, Flatten;
    forall v | 0 <= v < c.maxThr
      ensures s'.ran[v] + Remaining(s'.workers[v]) == BatchesOf(s'.taken, v)
    {
      TakenOne(s.taken, w, batch, v);
    }
    TakenOne(s.taken, w, batch, w);
  }

  lemma WorkingHistory(c: Config, s: State, w: nat)
    requires History(c, s) && Enabled(c, s, WorkerSection(w))
    ensures History(c, Working(c, s, w))
  {
    hide BatchSize, History;
    var s' := Working(c, s, w);
    HistoryFacts(c, s);
    var (out, q, _, _) := Section(c, s.q, s.live, s.destroy, s.shutdown, s.workers[w] == Woken);
    if out.Take? {
      TakeHistory(c, s, s', w, out.batch);
    } else {
      QuietHistory(c, s, s', []);
    }
  }

  lemma RunTaskHistory(c: Config, s: State, w: nat)
    requires History(c, s) && Enabled(c, s, RunTask(w))
    ensures History(c, Next(c, s, RunTask(w)))
  {
    var b := s.workers[w].batch;
    assert s.ran[w] + b == s.ran[w] + [b[0]] + b[1..];
  }

  lemma AdministeringIsQuiet(c: Config, s: State, e: Event)
    requires Enabled(c, s, e)
    requires e.AdminSample? || e.AdminMeasure? || e.AdminGrow? || e.AdminDecide? || e.AdminSignal?
    ensures Quiet(s, Administering(c, s, e), [])
  {
    if e.AdminGrow? { GrowIsSound(s.workers, e.dead, 0, 0); }
  }

  lemma HistoryStep(c: Config, s: State, e: Event)
    requires History(c, s)
    ensures History(c, Next(c, s, e))
  {
    hide Working, Administering, History, BatchSize;
    var s' := Next(c, s, e);
    if Enabled(c, s, e) {
      match e
      case WorkerSection(w) => WorkingHistory(c, s, w);
      case RunTask(w) => RunTaskHistory(c, s, w);
      case ProducerSection(_) =>
        QuietHistory(c, s, s', if s.shutdown || |s.q| == c.maxTasks then [] else [s.producer.t]);
      case AdminSample => AdministeringIsQuiet(c, s, e); QuietHistory(c, s, s', []);
      case AdminMeasure => AdministeringIsQuiet(c, s, e); QuietHistory(c, s, s', []);
      case AdminGrow(_) => AdministeringIsQuiet(c, s, e); QuietHistory(c, s, s', []);
      case AdminDecide => AdministeringIsQuiet(c, s, e); QuietHistory(c, s, s', []);
      case AdminSignal(_) => AdministeringIsQuiet(c, s, e); QuietHistory(c, s, s', []);
      case _ => QuietHistory(c, s, s', []);
    }
  }

  lemma HistoryFacts(c: Config, s: State)
    requires History(c, s)
    ensures |s.workers| == |s.ran| == c.maxThr && s.accepted == Flatten(s.taken) + s.q
  {
  }

  lemma {:induction false} HistoryInEveryRun(c: Config, s: State, es: seq<Event>)
    requires History(c, s)
    ensures History(c, Run(c, s, es))
    decreases |es|
  {
    if es != [] {
      HistoryStep(c, s, es[0]);
      HistoryInEveryRun(c, Next(c, s, es[0]), es[1..]);
    }
  }

  function Gather(parts: seq<seq<Task>>): multiset<Task> {
    if parts == [] then multiset{} else multiset(parts[0]) + Gather(parts[1..])
  }

  lemma {:induction false} GatherUpdate(parts: seq<seq<Task>>, w: nat, b: seq<Task>)
    requires w < |parts|
    ensures Gather(parts[w := parts[w] + b]) == Gather(parts) + multiset(b)
    decreases |parts|
  {
    var after := parts[w := parts[w] + b];
    if w == 0 {
      assert after[1..] == parts[1..];
    } else {
      assert after[1..] == parts[1..][w - 1 := parts[1..][w - 1] + b];
      GatherUpdate(parts[1..], w - 1, b);
    }
  }

  function AllBatches(taken: seq<(nat, seq<Task>)>, n: nat): seq<seq<Task>> {
    seq(n, w requires 0 <= w < n => BatchesOf(taken, w))
  }

  /** Dealing the batches out to their workers loses and duplicates nothing. */
  lemma {:induction false} BatchesAreTheQueue(taken: seq<(nat, seq<Task>)>, n: nat)
    requires forall k :: 0 <= k < |taken| ==> taken[k].0 < n
    ensures Gather(AllBatches(taken, n)) == multiset(Flatten(taken))
    decreases |taken|
  {
    if taken == [] {
      GatherEmpty(AllBatches(taken, n));
    } else {
      var most := taken[..|taken| - 1];
      var (w, b) := taken[|taken| - 1];
      BatchesAreTheQueue(most, n);
      hide Gather, Flatten;
      GatherUpdate(AllBatches(most, n), w, b);
      forall v | 0 <= v < n ensures BatchesOf(taken, v) == BatchesOf(most, v) + if v == w then b else [] {
        assert taken == most + [(w, b)];
        TakenOne(most, w, b, v);
      }
      var before, after := AllBatches(most, n), AllBatches(taken, n);
      forall v | 0 <= v < n ensures after[v] == before[w := before[w] + b][v] {
        if v != w { assert before[v] + [] == before[v]; }
      }
      assert after == before[w := before[w] + b];
    }
  }

  lemma {:induction false} GatherEmpty(parts: seq<seq<Task>>)
    requires forall i :: 0 <= i < |parts| ==> parts[i] == []
    ensures Gather(parts) == multiset{}
    decreases |parts|
  {
    if parts != [] { GatherEmpty(parts[1..]); }
  }

  /** Exactly once and in order, in every run, static or dynamic: the accepted tasks are the
      batches in taking order followed by the queue, each worker has run a prefix of its own
      batches, and once close has joined the workers what they ran is what was accepted. */
  lemma ExactlyOnceInOrder(c: Config, es: seq<Event>)
    requires ValidConfig(c)
    ensures var s := Run(c, Init(c), es);
            && |s.workers| == |s.ran| == c.maxThr
            && s.accepted == Flatten(s.taken) + s.q
            && (forall w :: 0 <= w < c.maxThr ==> s.ran[w] + Remaining(s.workers[w]) == BatchesOf(s.taken, w))
            && (s.closer == Closed ==> s.q == [] && Gather(s.ran) == multiset(s.accepted))
  {
    var s := Run(c, Init(c), es);
    InitCounts(c);
    HistoryInEveryRun(c, Init(c), es);
    DrainedInEveryRun(c, Init(c), es);
    if s.closer == Closed {
      BatchesAreTheQueue(s.taken, c.maxThr);
      forall w | 0 <= w < c.maxThr ensures s.ran[w] == BatchesOf(s.taken, w) {
        assert Gone(s.workers[w]);
      }
      assert s.ran == AllBatches(s.taken, c.maxThr);
    }
  }

  /** Nobody is left, and nothing is queued, once close has returned. Before that, after the
      shutdown flag, a worker leaves a non-empty queue behind only while another stays. */
  predicate Drained(c: Config, s: State) {
    && Counts(c, s)
    && (s.shutdown && s.q != [] ==> s.live >= 1)
    && (s.closer == Closed ==>
          && s.shutdown && s.q == [] && (s.admin == NoAdmin || s.admin == Left)
          && forall w :: 0 <= w < |s.workers| ==> Gone(s.workers[w]))
  }

  lemma DrainedStep(c: Config, s: State, e: Event)
    requires ValidConfig(c) && Drained(c, s)
    ensures Drained(c, Next(c, s, e))
  {
    hide BatchSize;
    CountsStep(c, s, e);
    if Enabled(c, s, e) {
      match e
      case WorkerSection(w) => assert s.closer != Closed; SumAtLeast(Working(c, s, w).workers, w, LIVE);
      case CloseJoined => if s.live > 0 { var i := SomeoneLives(s.workers); }
      case AdminGrow(dead) => GrowIsSound(s.workers, dead, 0, 0);
      case _ =>
    }
  }

  lemma {:induction false} SomeoneLives(ws: seq<Worker>) returns (i: nat)
    requires Sum(ws, LIVE) > 0
    ensures i < |ws| && !Gone(ws[i])
    decreases |ws|
  {
    if !Gone(ws[0]) {
      i := 0;
    } else {
      i := SomeoneLives(ws[1..]);
      i := i + 1;
    }
  }

  lemma {:induction false} DrainedInEveryRun(c: Config, s: State, es: seq<Event>)
    requires ValidConfig(c) && Drained(c, s)
    ensures Drained(c, Run(c, s, es))
    decreases |es|
  {
    if es != [] {
      DrainedStep(c, s, es[0]);
      DrainedInEveryRun(c, Next(c, s, es[0]), es[1..]);
    }
  }
}
