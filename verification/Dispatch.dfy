/**
 The server's event loop and its workers: one-shot registrations, fetched events, queued tasks and
 running tasks. A run is a list of events; an event that is not enabled changes nothing.
 */
module Dispatch {
  import opened Bytes

  type Fd = int
  type Object = nat   // identity of a socket object

  datatype Ready = Listener | Hangup(fd: Fd) | Input(fd: Fd)

  /** A worker's batch of tasks; `cur` is the socket object that the task at its head has looked up. */
  datatype Worker = Worker(batch: seq<Fd>, cur: Option<Object>)

  datatype State = State(
    armed: set<Fd>,             // registered and able to fire
    ready: seq<Ready>,          // fetched by epoll_wait, not yet handled
    queue: seq<Fd>,             // tasks in the pool's queue
    workers: seq<Worker>,
    open: set<Fd>,
    sockets: map<Fd, Object>,   // m_sockets
    nextObject: Object)

  datatype Event =
    | EpollWait(batch: seq<Ready>)
    | Accept(fd: Fd)      // one turn of the accept loop
    | AcceptDone          // accept would block
    | HandleHangup        // close, delete the object, erase it
    | HandleInput         // add_task
    | TakeBatch(w: nat, n: nat)
    | Start(w: nat)       // workThread looks the socket up
    | Rearm(w: nat)       // fdMode, the task's last action

  /** epoll_wait reports armed descriptors, each once; a one-shot descriptor is then disarmed. */
  predicate Reportable(s: State, batch: seq<Ready>) {
    && (forall i :: 0 <= i < |batch| && batch[i] != Listener ==> batch[i].fd in s.armed)
    && (forall i, j :: 0 <= i < j < |batch| && batch[i] != Listener && batch[j] != Listener ==>
      batch[i].fd != batch[j].fd)
  }

  function FdsOf(batch: seq<Ready>): seq<Fd> {
    if batch == [] then []
    else if batch[0] == Listener then FdsOf(batch[1..])
    else [batch[0].fd] + FdsOf(batch[1..])
  }

  predicate Enabled(s: State, e: Event) {
    match e
    case EpollWait(batch) => s.ready == [] && Reportable(s, batch)
    case Accept(fd) => s.ready != [] && s.ready[0] == Listener && fd !in s.open
    case AcceptDone => s.ready != [] && s.ready[0] == Listener
    case HandleHangup => s.ready != [] && s.ready[0].Hangup?
    case HandleInput => s.ready != [] && s.ready[0].Input?
    case TakeBatch(w, n) => w < |s.workers| && s.workers[w].batch == [] && 0 < n <= |s.queue|
    case Start(w) => w < |s.workers| && s.workers[w].batch != [] && s.workers[w].cur == None
                     && s.workers[w].batch[0] in s.sockets
    case Rearm(w) => w < |s.workers| && s.workers[w].batch != [] && s.workers[w].cur.Some?
  }

  function Next(s: State, e: Event): State {
    if !Enabled(s, e) then s else
    match e
    case EpollWait(batch) =>
      s.(ready := batch, armed := s.armed - (set fd | fd in FdsOf(batch)))
    case Accept(fd) =>
      s.(open := s.open + {fd}, armed := s.armed + {fd},
         // insert keeps an entry that is there already
         sockets := if fd in s.sockets then s.sockets else s.sockets[fd := s.nextObject],
         nextObject := s.nextObject + 1)
    case AcceptDone => s.(ready := s.ready[1..])
    case HandleHangup =>
      var fd := s.ready[0].fd;
      s.(ready := s.ready[1..], open := s.open - {fd}, sockets := s.sockets - {fd})
    case HandleInput => s.(ready := s.ready[1..], queue := s.queue + [s.ready[0].fd])
    case TakeBatch(w, n) => s.(queue := s.queue[n..], workers := s.workers[w := Worker(s.queue[..n], None)])
    case Start(w) =>
      var b := s.workers[w].batch;
      s.(workers := s.workers[w := Worker(b, Some(s.sockets[b[0]]))])
    case Rearm(w) =>
      var b := s.workers[w].batch;
      s.(workers := s.workers[w := Worker(b[1..], None)],
         // re-registering a descriptor that is not open fails
         armed := if b[0] in s.open then s.armed + {b[0]} else s.armed)
  }

  function Run(s: State, es: seq<Event>): State
    decreases |es|
  {
    if es == [] then s else Run(Next(s, es[0]), es[1..])
  }

  function Init(workers: nat): State {
    State({}, [], [], seq(workers, i => Worker([], None)), {}, map[], 0)
  }

  // ---------------------------------------------------------------- tokens

  function Count(q: seq<Fd>, fd: Fd): nat {
    if q == [] then 0 else (if q[0] == fd then 1 else 0) + Count(q[1..], fd)
  }

  function InBatches(ws: seq<Worker>, fd: Fd): nat {
    if ws == [] then 0 else Count(ws[0].batch, fd) + InBatches(ws[1..], fd)
  }

  /** Tasks for the descriptor, queued or taken, not yet past fdMode. */
  function Outstanding(s: State, fd: Fd): nat { Count(s.queue, fd) + InBatches(s.workers, fd) }

  /** The places where the descriptor is: armed, fetched, or in a task. */
  function Tokens(s: State, fd: Fd): nat {
    (if fd in s.armed then 1 else 0) + Count(FdsOf(s.ready), fd) + Outstanding(s, fd)
  }

  /** The object that a worker looked up is the one in the map. */
  predicate Current(s: State, w: Worker) {
    w.cur.Some? ==> w.batch != [] && w.batch[0] in s.sockets && s.sockets[w.batch[0]] == w.cur.value
  }

  predicate Placed(s: State, fd: Fd) { Tokens(s, fd) <= 1 && (Tokens(s, fd) > 0 ==> fd in s.open) }

  ghost predicate Inv(s: State) {
    && (forall fd :: Placed(s, fd))
    && s.sockets.Keys == s.open
    && (forall w :: 0 <= w < |s.workers| ==> Current(s, s.workers[w]))
  }

  lemma {:induction false} CountAppend(p: seq<Fd>, q: seq<Fd>, fd: Fd)
    ensures Count(p + q, fd) == Count(p, fd) + Count(q, fd)
    decreases |p|
  {
    if p == [] {
      assert p + q == q;
    } else {
      assert (p + q)[1..] == p[1..] + q;
      CountAppend(p[1..], q, fd);
    }
  }

  lemma {:induction false} CountIn(q: seq<Fd>, fd: Fd)
    ensures Count(q, fd) > 0 <==> fd in q
    decreases |q|
  {
    if q != [] { CountIn(q[1..], fd); }
  }

  lemma {:induction false} BatchUpdate(ws: seq<Worker>, w: nat, x: Worker, fd: Fd)
    requires w < |ws|
    ensures InBatches(ws[w := x], fd) + Count(ws[w].batch, fd) == InBatches(ws, fd) + Count(x.batch, fd)
    decreases |ws|
  {
    if w > 0 {
      assert ws[w := x][1..] == ws[1..][w - 1 := x];
      BatchUpdate(ws[1..], w - 1, x, fd);
    } else {
      assert ws[0 := x][1..] == ws[1..];
    }
  }

  lemma {:induction false} InOneBatch(ws: seq<Worker>, w: nat, fd: Fd)
    requires w < |ws|
    ensures InBatches(ws, fd) >= Count(ws[w].batch, fd)
    decreases |ws|
  {
    if w > 0 { InOneBatch(ws[1..], w - 1, fd); }
  }

  lemma {:induction false} InTwoBatches(ws: seq<Worker>, v: nat, w: nat, fd: Fd)
    requires v < w < |ws|
    ensures InBatches(ws, fd) >= Count(ws[v].batch, fd) + Count(ws[w].batch, fd)
    decreases |ws|
  {
    if v > 0 { InTwoBatches(ws[1..], v - 1, w - 1, fd); } else { InOneBatch(ws[1..], w - 1, fd); }
  }

  lemma {:induction false} ReportedOnce(s: State, batch: seq<Ready>, fd: Fd)
    requires Reportable(s, batch)
    ensures Count(FdsOf(batch), fd) <= 1 && (Count(FdsOf(batch), fd) == 1 ==> fd in s.armed)
    decreases |batch|
  {
    if batch != [] {
      ReportedOnce(s, batch[1..], fd);
      if batch[0] != Listener && batch[0].fd == fd { ReportedFirst(s, batch, 1); }
      assert batch[0] != Listener ==> FdsOf(batch)[1..] == FdsOf(batch[1..]);
    }
  }

  /** The first descriptor of a report does not come again after it. */
  lemma {:induction false} ReportedFirst(s: State, batch: seq<Ready>, from: nat)
    requires Reportable(s, batch) && 0 < from <= |batch| && batch[0] != Listener
    ensures Count(FdsOf(batch[from..]), batch[0].fd) == 0
    decreases |batch| - from
  {
    if from < |batch| {
      ReportedFirst(s, batch, from + 1);
      assert batch[from..][1..] == batch[from + 1..];
      assert batch[from] != Listener ==> FdsOf(batch[from..])[1..] == FdsOf(batch[from + 1..]);
    }
  }

  lemma HeadOfReady(s: State, fd: Fd)
    requires s.ready != []
    ensures Count(FdsOf(s.ready), fd) ==
            (if s.ready[0] != Listener && s.ready[0].fd == fd then 1 else 0) + Count(FdsOf(s.ready[1..]), fd)
  {
    assert s.ready[0] != Listener ==> FdsOf(s.ready)[1..] == FdsOf(s.ready[1..]);
  }

  lemma TakeTokens(s: State, w: nat, n: nat, fd: Fd)
    requires Enabled(s, TakeBatch(w, n))
    ensures Tokens(Next(s, TakeBatch(w, n)), fd) == Tokens(s, fd)
  {
    BatchUpdate(s.workers, w, Worker(s.queue[..n], None), fd);
    CountAppend(s.queue[..n], s.queue[n..], fd);
    assert s.queue == s.queue[..n] + s.queue[n..];
    assert Count(s.workers[w].batch, fd) == 0;
    hide Count, InBatches, FdsOf;
  }

  lemma RearmTokens(s: State, w: nat, fd: Fd)
    requires Enabled(s, Rearm(w))
    ensures Tokens(Next(s, Rearm(w)), fd) <= Tokens(s, fd)
  {
    var b := s.workers[w].batch;
    BatchUpdate(s.workers, w, Worker(b[1..], None), fd);
    assert Count(b, fd) == (if b[0] == fd then 1 else 0) + Count(b[1..], fd);
    hide Count, InBatches, FdsOf;
  }

  lemma HandleTokens(s: State, e: Event, fd: Fd)
    requires Enabled(s, e) && (e.AcceptDone? || e.HandleHangup? || e.HandleInput?)
    ensures Tokens(Next(s, e), fd) + (if e.HandleHangup? && s.ready[0].fd == fd then 1 else 0) == Tokens(s, fd)
  {
    HeadOfReady(s, fd);
    if e.HandleInput? {
      CountAppend(s.queue, [s.ready[0].fd], fd);
      CountOne(s.ready[0].fd, fd);
    }
    hide Count, InBatches, FdsOf;
  }

  /** What a step does to the tokens of one descriptor. */
  lemma TokensStep(s: State, e: Event, fd: Fd)
    requires Inv(s) && Enabled(s, e)
    ensures var s' := Next(s, e);
            && Tokens(s', fd) <= Tokens(s, fd) + (if e == Accept(fd) then 1 else 0)
            && (e.HandleHangup? && s.ready[0].fd == fd ==> Tokens(s', fd) == 0 && Outstanding(s, fd) == 0)
  {
    assert Placed(s, fd);
    hide Inv, InBatches, Current;
    match e
    case EpollWait(batch) =>
      ReportedOnce(s, batch, fd);
      CountIn(FdsOf(batch), fd);
      assert Count(FdsOf(s.ready), fd) == 0;
    case Accept(_) =>
    case AcceptDone => HandleTokens(s, e, fd);
    case HandleHangup => HeadOfReady(s, fd); HandleTokens(s, e, fd);
    case HandleInput => HandleTokens(s, e, fd);
    case TakeBatch(w, n) => TakeTokens(s, w, n, fd);
    case Start(w) => BatchUpdate(s.workers, w, Next(s, e).workers[w], fd);
    case Rearm(w) => RearmTokens(s, w, fd);
  }

  lemma CountOne(x: Fd, fd: Fd)
    ensures Count([x], fd) == if x == fd then 1 else 0
  {
    assert [x][1..] == [];
  }

  lemma PlacedStep(s: State, e: Event, fd: Fd)
    requires Inv(s) && Enabled(s, e)
    ensures Placed(Next(s, e), fd)
  {
    TokensStep(s, e, fd);
    assert Placed(s, fd);
    hide Tokens, Outstanding, Current;
  }

  /** An object that a task has looked up stays in the map: closing never meets a served descriptor. */
  lemma CurrentStep(s: State, e: Event, w: nat)
    requires Inv(s) && Enabled(s, e) && w < |Next(s, e).workers|
    ensures Current(Next(s, e), Next(s, e).workers[w])
  {
    assert Current(s, s.workers[w]);
    if e.HandleHangup? && s.workers[w].cur.Some? {
      var fd := s.workers[w].batch[0];
      TokensStep(s, e, fd);
      InOneBatch(s.workers, w, fd);
      CountIn(s.workers[w].batch, fd);
    }
    hide Inv, Tokens;
  }

  lemma Step(s: State, e: Event)
    requires Inv(s)
    ensures Inv(Next(s, e))
  {
    if Enabled(s, e) {
      forall fd ensures Placed(Next(s, e), fd) { PlacedStep(s, e, fd); }
      forall w | 0 <= w < |Next(s, e).workers| ensures Current(Next(s, e), Next(s, e).workers[w]) {
        CurrentStep(s, e, w);
      }
      hide Placed, Current;
    }
  }

  lemma {:induction false} InvInEveryRun(s: State, es: seq<Event>)
    requires Inv(s)
    ensures Inv(Run(s, es))
    decreases |es|
  {
    if es != [] {
      Step(s, es[0]);
      hide Inv;
      InvInEveryRun(Next(s, es[0]), es[1..]);
    }
  }

  lemma {:induction false} NoBatches(ws: seq<Worker>, fd: Fd)
    requires forall w :: 0 <= w < |ws| ==> ws[w].batch == []
    ensures InBatches(ws, fd) == 0
    decreases |ws|
  {
    if ws != [] { NoBatches(ws[1..], fd); }
  }

  lemma InitInv(workers: nat)
    ensures Inv(Init(workers))
  {
    forall fd ensures Placed(Init(workers), fd) { NoBatches(Init(workers).workers, fd); }
  }

  /** The worker is in the middle of a task for this descriptor. */
  predicate Serves(w: Worker, fd: Fd) { w.batch != [] && w.batch[0] == fd && w.cur.Some? }

  /** One outstanding task per connection, over every interleaving of the event loop and any number
      of workers: a descriptor is armed, or in exactly one task that is queued or not yet past
      fdMode, or neither; no two workers have it; and the object a task has looked up is still the
      one in the socket map. */
  lemma OneTaskPerConnection(workers: nat, es: seq<Event>, fd: Fd)
    ensures var s := Run(Init(workers), es);
            && Outstanding(s, fd) + (if fd in s.armed then 1 else 0) <= 1
            && (Outstanding(s, fd) > 0 ==> fd in s.open && fd in s.sockets)
            && (forall v, w :: 0 <= v < w < |s.workers| && fd in s.workers[v].batch ==> fd !in s.workers[w].batch)
            && (forall w :: 0 <= w < |s.workers| && Serves(s.workers[w], fd) ==>
                  fd in s.sockets && s.sockets[fd] == s.workers[w].cur.value)
  {
    InitInv(workers);
    InvInEveryRun(Init(workers), es);
    var s := Run(Init(workers), es);
    assert Placed(s, fd);
    forall v, w | 0 <= v < w < |s.workers| && fd in s.workers[v].batch ensures fd !in s.workers[w].batch {
      InTwoBatches(s.workers, v, w, fd);
      CountIn(s.workers[v].batch, fd);
      CountIn(s.workers[w].batch, fd);
    }
    forall w | 0 <= w < |s.workers| && Serves(s.workers[w], fd)
      ensures fd in s.sockets && s.sockets[fd] == s.workers[w].cur.value
    {
      assert Current(s, s.workers[w]);
    }
  }

  /** No two descriptors share a socket object. */
  ghost predicate OwnObjects(s: State) {
    && (forall f :: f in s.sockets ==> s.sockets[f] < s.nextObject)
    && (forall f, g :: f in s.sockets && g in s.sockets && s.sockets[f] == s.sockets[g] ==> f == g)
  }

  lemma {:induction false} OwnObjectsInEveryRun(s: State, es: seq<Event>)
    requires OwnObjects(s)
    ensures OwnObjects(Run(s, es))
    decreases |es|
  {
    if es != [] {
      OwnObjectsInEveryRun(Next(s, es[0]), es[1..]);
    }
  }

  /** Deleting a socket object is safe: when the event loop is about to close a descriptor, no task
      for it is queued, taken or running, and neither a task nor another descriptor has its object, in
      any reachable state. */
  lemma DeletionIsSafe(workers: nat, es: seq<Event>)
    requires var s := Run(Init(workers), es); s.ready != [] && s.ready[0].Hangup?
    ensures var s := Run(Init(workers), es);
            && s.ready[0].fd !in s.queue
            && (forall w :: 0 <= w < |s.workers| ==> s.ready[0].fd !in s.workers[w].batch)
            && s.ready[0].fd in s.sockets
            && (forall w :: 0 <= w < |s.workers| ==> s.workers[w].cur != Some(s.sockets[s.ready[0].fd]))
            && (forall g :: g in s.sockets && g != s.ready[0].fd ==> s.sockets[g] != s.sockets[s.ready[0].fd])
  {
    InitInv(workers);
    InvInEveryRun(Init(workers), es);
    OwnObjectsInEveryRun(Init(workers), es);
    var s := Run(Init(workers), es);
    var fd := s.ready[0].fd;
    assert Placed(s, fd);
    HeadOfReady(s, fd);
    TokensStep(s, HandleHangup, fd);
    CountIn(s.queue, fd);
    forall w | 0 <= w < |s.workers| ensures fd !in s.workers[w].batch {
      InOneBatch(s.workers, w, fd);
      CountIn(s.workers[w].batch, fd);
    }
    forall w | 0 <= w < |s.workers| ensures s.workers[w].cur != Some(s.sockets[fd]) {
      assert fd !in s.workers[w].batch;
      assert Current(s, s.workers[w]);
      if s.workers[w].cur.Some? { assert s.workers[w].batch[0] != fd; }
    }
  }
}
