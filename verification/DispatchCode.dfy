/** The event loop's object: the code that handles one result of epoll_wait, against Dispatch. */
module DispatchCode {
  import opened Bytes
  import opened Dispatch

  /** The turns of the accept loop for the connections that were pending, then the failing one. */
  function AcceptEvents(fds: seq<Fd>): seq<Event> {
    if fds == [] then [AcceptDone] else [Accept(fds[0])] + AcceptEvents(fds[1..])
  }

  function EventsOf(r: Ready, fds: seq<Fd>): seq<Event> {
    match r
    case Listener => AcceptEvents(fds)
    case Hangup(_) => [HandleHangup]
    case Input(_) => [HandleInput]
  }

  /** What handling a batch amounts to; accepts[i] are the connections pending when entry i is the listener. */
  function BatchEvents(batch: seq<Ready>, accepts: seq<seq<Fd>>): seq<Event>
    requires |accepts| == |batch|
  {
    if batch == [] then [] else EventsOf(batch[0], accepts[0]) + BatchEvents(batch[1..], accepts[1..])
  }

  lemma {:induction false} RunAppend(s: State, a: seq<Event>, b: seq<Event>)
    ensures Run(s, a + b) == Run(Run(s, a), b)
    decreases |a|
  {
    if a == [] {
      assert a + b == b;
    } else {
      assert (a + b)[1..] == a[1..] + b;
      RunAppend(Next(s, a[0]), a[1..], b);
    }
  }

  lemma RunOne(s: State, e: Event)
    ensures Run(s, [e]) == Next(s, e)
  {
    hide Next;
    assert [e][1..] == [];
  }

  lemma RunCons(s: State, e: Event, es: seq<Event>)
    ensures Run(s, [e] + es) == Run(Next(s, e), es)
  {
    hide Next;
    assert ([e] + es)[1..] == es;
  }

  /** The descriptors with input, in the order of the result. */
  function Inputs(batch: seq<Ready>): seq<Fd> {
    if batch == [] then [] else (if batch[0].Input? then [batch[0].fd] else []) + Inputs(batch[1..])
  }

  lemma {:induction false} InputsAppend(a: seq<Ready>, r: Ready)
    ensures Inputs(a + [r]) == Inputs(a) + (if r.Input? then [r.fd] else [])
    decreases |a|
  {
    if a == [] {
      assert a + [r] == [r];
      assert Inputs([r][1..]) == [];
    } else {
      assert (a + [r])[1..] == a[1..] + [r] && (a + [r])[0] == a[0];
      InputsAppend(a[1..], r);
      var head, last := (if a[0].Input? then [a[0].fd] else []), (if r.Input? then [r.fd] else []);
      assert head + (Inputs(a[1..]) + last) == head + Inputs(a[1..]) + last;
    }
  }

  function SetOf(fds: seq<Fd>): set<Fd> { set fd | fd in fds }

  lemma NoFds()
    ensures SetOf([]) == {}
  {
  }

  lemma SetOfAppend(fds: seq<Fd>, fd: Fd)
    ensures SetOf(fds + [fd]) == SetOf(fds) + {fd}
  {
  }

  function Accepted(r: Ready, fds: seq<Fd>): set<Fd> { if r == Listener then SetOf(fds) else {} }

  /** What one entry does to the descriptors and their objects. */
  ghost predicate DoesOne(r: Ready, fds: seq<Fd>, s: State, s': State) {
    var come := Accepted(r, fds);
    && s'.open == (if r.Hangup? then s.open - {r.fd} else s.open + come)
    && s'.armed == s.armed + (come - s.open)
    && s'.sockets.Keys == (if r.Hangup? then s.sockets.Keys - {r.fd} else s.sockets.Keys + (come - s.open))
    && (forall fd :: fd in s.sockets && fd in s'.sockets ==> s'.sockets[fd] == s.sockets[fd])
  }

  /** And a whole batch: a hang-up closes its descriptor and erases its object, unless a later entry
      accepts it anew; what has no hang-up stays with its object; only what is accepted is new. */
  ghost predicate ClosesHungUp(batch: seq<Ready>, accepts: seq<seq<Fd>>, s': State)
    requires |accepts| == |batch|
  {
    forall i :: && 0 <= i < |batch| && batch[i].Hangup?
                && (forall j :: i < j < |batch| && batch[j] == Listener ==> batch[i].fd !in accepts[j]) ==>
      batch[i].fd !in s'.open && batch[i].fd !in s'.sockets
  }

  ghost predicate KeepsOthers(batch: seq<Ready>, s: State, s': State) {
    forall fd :: (forall i :: 0 <= i < |batch| ==> batch[i] != Hangup(fd)) ==>
      && (fd in s.open ==> fd in s'.open)
      && (fd in s.sockets ==> fd in s'.sockets && s'.sockets[fd] == s.sockets[fd])
  }

  ghost predicate AddsAccepted(batch: seq<Ready>, accepts: seq<seq<Fd>>, s: State, s': State)
    requires |accepts| == |batch|
  {
    && (forall i, fd :: && 0 <= i < |batch| && batch[i] == Listener && fd in accepts[i]
                        && (forall j :: i < j < |batch| ==> batch[j] != Hangup(fd)) ==>
          fd in s'.open)
    && (s.sockets.Keys == s.open ==> s'.sockets.Keys == s'.open)
    && s.armed <= s'.armed && s'.open - s.open <= s'.armed
  }

  ghost predicate AddsNoOther(batch: seq<Ready>, accepts: seq<seq<Fd>>, s: State, s': State)
    requires |accepts| == |batch|
  {
    forall fd :: (forall i :: 0 <= i < |batch| && batch[i] == Listener ==> fd !in accepts[i]) ==>
      && (fd in s'.open ==> fd in s.open) && (fd in s'.armed ==> fd in s.armed)
      && (fd in s'.sockets ==> fd in s.sockets && s'.sockets[fd] == s.sockets[fd])
  }

  lemma NothingYet(s: State)
    ensures ClosesHungUp([], [], s) && KeepsOthers([], s, s) && AddsAccepted([], [], s, s) && AddsNoOther([], [], s, s)
  {
  }

  lemma ClosesOneMore(batch: seq<Ready>, accepts: seq<seq<Fd>>, r: Ready, fds: seq<Fd>, s: State, s': State)
    requires |accepts| == |batch| && ClosesHungUp(batch, accepts, s) && DoesOne(r, fds, s, s')
    ensures ClosesHungUp(batch + [r], accepts + [fds], s')
  {
    var (all, taken) := (batch + [r], accepts + [fds]);
    assert all[|batch|] == r && taken[|batch|] == fds;
    forall i | && 0 <= i < |all| && all[i].Hangup?
               && (forall j :: i < j < |all| && all[j] == Listener ==> all[i].fd !in taken[j])
      ensures all[i].fd !in s'.open && all[i].fd !in s'.sockets
    {
      if i < |batch| {
        assert forall j :: i < j < |batch| ==> all[j] == batch[j] && taken[j] == accepts[j];
        assert batch[i].fd !in s.open && batch[i].fd !in s.sockets;
      }
    }
  }

  lemma KeepsOneMore(batch: seq<Ready>, r: Ready, fds: seq<Fd>, s0: State, s: State, s': State)
    requires KeepsOthers(batch, s0, s) && DoesOne(r, fds, s, s')
    ensures KeepsOthers(batch + [r], s0, s')
  {
    var all := batch + [r];
    assert all[|batch|] == r;
    forall fd | forall i :: 0 <= i < |all| ==> all[i] != Hangup(fd)
      ensures (fd in s0.open ==> fd in s'.open)
              && (fd in s0.sockets ==> fd in s'.sockets && s'.sockets[fd] == s0.sockets[fd])
    {
      assert forall i :: 0 <= i < |batch| ==> all[i] == batch[i];
    }
  }

  lemma AddsOneMore(batch: seq<Ready>, accepts: seq<seq<Fd>>, r: Ready, fds: seq<Fd>, s0: State, s: State, s': State)
    requires |accepts| == |batch| && AddsAccepted(batch, accepts, s0, s) && DoesOne(r, fds, s, s')
    ensures AddsAccepted(batch + [r], accepts + [fds], s0, s')
  {
    var (all, taken) := (batch + [r], accepts + [fds]);
    var n := |batch|;
    assert all[n] == r && taken[n] == fds;
    assert forall i :: 0 <= i < n ==> all[i] == batch[i] && taken[i] == accepts[i];
    forall i, fd | && 0 <= i < |all| && all[i] == Listener && fd in taken[i]
                   && (forall j :: i < j < |all| ==> all[j] != Hangup(fd))
      ensures fd in s'.open
    {
      if i < n {
        assert forall j :: i < j < n ==> batch[j] != Hangup(fd);
        assert fd in s.open;
      }
    }
  }

  lemma AddsNoOtherOneMore(batch: seq<Ready>, accepts: seq<seq<Fd>>, r: Ready, fds: seq<Fd>, s0: State, s: State,
                           s': State)
    requires |accepts| == |batch| && AddsNoOther(batch, accepts, s0, s) && DoesOne(r, fds, s, s')
    ensures AddsNoOther(batch + [r], accepts + [fds], s0, s')
  {
    var (all, taken) := (batch + [r], accepts + [fds]);
    var n := |batch|;
    assert all[n] == r && taken[n] == fds;
    forall fd | forall i :: 0 <= i < |all| && all[i] == Listener ==> fd !in taken[i]
      ensures (fd in s'.open ==> fd in s0.open) && (fd in s'.armed ==> fd in s0.armed)
              && (fd in s'.sockets ==> fd in s0.sockets && s'.sockets[fd] == s0.sockets[fd])
    {
      assert forall i :: 0 <= i < n ==> all[i] == batch[i] && taken[i] == accepts[i];
    }
  }
  class EventLoop {
    var armed: set<Fd>
    var queue: seq<Fd>
    var open: set<Fd>
    var sockets: map<Fd, Object>
    var nextObject: Object

    /** The machine's state, with the events still to be handled and the workers as they are. */
    ghost function Contents(ready: seq<Ready>, workers: seq<Worker>): State
      reads this
    {
      State(armed, ready, queue, workers, open, sockets, nextObject)
    }

    constructor ()
      ensures forall workers: nat :: Contents([], Init(workers).workers) == Init(workers)
    {
      armed := {};
      queue := [];
      open := {};
      sockets := map[];
      nextObject := 0;
    }

    /** Non-blocking mode, the epoll tree, the socket map; insert keeps an entry that is there. */
    method InitConnection(fd: Fd, socket: Object)
      modifies this`armed, this`sockets
      ensures armed == old(armed) + {fd}
      ensures sockets == if fd in old(sockets) then old(sockets) else old(sockets)[fd := socket]
    {
      armed := armed + {fd};
      if fd !in sockets { sockets := sockets[fd := socket]; }
    }

    /** One turn of the accept loop. The kernel gives out no descriptor that is open. */
    method AcceptOne(fd: Fd, ghost rest: seq<Ready>, ghost workers: seq<Worker>)
      modifies this
      ensures Contents([Listener] + rest, workers) == Next(old(Contents([Listener] + rest, workers)), Accept(fd))
      ensures open == old(open) + {fd} && queue == old(queue)
      ensures armed == old(armed) + (if fd in old(open) then {} else {fd})
      ensures sockets.Keys == old(sockets).Keys + (if fd in old(open) then {} else {fd})
      ensures forall f :: f in old(sockets) ==> sockets[f] == old(sockets)[f]
      ensures fd !in old(open) && fd !in old(sockets) ==> sockets[fd] == old(nextObject) < nextObject
    {
      if fd !in open {
        open := open + {fd};
        InitConnection(fd, nextObject);
        nextObject := nextObject + 1;
      }
    }

    /** The accept loop. */
    method AcceptAll(fds: seq<Fd>, ghost rest: seq<Ready>, ghost workers: seq<Worker>)
      modifies this
      ensures Contents(rest, workers) == Run(old(Contents([Listener] + rest, workers)), AcceptEvents(fds))
      ensures open == old(open) + SetOf(fds) && queue == old(queue)
      ensures armed == old(armed) + (SetOf(fds) - old(open))
      ensures sockets.Keys == old(sockets).Keys + (SetOf(fds) - old(open))
      ensures forall fd :: fd in old(sockets) ==> sockets[fd] == old(sockets)[fd]
    {
      hide Run, SetOf;
      NoFds();
      var i := 0;
      ghost var all := Run(Contents([Listener] + rest, workers), AcceptEvents(fds));
      assert fds[0..] == fds && fds[..0] == [];
      while i < |fds|
        invariant i <= |fds|
        invariant Run(Contents([Listener] + rest, workers), AcceptEvents(fds[i..])) == all
        invariant open == old(open) + SetOf(fds[..i]) && queue == old(queue)
        invariant armed == old(armed) + (SetOf(fds[..i]) - old(open))
        invariant sockets.Keys == old(sockets).Keys + (SetOf(fds[..i]) - old(open))
        invariant forall fd :: fd in old(sockets) ==> sockets[fd] == old(sockets)[fd]
      {
        assert fds[..i + 1] == fds[..i] + [fds[i]];
        SetOfAppend(fds[..i], fds[i]);
        ghost var before := Contents([Listener] + rest, workers);
        assert fds[i..][1..] == fds[i + 1..];
        RunCons(before, Accept(fds[i]), AcceptEvents(fds[i + 1..]));
        AcceptOne(fds[i], rest, workers);
        i := i + 1;
      }
      assert fds[..|fds|] == fds;
      assert AcceptEvents(fds[|fds|..]) == [AcceptDone];
      RunOne(Contents([Listener] + rest, workers), AcceptDone);
      assert ([Listener] + rest)[1..] == rest;
    }

    /** One entry of the result. */
    method HandleOne(r: Ready, fds: seq<Fd>, ghost rest: seq<Ready>, ghost workers: seq<Worker>)
      modifies this
      ensures Contents(rest, workers) == Run(old(Contents([r] + rest, workers)), EventsOf(r, fds))
      ensures DoesOne(r, fds, old(Contents([], workers)), Contents([], workers))
      ensures queue == old(queue) + if r.Input? then [r.fd] else []
    {
      ghost var before := Contents([r] + rest, workers);
      assert ([r] + rest)[1..] == rest;
      match r
      case Listener => AcceptAll(fds, rest, workers);
      case Hangup(fd) =>
        RunOne(before, HandleHangup);
        open := open - {fd};
        sockets := sockets - {fd};
      case Input(fd) =>
        RunOne(before, HandleInput);
        queue := queue + [fd];
    }

    /** What the loop does with one result of epoll_wait. */
    method HandleBatch(batch: seq<Ready>, accepts: seq<seq<Fd>>, ghost workers: seq<Worker>)
      requires |accepts| == |batch|
      modifies this
      ensures Contents([], workers) == Run(old(Contents(batch, workers)), BatchEvents(batch, accepts))
      ensures ClosesHungUp(batch, accepts, Contents([], workers))
      ensures KeepsOthers(batch, old(Contents([], workers)), Contents([], workers))
      ensures AddsAccepted(batch, accepts, old(Contents([], workers)), Contents([], workers))
      ensures AddsNoOther(batch, accepts, old(Contents([], workers)), Contents([], workers))
      ensures queue == old(queue) + Inputs(batch)
    {
      hide Run, EventsOf, DoesOne, ClosesHungUp, KeepsOthers, AddsAccepted, AddsNoOther;
      ghost var start := Contents([], workers);
      NothingYet(start);
      ghost var all := Run(Contents(batch, workers), BatchEvents(batch, accepts));
      assert batch[0..] == batch && accepts[0..] == accepts;
      for i := 0 to |batch|
        invariant Run(Contents(batch[i..], workers), BatchEvents(batch[i..], accepts[i..])) == all
        invariant ClosesHungUp(batch[..i], accepts[..i], Contents([], workers))
        invariant KeepsOthers(batch[..i], start, Contents([], workers))
        invariant AddsAccepted(batch[..i], accepts[..i], start, Contents([], workers))
        invariant AddsNoOther(batch[..i], accepts[..i], start, Contents([], workers))
        invariant queue == old(queue) + Inputs(batch[..i])
      {
        assert batch[..i + 1] == batch[..i] + [batch[i]];
        InputsAppend(batch[..i], batch[i]);
        ghost var before := Contents(batch[i..], workers);
        assert batch[i..] == [batch[i]] + batch[i + 1..] && accepts[i..][1..] == accepts[i + 1..];
        RunAppend(before, EventsOf(batch[i], accepts[i]), BatchEvents(batch[i + 1..], accepts[i + 1..]));
        ghost var s := Contents([], workers);
        HandleOne(batch[i], accepts[i], batch[i + 1..], workers);
        ghost var s' := Contents([], workers);
        assert accepts[..i + 1] == accepts[..i] + [accepts[i]];
        ClosesOneMore(batch[..i], accepts[..i], batch[i], accepts[i], s, s');
        KeepsOneMore(batch[..i], batch[i], accepts[i], start, s, s');
        AddsOneMore(batch[..i], accepts[..i], batch[i], accepts[i], start, s, s');
        AddsNoOtherOneMore(batch[..i], accepts[..i], batch[i], accepts[i], start, s, s');
      }
      assert batch[|batch|..] == [] && batch[..|batch|] == batch && accepts[..|batch|] == accepts;
      RunNone(Contents([], workers));
    }

    /** The last action of worker w's task registers its descriptor for one more event: the machine's
        step, but for the worker's own place. */
    method FdMode(fd: Fd, w: nat, ghost ready: seq<Ready>, ghost workers: seq<Worker>)
      requires Enabled(Contents(ready, workers), Rearm(w)) && workers[w].batch[0] == fd
      modifies this`armed
      ensures var s' := Next(old(Contents(ready, workers)), Rearm(w)); Contents(ready, s'.workers) == s'
      ensures armed == if fd in open then old(armed) + {fd} else old(armed)
    {
      if fd in open { armed := armed + {fd}; }
    }
  }

  lemma RunNone(s: State)
    ensures Run(s, []) == s
  {
  }
}
