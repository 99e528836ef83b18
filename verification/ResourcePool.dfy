/**
 The monitor behind HmacPool and connection_pool: a list of free items, two counters, a lock and
 one condition variable. Threads ask, sleep while the list is empty, hold items and give them back.
 A run is a list of events; an event that is not enabled changes nothing.
 */
module ResourcePool {
  import opened Bytes

  type Item = nat

  datatype Phase = Idle | Asking | Sleeping | Woken

  datatype Thread = Thread(phase: Phase, held: seq<Item>)

  datatype State = State(free: seq<Item>, freeCount: int, curCount: int, threads: seq<Thread>)

  datatype Event =
    | Ask(t: nat)                                 // calls Get
    | GetSection(t: nat)                          // holds the lock, first time or after waking
    | Release(t: nat, k: nat, wake: Option<nat>)  // gives back its k-th item; which sleeper is signalled
    | Spurious(t: nat)

  predicate SignalChoice(ts: seq<Thread>, wake: Option<nat>) {
    match wake
    case Some(i) => i < |ts| && ts[i].phase == Sleeping
    case None => forall i :: 0 <= i < |ts| ==> ts[i].phase != Sleeping
  }

  predicate Enabled(s: State, e: Event) {
    match e
    case Ask(t) => t < |s.threads| && s.threads[t].phase == Idle
    case GetSection(t) => t < |s.threads| && (s.threads[t].phase == Asking || s.threads[t].phase == Woken)
    case Release(t, k, wake) =>
      t < |s.threads| && s.threads[t].phase == Idle && k < |s.threads[t].held| && SignalChoice(s.threads, wake)
    case Spurious(t) => t < |s.threads| && s.threads[t].phase == Sleeping
  }

  function SetPhase(ts: seq<Thread>, t: nat, p: Phase): seq<Thread>
    requires t < |ts|
  {
    ts[t := ts[t].(phase := p)]
  }

  function Next(s: State, e: Event): State {
    if !Enabled(s, e) then s else
    match e
    case Ask(t) => s.(threads := SetPhase(s.threads, t, Asking))
    case GetSection(t) =>
      if s.free == [] then s.(threads := SetPhase(s.threads, t, Sleeping))
      else State(s.free[1..], s.freeCount - 1, s.curCount + 1,
                 s.threads[t := Thread(Idle, s.threads[t].held + [s.free[0]])])
    case Release(t, k, wake) =>
      var held := s.threads[t].held;
      var ts := s.threads[t := Thread(Idle, held[..k] + held[k + 1..])];
      State(s.free + [held[k]], s.freeCount + 1, s.curCount - 1,
            if wake.Some? then SetPhase(ts, wake.value, Woken) else ts)
    case Spurious(t) => s.(threads := SetPhase(s.threads, t, Woken))
  }

  function Run(s: State, es: seq<Event>): State
    decreases |es|
  {
    if es == [] then s else Run(Next(s, es[0]), es[1..])
  }

  function Init(items: seq<Item>, n: nat): State {
    State(items, |items|, 0, seq(n, i => Thread(Idle, [])))
  }

  // ---------------------------------------------------------------- the invariant

  function HeldBy(ts: seq<Thread>): multiset<Item> {
    if ts == [] then multiset{} else multiset(ts[0].held) + HeldBy(ts[1..])
  }

  function WokenCount(ts: seq<Thread>): nat {
    if ts == [] then 0 else (if ts[0].phase == Woken then 1 else 0) + WokenCount(ts[1..])
  }

  lemma Regroup(a: multiset<Item>, b: multiset<Item>, c: multiset<Item>, d: multiset<Item>, e: multiset<Item>)
    requires b + c == d + e
    ensures a + b + c == a + d + e
  {
    assert a + b + c == a + (b + c);
  }

  /** Moving the multiset `moved` from one side to the other, the rest cancelled out. */
  lemma Cancel(h: multiset<Item>, h': multiset<Item>, rest: multiset<Item>, moved: multiset<Item>)
    requires h' + rest == h + (rest + moved)
    ensures h' == h + moved && |h'| == |h| + |moved|
  {
    assert h' == h' + rest - rest;
  }

  lemma {:induction false} ThreadUpdate(ts: seq<Thread>, t: nat, x: Thread)
    requires t < |ts|
    ensures HeldBy(ts[t := x]) + multiset(ts[t].held) == HeldBy(ts) + multiset(x.held)
    ensures WokenCount(ts[t := x]) + (if ts[t].phase == Woken then 1 else 0) ==
            WokenCount(ts) + (if x.phase == Woken then 1 else 0)
    decreases |ts|
  {
    if t > 0 {
      assert ts[t := x][1..] == ts[1..][t - 1 := x];
      ThreadUpdate(ts[1..], t - 1, x);
      Regroup(multiset(ts[0].held), HeldBy(ts[1..][t - 1 := x]), multiset(ts[t].held), HeldBy(ts[1..]),
          multiset(x.held));
    } else {
      assert ts[0 := x][1..] == ts[1..];
    }
  }

  /** Free and held items are the initial ones, each once; the counters are exact; and while a
      thread sleeps there are no more free items than woken threads that will look again. */
  predicate Inv(items: seq<Item>, s: State) {
    && multiset(s.free) + HeldBy(s.threads) == multiset(items)
    && s.freeCount == |s.free|
    && s.curCount == |HeldBy(s.threads)|
    && (forall t :: 0 <= t < |s.threads| && s.threads[t].phase == Sleeping ==> |s.free| <= WokenCount(s.threads))
  }

  lemma PhaseKeepsItems(ts: seq<Thread>, t: nat, p: Phase)
    requires t < |ts|
    ensures HeldBy(SetPhase(ts, t, p)) == HeldBy(ts)
    ensures WokenCount(SetPhase(ts, t, p)) + (if ts[t].phase == Woken then 1 else 0) ==
            WokenCount(ts) + (if p == Woken then 1 else 0)
  {
    ThreadUpdate(ts, t, ts[t].(phase := p));
    assert HeldBy(SetPhase(ts, t, p)) == HeldBy(SetPhase(ts, t, p)) + multiset(ts[t].held) - multiset(ts[t].held);
  }

  lemma GetKeeps(items: seq<Item>, s: State, t: nat)
    requires Inv(items, s) && Enabled(s, GetSection(t)) && s.free != []
    ensures Inv(items, Next(s, GetSection(t)))
  {
    hide HeldBy, WokenCount;
    var mine := s.threads[t].held;
    var x := Thread(Idle, mine + [s.free[0]]);
    ThreadUpdate(s.threads, t, x);
    assert s.free == [s.free[0]] + s.free[1..];
    Cancel(HeldBy(s.threads), HeldBy(s.threads[t := x]), multiset(mine), multiset{s.free[0]});
    assert multiset(s.free[1..]) + (HeldBy(s.threads) + multiset{s.free[0]}) == multiset(items);
  }

  /** The thread t without its k-th item. */
  lemma ReleaseHeld(ts: seq<Thread>, t: nat, k: nat)
    requires t < |ts| && k < |ts[t].held| && ts[t].phase == Idle
    ensures var held := ts[t].held;
            var ts' := ts[t := Thread(Idle, held[..k] + held[k + 1..])];
            && HeldBy(ts) == HeldBy(ts') + multiset{held[k]}
            && |HeldBy(ts)| == |HeldBy(ts')| + 1
            && WokenCount(ts') == WokenCount(ts)
  {
    hide HeldBy, WokenCount;
    var held := ts[t].held;
    var x := Thread(Idle, held[..k] + held[k + 1..]);
    ThreadUpdate(ts, t, x);
    assert held == held[..k] + [held[k]] + held[k + 1..];
    assert multiset(held) == multiset(x.held) + multiset{held[k]};
    Cancel(HeldBy(ts[t := x]), HeldBy(ts), multiset(x.held), multiset{held[k]});
  }

  lemma ReleaseKeeps(items: seq<Item>, s: State, t: nat, k: nat, wake: Option<nat>)
    requires Inv(items, s) && Enabled(s, Release(t, k, wake))
    ensures Inv(items, Next(s, Release(t, k, wake)))
  {
    hide HeldBy, WokenCount;
    ReleaseHeld(s.threads, t, k);
    var held := s.threads[t].held;
    var ts := s.threads[t := Thread(Idle, held[..k] + held[k + 1..])];
    assert multiset(s.free + [held[k]]) + HeldBy(ts) == multiset(s.free) + (HeldBy(ts) + multiset{held[k]});
    if wake.Some? { PhaseKeepsItems(ts, wake.value, Woken); }
  }

  lemma Step(items: seq<Item>, s: State, e: Event)
    requires Inv(items, s)
    ensures Inv(items, Next(s, e))
  {
    hide HeldBy, WokenCount;
    if Enabled(s, e) {
      match e
      case Ask(t) => PhaseKeepsItems(s.threads, t, Asking);
      case GetSection(t) => if s.free == [] { PhaseKeepsItems(s.threads, t, Sleeping); } else { GetKeeps(items, s, t); }
      case Release(t, k, wake) => ReleaseKeeps(items, s, t, k, wake);
      case Spurious(t) => PhaseKeepsItems(s.threads, t, Woken);
    }
  }

  lemma {:induction false} InvInEveryRun(items: seq<Item>, s: State, es: seq<Event>)
    requires Inv(items, s)
    ensures Inv(items, Run(s, es))
    decreases |es|
  {
    if es != [] {
      Step(items, s, es[0]);
      InvInEveryRun(items, Next(s, es[0]), es[1..]);
    }
  }

  lemma {:induction false} NothingHeld(ts: seq<Thread>)
    requires forall t :: 0 <= t < |ts| ==> ts[t].held == []
    ensures HeldBy(ts) == multiset{}
    decreases |ts|
  {
    if ts != [] { NothingHeld(ts[1..]); }
  }

  lemma {:induction false} SomeoneWoken(ts: seq<Thread>) returns (t: nat)
    requires WokenCount(ts) > 0
    ensures t < |ts| && ts[t].phase == Woken
    decreases |ts|
  {
    if ts[0].phase == Woken {
      t := 0;
    } else {
      t := SomeoneWoken(ts[1..]);
      t := t + 1;
    }
  }

  /** The pool monitor in every interleaving: nothing is lost or handed out twice, the counters are
      exact, and no sleeper is stranded beside a free item: some woken thread is about to take one. */
  lemma MonitorIsSound(items: seq<Item>, n: nat, es: seq<Event>)
    ensures var s := Run(Init(items, n), es);
            && Inv(items, s)
            && (s.free != [] && (exists t :: 0 <= t < |s.threads| && s.threads[t].phase == Sleeping) ==>
                  exists t :: 0 <= t < |s.threads| && s.threads[t].phase == Woken)
  {
    NothingHeld(Init(items, n).threads);
    InvInEveryRun(items, Init(items, n), es);
    var s := Run(Init(items, n), es);
    if s.free != [] && exists t :: 0 <= t < |s.threads| && s.threads[t].phase == Sleeping {
      var w := SomeoneWoken(s.threads);
    }
  }

  /** When the initial items are distinct, no item is in two places. */
  lemma {:induction false} HeldOnce(ts: seq<Thread>, a: nat, b: nat, x: Item)
    requires a < b < |ts| && x in ts[a].held && x in ts[b].held
    ensures HeldBy(ts)[x] >= 2
    decreases |ts|
  {
    if a == 0 {
      HeldAtLeast(ts[1..], b - 1, x);
      assert x in multiset(ts[0].held);
    } else {
      HeldOnce(ts[1..], a - 1, b - 1, x);
    }
  }

  lemma {:induction false} HeldAtLeast(ts: seq<Thread>, a: nat, x: Item)
    requires a < |ts| && x in ts[a].held
    ensures HeldBy(ts)[x] >= 1
    decreases |ts|
  {
    if a > 0 {
      HeldAtLeast(ts[1..], a - 1, x);
    } else {
      assert x in multiset(ts[0].held);
    }
  }

  /** Mutual exclusion: no two threads ever hold the same connection, and a held one is not free. */
  lemma OneHolder(items: seq<Item>, n: nat, es: seq<Event>, a: nat, b: nat, x: Item)
    requires forall y :: y in items ==> multiset(items)[y] == 1
    requires var s := Run(Init(items, n), es); a < b < |s.threads| && x in s.threads[a].held
    ensures var s := Run(Init(items, n), es); x !in s.threads[b].held && x !in s.free
  {
    MonitorIsSound(items, n, es);
    var s := Run(Init(items, n), es);
    HeldAtLeast(s.threads, a, x);
    assert multiset(items)[x] == multiset(s.free)[x] + HeldBy(s.threads)[x];
    assert x in multiset(items);
    if x in s.threads[b].held {
      HeldOnce(s.threads, a, b, x);
    }
  }

  // ---------------------------------------------------------------- the pool object

  class Pool {
    var list: seq<Item>
    var free: int
    var cur: int
    const threads: array<Thread>   // who asks, sleeps on the condition variable, or holds what

    /** The machine's state. */
    ghost function Contents(): State
      reads this, threads
    {
      State(list, free, cur, threads[..])
    }

    /** HmacPool::init: the counter first, then the items. */
    constructor OfHmacs(size: nat, clients: nat)
      ensures fresh(threads) && Contents() == Init(seq(size, i => i), clients)
    {
      list := [];
      cur := 0;
      free := size;
      threads := new Thread[clients](_ => Thread(Idle, []));
      new;
      for i := 0 to size
        invariant list == seq(i, k => k) && free == size && cur == 0
        invariant threads[..] == seq(clients, i => Thread(Idle, []))
      {
        list := list + [i];
      }
    }

    /** connection_pool::init: counts as it connects. */
    constructor OfConnections(size: nat, clients: nat)
      ensures fresh(threads) && Contents() == Init(seq(size, i => i), clients)
    {
      list := [];
      cur := 0;
      free := 0;
      threads := new Thread[clients](_ => Thread(Idle, []));
      new;
      for i := 0 to size
        invariant list == seq(i, k => k) && free == i && cur == 0
        invariant threads[..] == seq(clients, i => Thread(Idle, []))
      {
        list := list + [i];
        free := free + 1;
      }
    }

    /** Get once it holds the lock: None means that the thread waits. */
    method GetSection(t: nat) returns (r: Option<Item>)
      requires Enabled(Contents(), Event.GetSection(t))
      modifies this, threads
      ensures Contents() == Next(old(Contents()), Event.GetSection(t))
      ensures r.Some? ==> old(list) == [r.value] + list && free == old(free) - 1 && cur == old(cur) + 1
      ensures r.None? ==> old(list) == [] == list && free == old(free) && cur == old(cur)
      ensures forall u :: 0 <= u < threads.Length && u != t ==> threads[u] == old(threads[u])
      ensures threads[t] == if r.Some? then Thread(Idle, old(threads[t]).held + [r.value])
                            else Thread(Sleeping, old(threads[t]).held)
    {
      if |list| == 0 {
        threads[t] := threads[t].(phase := Sleeping);
        return None;
      }
      var item := list[0];
      list := list[1..];
      free := free - 1;
      cur := cur + 1;
      threads[t] := Thread(Idle, threads[t].held + [item]);
      r := Some(item);
    }

    /** Release by a thread of the k-th item that it holds, with its signal; `wake` is the sleeper that
        the signal wakes. A null pointer is refused. */
    method Release(item: Option<Item>, t: nat, k: nat, wake: Option<nat>) returns (ok: bool)
      requires item.Some? ==> Enabled(Contents(), Event.Release(t, k, wake)) && item.value == threads[t].held[k]
      modifies this, threads
      ensures ok == item.Some?
      ensures Contents() == if ok then Next(old(Contents()), Event.Release(t, k, wake)) else old(Contents())
      ensures ok ==> list == old(list) + [item.value] && free == old(free) + 1 && cur == old(cur) - 1
      ensures ok ==> var held := old(threads[t]).held;
                     threads[t] == Thread(Idle, held[..k] + held[k + 1..]) && held[k] == item.value
      ensures ok && wake.Some? ==> threads[wake.value] == Thread(Woken, old(threads[wake.value]).held)
      ensures forall u :: 0 <= u < threads.Length && u != t && wake != Some(u) ==> threads[u] == old(threads[u])
      ensures !ok ==> list == old(list) && free == old(free) && cur == old(cur) && threads[..] == old(threads[..])
    {
      if item.None? { return false; }
      var held := threads[t].held;
      threads[t] := Thread(Idle, held[..k] + held[k + 1..]);
      list := list + [item.value];
      free := free + 1;
      cur := cur - 1;
      if wake.Some? { threads[wake.value] := threads[wake.value].(phase := Woken); }
      ok := true;
    }
  }

  /** Two threads that get an item each, with no release between, get the items of two places of the
      list, its first two, and hold them; if the items are distinct they hold different ones. */
  method TwoGets(pool: Pool, t: nat, u: nat) returns (x: Item, y: Item)
    requires t != u && |pool.list| >= 2
    requires Enabled(pool.Contents(), GetSection(t)) && Enabled(pool.Contents(), GetSection(u))
    modifies pool, pool.threads
    ensures old(pool.list) == [x, y] + pool.list
    ensures pool.threads[t].held == old(pool.threads[t]).held + [x]
    ensures pool.threads[u].held == old(pool.threads[u]).held + [y]
    ensures (forall i, j :: 0 <= i < j < |old(pool.list)| ==> old(pool.list)[i] != old(pool.list)[j]) ==> x != y
  {
    var first := pool.GetSection(t);
    x := first.value;
    var second := pool.GetSection(u);
    y := second.value;
    assert old(pool.list) == [x] + ([y] + pool.list);
    assert old(pool.list)[0] == x && old(pool.list)[1] == y;
  }
}
