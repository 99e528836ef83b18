/**
 The server as it is built: the tasks that its pool executes, each decoding and serving what it has
 read, are one serial run of the handlers. So what serial runs keep holds of this server.
 */
module ServerRuns {
  import opened Bytes
  import opened SlotTable
  import opened KeyServer
  import opened KeyCache
  import opened KeyServerCode
  import opened Codec
  import opened Revocation
  import Pool = ThreadPool
  import PoolRuns = ThreadPoolLiveness

  /** What a task finds when it is executed: the messages of its connection, and the luck of each. */
  datatype Work = Work(messages: seq<Bytes>, lucks: seq<Luck>)

  predicate WorkObeys(rules: Rules, w: Work) {
    |w.lucks| == |w.messages| && forall i :: 0 <= i < |w.lucks| ==> LuckObeys(rules, w.lucks[i])
  }

  predicate AllObey(rules: Rules, works: seq<Work>) { forall i :: 0 <= i < |works| ==> WorkObeys(rules, works[i]) }

  /** The tasks executed one after the other. */
  function ServeTasks(env: Env, st: Store, tasks: seq<Pool.Task>, works: seq<Work>): (Store, seq<Response>)
    requires |works| == |tasks| && forall i :: 0 <= i < |works| ==> |works[i].lucks| == |works[i].messages|
    decreases |tasks|
  {
    if tasks == [] then (st, []) else
    var (st1, rs) := ServeAll(env, st, tasks[0].fd, works[0].messages, works[0].lucks);
    var (st2, more) := ServeTasks(env, st1, tasks[1..], works[1..]);
    (st2, rs + more)
  }

  lemma {:induction false} LogOfAppend(a: seq<Response>, b: seq<Response>)
    ensures LogOf(a + b) == LogOf(a) + LogOf(b)
    decreases |a|
  {
    if a == [] {
      assert a + b == b;
    } else {
      assert (a + b)[1..] == a[1..] + b;
      LogOfAppend(a[1..], b);
    }
  }

  /** A task extends a run that obeys by its sessions, one after the other. */
  lemma {:induction false} TaskObeys(env: Env, rules: Rules, s: State, es: seq<Event>, fd: int, messages: seq<Bytes>,
                                     lucks: seq<Luck>)
      returns (es': seq<Event>)
    requires !rules.pair && RunObeys(env, rules, s, es) && Run(env, s, es).jobs == map[]
             && WorkObeys(rules, Work(messages, lucks))
    ensures RunObeys(env, rules, s, es')
    ensures var s1 := Run(env, s, es);
            var (st, rs) := ServeAll(env, s1.store, fd, messages, lucks);
            Run(env, s, es') == State(st, map[], s1.log + LogOf(rs))
    decreases |messages|
  {
    hide Serve, DecodeRequest, Run, RunObeys;
    var s1 := Run(env, s, es);
    if messages == [] || DecodeRequest(messages[0]).None? {
      es' := es;
      assert s1.log + [] == s1.log;
    } else {
      var req := DecodeRequest(messages[0]).value;
      assert LuckObeys(rules, lucks[0]);
      if FirstStep(req).None? {
        es' := TaskObeys(env, rules, s, es, fd, messages[1..], lucks[1..]);
      } else {
        var (st1, r) := Serve(env, s1.store, fd, req, lucks[0]);
        var es1 := AddSession(env, rules, s, es, fd, req, lucks[0]);
        es' := TaskObeys(env, rules, s, es1, fd, messages[1..], lucks[1..]);
        var (st2, rs) := ServeAll(env, st1, fd, messages[1..], lucks[1..]);
        assert ([r] + rs)[1..] == rs;
        assert s1.log + LogOf([r] + rs) == s1.log + [Logged(r)] + LogOf(rs);
      }
    }
  }

  lemma {:induction false} TasksObey(env: Env, rules: Rules, s: State, es: seq<Event>, tasks: seq<Pool.Task>,
                                     works: seq<Work>)
      returns (es': seq<Event>)
    requires !rules.pair && RunObeys(env, rules, s, es) && Run(env, s, es).jobs == map[]
    requires |works| == |tasks| && AllObey(rules, works)
    ensures RunObeys(env, rules, s, es')
    ensures var s1 := Run(env, s, es);
            var (st, rs) := ServeTasks(env, s1.store, tasks, works);
            Run(env, s, es') == State(st, map[], s1.log + LogOf(rs))
    decreases |tasks|
  {
    hide Run, RunObeys, ServeAll;
    var s1 := Run(env, s, es);
    if tasks == [] {
      es' := es;
      assert s1.log + [] == s1.log;
    } else {
      assert WorkObeys(rules, works[0]);
      var es1 := TaskObeys(env, rules, s, es, tasks[0].fd, works[0].messages, works[0].lucks);
      es' := TasksObey(env, rules, s, es1, tasks[1..], works[1..]);
      var (st1, rs) := ServeAll(env, s1.store, tasks[0].fd, works[0].messages, works[0].lucks);
      var (st2, more) := ServeTasks(env, st1, tasks[1..], works[1..]);
      LogOfAppend(rs, more);
      assert s1.log + LogOf(rs) + LogOf(more) == s1.log + LogOf(rs + more);
    }
  }

  /** The state of the server's pool after a run, and the tasks that it has executed. */
  function PoolAfter(es: seq<Pool.Event>): Pool.State {
    Pool.Run(PoolRuns.SERVER_POOL, Pool.Init(PoolRuns.SERVER_POOL), es)
  }

  function Executed(es: seq<Pool.Event>): seq<Pool.Task> {
    if PoolAfter(es).ran == [] then [] else PoolAfter(es).ran[0]
  }

  /** Every run of the server's pool: the tasks executed are a prefix of those accepted, executed in that
      order by one worker, and serving them is a serial run of the handlers, under whatever rules each
      task's luck keeps. */
  lemma ServerIsSerial(env: Env, maxNode: nat, rules: Rules, es: seq<Pool.Event>, works: seq<Work>)
      returns (ks: seq<Event>)
    requires !rules.pair && AllObey(rules, works) && |works| == |Executed(es)|
    ensures Executed(es) <= PoolAfter(es).accepted
    ensures forall w :: 0 < w < |PoolAfter(es).ran| ==> PoolAfter(es).ran[w] == []
    ensures RunObeys(env, rules, Init(maxNode), ks)
    ensures var (st, rs) := ServeTasks(env, Init(maxNode).store, Executed(es), works);
            Run(env, Init(maxNode), ks) == State(st, map[], LogOf(rs))
  {
    PoolRuns.TasksRunInOrder(PoolRuns.SERVER_POOL, es);
    var i := Init(maxNode);
    assert Run(env, i, []) == i && RunObeys(env, rules, i, []);
    hide Run, RunObeys, ServeTasks;
    ks := TasksObey(env, rules, i, [], Executed(es), works);
    var rs := ServeTasks(env, i.store, Executed(es), works).1;
    assert [] + LogOf(rs) == LogOf(rs);
  }

  const KEEPING: Rules := Rules(true, false, false, false, true)

  /** This server revokes for good if it tells the states of a row apart and no commit of an update is
      lost: in every run of its pool, whatever its tasks read, no check or revocation of a key succeeds
      after a revocation of it has. */
  lemma ServerRevocationIsPermanent(env: Env, maxNode: nat, es: seq<Pool.Event>, works: seq<Work>)
    requires !(env.decode(0) && env.decode(1)) && AllObey(KEEPING, works) && |works| == |Executed(es)|
    ensures Permanent(LogOf(ServeTasks(env, Init(maxNode).store, Executed(es), works).1))
  {
    var ks := ServerIsSerial(env, maxNode, KEEPING, es, works);
    SerialSuffices(env, KEEPING, maxNode, ks);
    hide ServeTasks, Permanent, LogOf, Run, RunObeys, Executed;
  }
}
