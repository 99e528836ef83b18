/**
 Revocation. What holds when handlers run one at a time, each key ID is presented with the pair of
 names it was issued to, the table can be attached when a revocation needs it, no commit is lost, and
 the state column is decoded so that not both states read as true; and runs that show that none of
 these can be left out.
 */
module Revocation {
  import opened Bytes
  import opened SlotTable
  import opened SqlText
  import opened KeyServer
  import opened KeyCache
  import opened Client

  // ---------------------------------------------------------------- the runs considered

  /** Which of the rules a run keeps to: handlers one at a time, key IDs with their own pairs, the
      table attached, commits of insertions and of updates not lost. */
  datatype Rules = Rules(serial: bool, pair: bool, mapped: bool, saved: bool, updated: bool)

  const ALL: Rules := Rules(true, true, true, true, true)

  predicate RightPair(st: Store, req: Request) {
    req.keyId in st.rows ==> st.rows[req.keyId].owner == (CString(req.client), CString(req.server))
  }

  predicate Presents(req: Request) { req.kind == KEYCHECK || req.kind == KEYREVOKE }

  predicate Obeys(rules: Rules, s: State, e: Event) {
    Enabled(s, e) ==>
      match e
      case Start(_, req) =>
        (rules.serial ==> s.jobs == map[]) && (rules.pair && Presents(req) ==> RightPair(s.store, req))
      case Step(fd, luck) =>
        && (rules.mapped && s.jobs[fd].MarkSlot? ==> luck.mapped)
        && (rules.saved && s.jobs[fd].Insert? ==> !luck.insert.LosesCommit?)
        && (rules.updated && s.jobs[fd].StoreState? ==> !luck.update.UpdateLost?)
      case Send(_) => true
  }

  /** Luck with which every step obeys. */
  predicate LuckObeys(rules: Rules, luck: Luck) {
    && (rules.mapped ==> luck.mapped)
    && (rules.saved ==> !luck.insert.LosesCommit?)
    && (rules.updated ==> !luck.update.UpdateLost?)
  }

  predicate RunObeys(env: Env, rules: Rules, s: State, es: seq<Event>)
    decreases |es|
  {
    es == [] || (Obeys(rules, s, es[0]) && RunObeys(env, rules, Next(env, s, es[0]), es[1..]))
  }

  // ---------------------------------------------------------------- the claims

  predicate Revoked(log: seq<LogEntry>, k: int) { LogEntry(KEYREVOKE, k, SUCCESS) in log }

  predicate Uses(x: LogEntry, k: int) { (x.kind == KEYCHECK || x.kind == KEYREVOKE) && x.keyId == k && x.rv == SUCCESS }

  /** Once a revocation of k is answered with success, no check or revocation of k is again. */
  predicate Permanent(log: seq<LogEntry>) {
    forall i, j :: 0 <= i < j < |log| && log[i].kind == KEYREVOKE && log[i].rv == SUCCESS ==>
      !Uses(log[j], log[i].keyId)
  }

  /** A slot in use has a row, which was issued to its pair; if its status is 1, so is the row's state. */
  predicate SlotOk(st: Store, n: Node) {
    && n.keyId in st.rows && PairOf(n) == st.rows[n.keyId].owner
    && (n.status == 0 || (n.status == 1 && st.rows[n.keyId].state == 1))
  }

  predicate SlotsActive(st: Store) {
    forall i :: 0 <= i < |st.slots| && st.slots[i] != ZERO ==> SlotOk(st, st.slots[i])
  }

  /** Unused slots come last, and used ones have different pairs. */
  predicate Packed(slots: seq<Node>) {
    && (forall i, j :: 0 <= i < j < |slots| && slots[i] == ZERO ==> slots[j] == ZERO)
    && (forall i, j :: 0 <= i < j < |slots| && slots[j] != ZERO ==> PairOf(slots[i]) != PairOf(slots[j]))
  }

  predicate NotActive(st: Store, k: int) {
    forall i :: 0 <= i < |st.slots| && st.slots[i] != ZERO && st.slots[i].keyId == k ==> st.slots[i].status == 0
  }

  /** A slot says that a key is valid, and there is no row that says so. */
  ghost predicate Stale(st: Store) {
    exists i :: 0 <= i < |st.slots| && st.slots[i].status == 1
                && !(st.slots[i].keyId in st.rows && st.rows[st.slots[i].keyId].state == 1)
  }

  /** No slot is stale, and none with a key whose revocation succeeded is valid. */
  ghost predicate TableHonest(s: State) {
    && !Stale(s.store)
    && (forall i :: 0 <= i < |s.store.slots| && s.store.slots[i].status == 1 ==>
      !Revoked(s.log, s.store.slots[i].keyId))
  }

  /** The job of a handler that could still answer with success is about a key not revoked. */
  predicate LogJob(env: Env, st: Store, log: seq<LogEntry>, job: Job) {
    match job
    case Cache(_, req) => req.kind == PREKEY || (req.kind == KEYCHECK && !Revoked(log, req.keyId))
    case Insert(_, req) => req.kind == PREKEY
    case Premaster(req) => req.kind == PREKEY
    case Random(req) => req.kind == RANDOMNUM
    case Query(req) => Presents(req)
    case MarkSlot(req) => !env.decode(0) && req.kind == KEYREVOKE && !Revoked(log, req.keyId)
    case StoreState(req) => !env.decode(0) && req.kind == KEYREVOKE && !Revoked(log, req.keyId)
    case Reply(r) =>
      && ((r.kind == KEYCHECK || r.kind == KEYREVOKE) && r.rv == SUCCESS ==> !Revoked(log, r.keyId))
      && (r.kind == KEYREVOKE && r.rv == SUCCESS ==> r.keyId in st.rows && st.rows[r.keyId].state == 0)
  }

  /** What a handler is about to do to the table is in order. */
  predicate SlotJob(st: Store, job: Job) {
    match job
    case Cache(node, _) => SlotOk(st, node) && node.status == 1
    case Query(req) => RightPair(st, req)
    case StoreState(req) => NotActive(st, req.keyId)
    case _ => true
  }

  predicate RowsActive(env: Env, st: Store) { env.decode(0) ==> forall k :: k in st.rows ==> st.rows[k].state == 1 }

  ghost predicate LogOk(st: Store, log: seq<LogEntry>) {
    && Permanent(log)
    && forall k :: Revoked(log, k) ==> k in st.rows && st.rows[k].state == 0
  }

  predicate OneJob(jobs: map<int, Job>) { forall a, b :: a in jobs && b in jobs ==> a == b }

  ghost predicate LogSound(env: Env, st: Store, log: seq<LogEntry>) { RowsActive(env, st) && LogOk(st, log) }

  predicate SlotsSound(st: Store) { SlotsActive(st) && Packed(st.slots) }

  /** What serial handlers keep. */
  ghost predicate LogInv(env: Env, s: State) {
    && CacheInv(env, s) && LogSound(env, s.store, s.log) && OneJob(s.jobs)
    && forall fd :: fd in s.jobs ==> LogJob(env, s.store, s.log, s.jobs[fd])
  }

  /** What they keep of the table if the other rules are kept too. */
  ghost predicate SlotInv(s: State) {
    && SlotsSound(s.store)
    && forall fd :: fd in s.jobs ==> SlotJob(s.store, s.jobs[fd])
  }

  // ---------------------------------------------------------------- one step at a time

  /** Rows and slots after writing a node that is in agreement. */
  lemma WriteKeeps(st: Store, node: Node)
    requires SlotsActive(st) && Packed(st.slots) && SlotOk(st, node) && node.keyId > 0
    ensures var st' := st.(slots := Write(st.slots, node).0); SlotsActive(st') && Packed(st'.slots)
  {
    var i := FindPair(st.slots, PairOf(node));
    var j := FindZero(st.slots);
    var at := if i < |st.slots| then i else j;
    if at < |st.slots| {
      WriteIsPacked(st.slots, node, at);
    }
  }

  lemma WriteIsPacked(slots: seq<Node>, node: Node, at: nat)
    requires Packed(slots) && node != ZERO && at < |slots|
    requires at == FindPair(slots, PairOf(node)) || (FindPair(slots, PairOf(node)) == |slots| && at == FindZero(slots))
    ensures Packed(slots[at := node])
  {
    hide FindPair, FindZero;
  }

  lemma UniqueKeyIds(st: Store, i: nat, j: nat)
    requires SlotsActive(st) && Packed(st.slots) && i < j < |st.slots|
    requires st.slots[i] != ZERO && st.slots[j] != ZERO
    ensures st.slots[i].keyId != st.slots[j].keyId
  {
    assert SlotOk(st, st.slots[i]) && SlotOk(st, st.slots[j]);
  }

  lemma MarkKeeps(st: Store, k: int)
    requires RowsOk(st) && SlotsActive(st) && Packed(st.slots) && k > 0
    ensures var st' := st.(slots := Mark(st.slots, k, 0).0);
            SlotsActive(st') && Packed(st'.slots) && NotActive(st', k)
  {
    var st' := st.(slots := Mark(st.slots, k, 0).0);
    var at := FindKey(st.slots, k);
    forall j | at < j < |st.slots| && st.slots[j] != ZERO ensures st.slots[j].keyId != k {
      UniqueKeyIds(st, at, j);
    }
    forall i | 0 <= i < |st.slots| && st'.slots[i] != ZERO
      ensures SlotOk(st', st'.slots[i]) && (st'.slots[i].keyId == k ==> st'.slots[i].status == 0)
    {
      assert st.slots[i] != ZERO;
      assert SlotOk(st, st.slots[i]);
    }
    forall i | 0 <= i < |st.slots|
      ensures PairOf(st'.slots[i]) == PairOf(st.slots[i]) && (st'.slots[i] == ZERO <==> st.slots[i] == ZERO)
    {
      if i == at { assert st.slots[i] != ZERO; }
    }
    hide Mark;
  }

  /** Adding a row disturbs nothing that is there. */
  lemma InsertKeeps(env: Env, st: Store, node: Node)
    requires RowsOk(st) && SlotsActive(st)
    ensures var st' := InsertRow(env, st, node);
            SlotsActive(st') && SlotOk(st', node.(keyId := st.nextId, status := 1)) && st.nextId !in st.rows
  {
    assert st.nextId !in st.rows;
    var st' := InsertRow(env, st, node);
    forall i | 0 <= i < |st.slots| && st.slots[i] != ZERO ensures SlotOk(st', st.slots[i]) {
      assert SlotOk(st, st.slots[i]);
    }
  }

  lemma ClearKeeps(st: Store, k: int)
    requires SlotsActive(st) && NotActive(st, k)
    ensures SlotsActive(ClearState(st, k))
  {
    var st' := ClearState(st, k);
    forall i | 0 <= i < |st.slots| && st.slots[i] != ZERO ensures SlotOk(st', st.slots[i]) {
      assert SlotOk(st, st.slots[i]);
    }
  }

  /** Only a live key passes the query, whatever the decoding, if it does not accept both states. */
  lemma OnlyLiveKeysPass(env: Env, st: Store, log: seq<LogEntry>, req: Request, ok: bool)
    requires RowsOk(st) && LogSound(env, st, log) && !(env.decode(0) && env.decode(1)) && Presents(req)
    ensures var job := VerifyKey(env, st, req, ok);
            LogJob(env, st, log, job) && (RightPair(st, req) ==> SlotJob(st, job))
  {
    if ok && req.keyId in st.rows && env.decode(st.rows[req.keyId].state) {
      assert st.rows[req.keyId].state == 1;
      assert !Revoked(log, req.keyId);
    }
    hide Revoked, RowsOk, RowsActive, LogOk;
  }

  lemma QueryKeepsLog(env: Env, st: Store, log: seq<LogEntry>, fd: int, job: Job, luck: Luck)
    requires !(env.decode(0) && env.decode(1)) && job.Query?
    requires RowsOk(st) && LogSound(env, st, log) && JobOk(env, st, job) && LogJob(env, st, log, job)
    ensures var (st', job') := Act(env, st, fd, job, luck); LogSound(env, st', log) && LogJob(env, st', log, job')
  {
    OnlyLiveKeysPass(env, st, log, job.req, luck.queryOk);
    hide VerifyKey, RowsActive, LogOk;
  }

  lemma InsertionKeepsLog(env: Env, st: Store, log: seq<LogEntry>, fd: int, job: Job, luck: Luck)
    requires job.Insert?
    requires RowsOk(st) && LogSound(env, st, log) && JobOk(env, st, job) && LogJob(env, st, log, job)
    ensures var (st', job') := Act(env, st, fd, job, luck); LogSound(env, st', log) && LogJob(env, st', log, job')
  {
    InsertKeepsLog(env, st, log, job.node);
    SameRows(env, st, SaveRow(env, st, job.node, luck.insert), log);
    hide LogSound, Revoked, RowsOk, InsertRow, Storable, IntToString, CString;
  }

  lemma StateKeepsLog(env: Env, st: Store, log: seq<LogEntry>, fd: int, job: Job, luck: Luck)
    requires job.StoreState? && !luck.update.UpdateLost?
    requires RowsOk(st) && LogSound(env, st, log) && JobOk(env, st, job) && LogJob(env, st, log, job)
    ensures var (st', job') := Act(env, st, fd, job, luck); LogSound(env, st', log) && LogJob(env, st', log, job')
  {
    ClearKeepsLog(env, st, log, job.req.keyId);
    hide RowsActive, LogOk, Revoked, RowsOk, CString;
  }

  lemma OtherStepKeepsLog(env: Env, st: Store, log: seq<LogEntry>, fd: int, job: Job, luck: Luck)
    requires !job.Reply? && !job.Query? && !job.Insert? && !job.StoreState?
    requires RowsOk(st) && LogSound(env, st, log) && JobOk(env, st, job) && LogJob(env, st, log, job)
    ensures var (st', job') := Act(env, st, fd, job, luck); LogSound(env, st', log) && LogJob(env, st', log, job')
  {
    SameRows(env, st, Act(env, st, fd, job, luck).0, log);
    hide LogSound, Revoked, RowsOk, JobOk, Write, Mark, IntToString, CString;
  }

  lemma StepKeepsLog(env: Env, st: Store, log: seq<LogEntry>, fd: int, job: Job, luck: Luck)
    requires !(env.decode(0) && env.decode(1)) && !job.Reply? && (job.StoreState? ==> !luck.update.UpdateLost?)
    requires RowsOk(st) && LogSound(env, st, log) && JobOk(env, st, job) && LogJob(env, st, log, job)
    ensures var (st', job') := Act(env, st, fd, job, luck); LogSound(env, st', log) && LogJob(env, st', log, job')
  {
    hide *;
    if job.Query? { QueryKeepsLog(env, st, log, fd, job, luck); }
    else if job.Insert? { InsertionKeepsLog(env, st, log, fd, job, luck); }
    else if job.StoreState? { StateKeepsLog(env, st, log, fd, job, luck); }
    else { OtherStepKeepsLog(env, st, log, fd, job, luck); }
  }

  lemma SameRows(env: Env, st: Store, st': Store, log: seq<LogEntry>)
    requires LogSound(env, st, log)
    ensures st'.rows == st.rows ==> LogSound(env, st', log)
  {
    hide Permanent, Revoked;
  }

  lemma StepKeepsSlots(env: Env, st: Store, log: seq<LogEntry>, fd: int, job: Job, luck: Luck)
    requires !(env.decode(0) && env.decode(1)) && !job.Reply?
    requires RowsOk(st) && LogSound(env, st, log) && JobOk(env, st, job) && LogJob(env, st, log, job)
    requires SlotsSound(st) && SlotJob(st, job)
    requires (job.MarkSlot? ==> luck.mapped) && (job.Insert? ==> !luck.insert.LosesCommit?)
    ensures var (st', job') := Act(env, st, fd, job, luck); SlotsSound(st') && SlotJob(st', job')
  {
    hide LogOk, RowsActive, Revoked, SlotsActive, Packed;
    match job
    case Insert(node, req) => InsertKeeps(env, st, node); hide SlotOk, RowsOk, InsertRow, LogSound;
    case Cache(node, req) =>
      assert node.keyId > 0;
      WriteKeeps(st, node);
      hide Write, SlotOk, RowsOk, IntToString, LogSound;
    case MarkSlot(req) => MarkKeeps(st, req.keyId); hide Mark, NotActive, RowsOk, LogSound;
    case StoreState(req) => ClearKeeps(st, req.keyId); hide NotActive, RowsOk, LogSound;
    case Query(req) => OnlyLiveKeysPass(env, st, log, req, luck.queryOk); hide VerifyKey, RowsOk, LogSound;
    case Random(_) => SameSlots(st, Act(env, st, fd, job, luck).0); hide RowsOk, LogSound, NotActive, SlotOk;
    case Premaster(_) => SameSlots(st, Act(env, st, fd, job, luck).0); hide RowsOk, LogSound, NotActive, SlotOk;
    case Reply(_) =>
  }

  lemma SameSlots(st: Store, st': Store)
    requires SlotsActive(st) && st'.slots == st.slots && st'.rows == st.rows
    ensures SlotsActive(st')
  {
    forall i | 0 <= i < |st.slots| && st.slots[i] != ZERO ensures SlotOk(st', st.slots[i]) {
      assert SlotOk(st, st.slots[i]);
    }
  }

  lemma InsertKeepsLog(env: Env, st: Store, log: seq<LogEntry>, node: Node)
    requires RowsOk(st) && RowsActive(env, st) && LogOk(st, log)
    ensures var st' := InsertRow(env, st, node); RowsActive(env, st') && LogOk(st', log)
  {
    assert st.nextId !in st.rows;
    hide Permanent, Revoked;
  }

  lemma ClearKeepsLog(env: Env, st: Store, log: seq<LogEntry>, k: int)
    requires RowsActive(env, st) && LogOk(st, log) && !env.decode(0)
    ensures var st' := ClearState(st, k); RowsActive(env, st') && LogOk(st', log)
  {
    hide Permanent, Revoked;
  }

  /** The log grows by an answer. */
  lemma AnswerKeepsLog(env: Env, st: Store, log: seq<LogEntry>, r: Response)
    requires LogOk(st, log) && LogJob(env, st, log, Reply(r))
    ensures LogOk(st, log + [LogEntry(r.kind, r.keyId, r.rv)])
  {
    var log' := log + [LogEntry(r.kind, r.keyId, r.rv)];
    forall i, j | 0 <= i < j < |log'| && log'[i].kind == KEYREVOKE && log'[i].rv == SUCCESS
      ensures !Uses(log'[j], log'[i].keyId)
    {
      if j == |log| { assert log'[i] in log; }
    }
    forall k | Revoked(log', k) ensures k in st.rows && st.rows[k].state == 0 {
      if !Revoked(log, k) { assert LogEntry(KEYREVOKE, k, SUCCESS) == log'[|log|]; }
    }
  }

  lemma LogStep(env: Env, rules: Rules, s: State, e: Event)
    requires !(env.decode(0) && env.decode(1)) && rules.serial && rules.updated && LogInv(env, s) && Obeys(rules, s, e)
    ensures LogInv(env, Next(env, s, e))
  {
    CacheStep(env, s, e);
    hide CacheInv, Act, RowsActive, LogOk, RightPair;
    if Enabled(s, e) {
      match e
      case Start(fd, req) =>
      case Step(fd, luck) =>
        CacheParts(env, s, fd);
        StepKeepsLog(env, s.store, s.log, fd, s.jobs[fd], luck);
        hide LogJob;
      case Send(fd) => AnswerKeepsLog(env, s.store, s.log, s.jobs[fd].resp);
    }
  }

  lemma SlotStep(env: Env, s: State, e: Event)
    requires !(env.decode(0) && env.decode(1)) && LogInv(env, s) && SlotInv(s) && Obeys(ALL, s, e)
    ensures SlotInv(Next(env, s, e))
  {
    hide CacheInv, Act, SlotsActive, Packed, RowsActive, LogOk, RightPair, LogJob;
    if Enabled(s, e) && e.Step? {
      CacheParts(env, s, e.fd);
      StepKeepsSlots(env, s.store, s.log, e.fd, s.jobs[e.fd], e.luck);
      hide SlotJob;
    }
  }

  lemma CacheParts(env: Env, s: State, fd: int)
    requires CacheInv(env, s) && fd in s.jobs
    ensures RowsOk(s.store) && JobOk(env, s.store, s.jobs[fd])
  {
  }

  lemma {:induction false} LogInEveryRun(env: Env, rules: Rules, s: State, es: seq<Event>)
    requires !(env.decode(0) && env.decode(1)) && rules.serial && rules.updated && LogInv(env, s)
             && RunObeys(env, rules, s, es)
    ensures LogInv(env, Run(env, s, es))
    decreases |es|
  {
    if es != [] {
      LogStep(env, rules, s, es[0]);
      hide LogInv, Obeys, Next;
      LogInEveryRun(env, rules, Next(env, s, es[0]), es[1..]);
    }
  }

  lemma {:induction false} SlotsInEveryRun(env: Env, s: State, es: seq<Event>)
    requires !(env.decode(0) && env.decode(1)) && LogInv(env, s) && SlotInv(s) && RunObeys(env, ALL, s, es)
    ensures SlotInv(Run(env, s, es))
    decreases |es|
  {
    if es != [] {
      LogStep(env, ALL, s, es[0]);
      SlotStep(env, s, es[0]);
      hide LogInv, SlotInv, Obeys, Next;
      SlotsInEveryRun(env, Next(env, s, es[0]), es[1..]);
    }
  }

  lemma InvIsHonest(env: Env, s: State)
    requires LogInv(env, s) && SlotInv(s)
    ensures TableHonest(s)
  {
    forall i | 0 <= i < |s.store.slots| && s.store.slots[i].status == 1
      ensures s.store.slots[i].keyId in s.store.rows && s.store.rows[s.store.slots[i].keyId].state == 1
    {
      assert SlotOk(s.store, s.store.slots[i]);
    }
    hide Permanent, Revoked, CacheInv, LogJob;
  }

  /** Serial handlers whose updates are kept make revocation permanent, under a decoding that tells the
      states apart. */
  lemma SerialSuffices(env: Env, rules: Rules, maxNode: nat, es: seq<Event>)
    requires !(env.decode(0) && env.decode(1)) && rules.serial && rules.updated
             && RunObeys(env, rules, Init(maxNode), es)
    ensures Permanent(Run(env, Init(maxNode), es).log)
  {
    LogInEveryRun(env, rules, Init(maxNode), es);
    hide Run, CacheInv, LogJob, Permanent;
  }

  /** Runs that keep all the rules keep the table honest after every step: also between the two
      writes of a revocation, and when the second fails. */
  lemma AllRulesSuffice(env: Env, maxNode: nat, es: seq<Event>)
    requires !(env.decode(0) && env.decode(1)) && RunObeys(env, ALL, Init(maxNode), es)
    ensures TableHonest(Run(env, Init(maxNode), es))
  {
    LogInEveryRun(env, ALL, Init(maxNode), es);
    SlotsInEveryRun(env, Init(maxNode), es);
    InvIsHonest(env, Run(env, Init(maxNode), es));
  }

  // ---------------------------------------------------------------- runs that break a rule

  lemma {:induction false} ObeysAppend(env: Env, rules: Rules, s: State, a: seq<Event>, b: seq<Event>)
    requires RunObeys(env, rules, s, a) && RunObeys(env, rules, Run(env, s, a), b)
    ensures RunObeys(env, rules, s, a + b)
    decreases |a|
  {
    if a == [] {
      assert a + b == b;
    } else {
      assert (a + b)[1..] == a[1..] + b;
      ObeysAppend(env, rules, Next(env, s, a[0]), a[1..], b);
    }
  }

  lemma {:induction false} StepsObey(env: Env, rules: Rules, s: State, fd: int, luck: Luck, n: nat)
    requires LuckObeys(rules, luck)
    ensures RunObeys(env, rules, s, Steps(fd, luck, n))
    decreases n
  {
    hide Next;
    if n == 0 {
      assert RunObeys(env, rules, Next(env, s, Send(fd)), [Send(fd)][1..]);
    } else {
      assert Steps(fd, luck, n)[1..] == Steps(fd, luck, n - 1);
      StepsObey(env, rules, Next(env, s, Step(fd, luck)), fd, luck, n - 1);
    }
  }

  const LUCKY: Luck := Luck([], Works, true, true, Updates)

  /** One more handler, run by itself, after a run that obeys. */
  lemma AddSession(env: Env, rules: Rules, s: State, es: seq<Event>, fd: int, req: Request, luck: Luck)
      returns (es': seq<Event>)
    requires RunObeys(env, rules, s, es) && FirstStep(req).Some?
    requires var s1 := Run(env, s, es);
             && fd !in s1.jobs && (rules.serial ==> s1.jobs == map[])
             && (rules.pair && Presents(req) ==> RightPair(s1.store, req)) && LuckObeys(rules, luck)
    ensures RunObeys(env, rules, s, es')
    ensures var s1 := Run(env, s, es);
            var (st, r) := Serve(env, s1.store, fd, req, luck);
            Run(env, s, es') == State(st, s1.jobs, s1.log + [Logged(r)])
  {
    hide Serve, Next;
    var s1 := Run(env, s, es);
    var more := Session(fd, req, luck);
    assert more[0] == Start(fd, req) && more[1..] == Steps(fd, luck, 3);
    StepsObey(env, rules, Next(env, s1, Start(fd, req)), fd, luck, 3);
    SessionServes(env, s1, fd, req, luck);
    ObeysAppend(env, rules, s, es, more);
    RunAppend(env, s, es, more);
    es' := es + more;
  }

  lemma AddEvent(env: Env, rules: Rules, s: State, es: seq<Event>, e: Event) returns (es': seq<Event>)
    requires RunObeys(env, rules, s, es) && Obeys(rules, Run(env, s, es), e)
    ensures RunObeys(env, rules, s, es') && Run(env, s, es') == Next(env, Run(env, s, es), e)
  {
    hide Next;
    var s1 := Run(env, s, es);
    assert [e][1..] == [];
    assert Run(env, Next(env, s1, e), []) == Next(env, s1, e);
    ObeysAppend(env, rules, s, es, [e]);
    RunAppend(env, s, es, [e]);
    es' := es + [e];
  }

  /** One more handler that has got past its query. */
  lemma AddQuery(env: Env, rules: Rules, s: State, es: seq<Event>, fd: int, req: Request) returns (es': seq<Event>)
    requires RunObeys(env, rules, s, es) && Presents(req)
    requires var s1 := Run(env, s, es);
             && fd !in s1.jobs && (rules.serial ==> s1.jobs == map[]) && (rules.pair ==> RightPair(s1.store, req))
    ensures RunObeys(env, rules, s, es')
    ensures var s1 := Run(env, s, es);
            Run(env, s, es') == s1.(jobs := s1.jobs[fd := VerifyKey(env, s1.store, req, true)])
  {
    hide Run, RunObeys, VerifyKey;
    var jobs := Run(env, s, es).jobs;
    es' := AddEvent(env, rules, s, es, Start(fd, req));
    es' := AddEvent(env, rules, s, es', Step(fd, LUCKY));
    var after := VerifyKey(env, Run(env, s, es).store, req, true);
    assert jobs[fd := Query(req)][fd := after] == jobs[fd := after];
  }

  /** A handler under way is carried through. */
  lemma AddRest(env: Env, rules: Rules, s: State, es: seq<Event>, fd: int) returns (es': seq<Event>)
    requires RunObeys(env, rules, s, es) && fd in Run(env, s, es).jobs
    ensures RunObeys(env, rules, s, es')
    ensures var s1 := Run(env, s, es);
            var (st, r) := Finish(env, s1.store, fd, s1.jobs[fd], LUCKY);
            Run(env, s, es') == State(st, s1.jobs - {fd}, s1.log + [Logged(r)])
  {
    hide Finish, Next;
    var s1 := Run(env, s, es);
    StepsObey(env, rules, s1, fd, LUCKY, 3);
    StepsFinish(env, s1, fd, LUCKY, 3);
    ObeysAppend(env, rules, s, es, Steps(fd, LUCKY, 3));
    RunAppend(env, s, es, Steps(fd, LUCKY, 3));
    es' := es + Steps(fd, LUCKY, 3);
  }

  /** What the runs below need: a cipher text of the empty text, and a database that keeps clean text. */
  ghost predicate Ground(env: Env, c: Bytes) { env.dec(c) == [] && GoodStore(env) }

  /** A request about key 1 from a client that holds the empty keys; c decrypts to nothing. */
  function EmptyProof(env: Env, c: Bytes, kind: int, client: Bytes): Request {
    Request(kind, client, [], env.hmac([], env.hash(c)), c, 1)
  }

  const FIRST: Node := Node(1, 1, [1], [], [], [])

  /** Key 1 has been issued to the client named 1 and sits in the first slot. */
  predicate Issued(st: Store, maxNode: nat) {
    && st.rows == map[1 := Row([1], [], 1, [], [], ([1], []))]
    && |st.slots| == maxNode && maxNode >= 2 && st.slots[0] == FIRST && st.slots[1] == ZERO
  }

  lemma FirstPasses(env: Env, c: Bytes, st: Store)
    requires Ground(env, c) && st.nonces == map[]
    ensures var req := EmptyProof(env, c, PREKEY, [1]);
            VerifyPremaster(env, st, 1, req) == (st, Insert(FIRST.(status := 0, keyId := 0), req))
  {
    hide GoodStore;
    assert CString([1]) == [1] && CString([]) == [];
    assert AuthKey([], [], []) == [] && EndeKey([], [], []) == [];
    assert st.nonces - {1} == map[];
    hide CString, AuthKey, EndeKey;
  }

  lemma FirstIsStored(env: Env, c: Bytes)
    requires Ground(env, c)
    ensures var n := FIRST.(status := 0, keyId := 0);
            Storable(env, n) && RowOf(env, n) == Row([1], [], 1, [], [], ([1], []))
  {
    assert Clean([1]) && Clean([]);
    assert CString([1]) == [1] && CString([]) == [];
  }

  lemma FirstIsWritten(slots: seq<Node>)
    requires slots != [] && forall i :: 0 <= i < |slots| ==> slots[i] == ZERO
    ensures Write(slots, FIRST) == (slots[0 := FIRST], true)
  {
    assert FindPair(slots, PairOf(FIRST)) == |slots|;
  }

  lemma FirstIsServed(env: Env, c: Bytes, maxNode: nat)
    requires Ground(env, c) && maxNode >= 2
    ensures Issued(Serve(env, Init(maxNode).store, 1, EmptyProof(env, c, PREKEY, [1]), LUCKY).0, maxNode)
  {
    var st := Init(maxNode).store;
    FirstPasses(env, c, st);
    FirstIsStored(env, c);
    FirstIsWritten(st.slots);
    PremasterUnfolds(env, st, 1, EmptyProof(env, c, PREKEY, [1]), LUCKY);
    hide Ground, Serve, Write, IntToString, VerifyPremaster, EmptyProof, CString, Storable, RowOf;
    assert st.slots[0 := FIRST][1] == ZERO;
  }

  lemma IssueFirst(env: Env, c: Bytes, rules: Rules, maxNode: nat) returns (es: seq<Event>)
    requires Ground(env, c) && maxNode >= 2
    ensures RunObeys(env, rules, Init(maxNode), es)
    ensures var s := Run(env, Init(maxNode), es); s.jobs == map[] && Issued(s.store, maxNode)
  {
    FirstIsServed(env, c, maxNode);
    var s := Init(maxNode);
    assert Run(env, s, []) == s && RunObeys(env, rules, s, []);
    hide Ground, Serve, Run, RunObeys, Issued;
    es := AddSession(env, rules, s, [], 1, EmptyProof(env, c, PREKEY, [1]), LUCKY);
  }

  lemma EmptyProofIsAdmitted(env: Env, c: Bytes, st: Store, kind: int, client: Bytes)
    requires Ground(env, c) && 1 in st.rows && st.rows[1].authKey == [] && st.rows[1].endeKey == []
    ensures Admitted(env, st, EmptyProof(env, c, kind, client), true) <==> env.decode(st.rows[1].state)
  {
    hide GoodStore;
  }

  /** Revoking key 1: the row and, when the table is attached, its first slot. */
  lemma RevokeFirst(env: Env, c: Bytes, st: Store, fd: int, mapped: bool)
    requires Ground(env, c) && env.decode(1) && 1 in st.rows && st.rows[1] == Row([1], [], 1, [], [], ([1], []))
    requires st.slots != [] && st.slots[0].keyId == 1
    ensures var st' := Serve(env, st, fd, EmptyProof(env, c, KEYREVOKE, [1]), LUCKY.(mapped := mapped)).0;
            && 1 in st'.rows && st'.rows[1] == Row([1], [], 0, [], [], ([1], []))
            && st'.slots == if mapped then st.slots[0 := st.slots[0].(status := 0)] else st.slots
  {
    EmptyProofIsAdmitted(env, c, st, KEYREVOKE, [1]);
    RevokeAnswers(env, st, fd, EmptyProof(env, c, KEYREVOKE, [1]), LUCKY.(mapped := mapped));
    assert FindKey(st.slots, 1) == 0;
    hide Serve, Admitted, Ground;
  }

  lemma FoundFirst(slots: seq<Node>, p: Pair)
    requires slots != [] && PairOf(slots[0]) == p
    ensures FindPair(slots, p) == 0
  {
  }

  lemma MarkFirst(slots: seq<Node>)
    requires slots != [] && slots[0].keyId == 1
    ensures Mark(slots, 1, 0).0 == slots[0 := slots[0].(status := 0)]
  {
  }

  /** Checking key 1 under a client name puts a valid slot in the first place for that name. */
  lemma CheckFirst(env: Env, c: Bytes, st: Store, fd: int, client: Bytes, at: nat)
    requires Ground(env, c) && 1 in st.rows && st.rows[1].authKey == [] && st.rows[1].endeKey == []
    requires env.decode(st.rows[1].state) && at < |st.slots|
    requires var i := FindPair(st.slots, (CString(client), []));
             at == i || (i == |st.slots| && at == FindZero(st.slots))
    ensures VerifyKey(env, st, EmptyProof(env, c, KEYCHECK, client), true).Cache?
    ensures var req := EmptyProof(env, c, KEYCHECK, client);
            Serve(env, st, fd, req, LUCKY).0 == st.(slots := st.slots[at := NodeOf(req, 1, 1, [], [])])
  {
    EmptyProofIsAdmitted(env, c, st, KEYCHECK, client);
    CheckUnfolds(env, st, fd, EmptyProof(env, c, KEYCHECK, client), LUCKY);
    hide Serve, FindPair, FindZero, Ground;
  }

  /** Key 1 has been issued and revoked. */
  lemma RevokeIssued(env: Env, c: Bytes, rules: Rules, maxNode: nat, mapped: bool) returns (es: seq<Event>)
    requires Ground(env, c) && env.decode(1) && maxNode >= 2 && (rules.mapped ==> mapped)
    ensures RunObeys(env, rules, Init(maxNode), es)
    ensures var s := Run(env, Init(maxNode), es);
            && s.jobs == map[] && 1 in s.store.rows && s.store.rows[1] == Row([1], [], 0, [], [], ([1], []))
            && s.store.slots != [] && s.store.slots[0] == (if mapped then FIRST.(status := 0) else FIRST)
  {
    es := IssueFirst(env, c, rules, maxNode);
    hide Run, RunObeys, Serve, Init, Ground;
    assert CString([1]) == [1] && CString([]) == [];
    RevokeFirst(env, c, Run(env, Init(maxNode), es).store, 1, mapped);
    es := AddSession(env, rules, Init(maxNode), es, 1, EmptyProof(env, c, KEYREVOKE, [1]), LUCKY.(mapped := mapped));
  }

  /** A decoding that reads both states as true lets a check revive a revoked key. */
  lemma BadDecodingRevives(env: Env, c: Bytes, rules: Rules, maxNode: nat) returns (es: seq<Event>)
    requires Ground(env, c) && env.decode(0) && env.decode(1) && maxNode >= 2
    ensures RunObeys(env, rules, Init(maxNode), es) && Stale(Run(env, Init(maxNode), es).store)
  {
    es := RevokeIssued(env, c, rules, maxNode, true);
    hide Run, RunObeys, Serve, Init, Ground;
    assert CString([1]) == [1] && CString([]) == [];
    var st := Run(env, Init(maxNode), es).store;
    hide FindPair, FindZero;
    FoundFirst(st.slots, ([1], []));
    CheckFirst(env, c, st, 1, [1], 0);
    es := AddSession(env, rules, Init(maxNode), es, 1, EmptyProof(env, c, KEYCHECK, [1]), LUCKY);
    assert Run(env, Init(maxNode), es).store.slots[0].status == 1;
  }

  /** A check of key 1 under other names has put it in a second slot as well. */
  lemma CheckedTwice(env: Env, c: Bytes, rules: Rules, maxNode: nat) returns (es: seq<Event>, i: nat)
    requires Ground(env, c) && env.decode(1) && maxNode >= 2 && !rules.pair
    ensures RunObeys(env, rules, Init(maxNode), es)
    ensures var s := Run(env, Init(maxNode), es);
            && s.jobs == map[] && s.store.rows == map[1 := Row([1], [], 1, [], [], ([1], []))]
            && 0 < i < |s.store.slots| && s.store.slots[0] == FIRST
            && s.store.slots[i].keyId == 1 && s.store.slots[i].status == 1
  {
    es := IssueFirst(env, c, rules, maxNode);
    hide Run, RunObeys, Serve, Init, Ground;
    var st := Run(env, Init(maxNode), es).store;
    assert CString([2]) == [2];
    SecondSlot(st.slots);
    i := if FindPair(st.slots, ([2], [])) < maxNode then FindPair(st.slots, ([2], [])) else 1;
    CheckFirst(env, c, st, 1, [2], i);
    es := AddSession(env, rules, Init(maxNode), es, 1, EmptyProof(env, c, KEYCHECK, [2]), LUCKY);
  }

  /** A check under other names leaves a second slot, which a revocation does not find. */
  lemma ForeignPairSurvives(env: Env, c: Bytes, rules: Rules, maxNode: nat) returns (es: seq<Event>)
    requires Ground(env, c) && env.decode(1) && maxNode >= 2 && !rules.pair
    ensures RunObeys(env, rules, Init(maxNode), es) && Stale(Run(env, Init(maxNode), es).store)
  {
    var i;
    es, i := CheckedTwice(env, c, rules, maxNode);
    hide Run, RunObeys, Serve, Init, Ground;
    assert CString([1]) == [1] && CString([]) == [];
    RevokeFirst(env, c, Run(env, Init(maxNode), es).store, 1, true);
    es := AddSession(env, rules, Init(maxNode), es, 1, EmptyProof(env, c, KEYREVOKE, [1]), LUCKY);
    assert Run(env, Init(maxNode), es).store.slots[i].status == 1;
  }

  lemma SecondSlot(slots: seq<Node>)
    requires |slots| >= 2 && slots[0] == FIRST && slots[1] == ZERO
    ensures FindZero(slots) == 1 && FindPair(slots, ([2], [])) > 0
  {
  }

  /** Without the table, a revocation leaves its slot as it was. */
  lemma UnmappedSurvives(env: Env, c: Bytes, rules: Rules, maxNode: nat) returns (es: seq<Event>)
    requires Ground(env, c) && env.decode(1) && maxNode >= 2 && !rules.mapped
    ensures RunObeys(env, rules, Init(maxNode), es) && Stale(Run(env, Init(maxNode), es).store)
  {
    es := RevokeIssued(env, c, rules, maxNode, false);
    hide Run, RunObeys, Ground;
    assert Run(env, Init(maxNode), es).store.slots[0].status == 1;
  }

  /** A check of key 1 has read the row and is about to write its slot. */
  lemma CheckPending(env: Env, c: Bytes, rules: Rules, maxNode: nat) returns (es: seq<Event>)
    requires Ground(env, c) && env.decode(1) && maxNode >= 2
    ensures RunObeys(env, rules, Init(maxNode), es)
    ensures var s := Run(env, Init(maxNode), es);
            Issued(s.store, maxNode) && s.jobs == map[1 := Cache(FIRST, EmptyProof(env, c, KEYCHECK, [1]))]
  {
    es := IssueFirst(env, c, rules, maxNode);
    hide Serve, Init, FindPair, FindZero, Ground;
    assert CString([1]) == [1] && CString([]) == [];
    var s := Run(env, Init(maxNode), es);
    var req := EmptyProof(env, c, KEYCHECK, [1]);
    FoundFirst(s.store.slots, ([1], []));
    CheckFirst(env, c, s.store, 1, [1], 0);
    CheckUnfolds(env, s.store, 1, req, LUCKY);
    hide Ground, Run, RunObeys, VerifyKey;
    es := AddQuery(env, rules, Init(maxNode), es, 1, req);
  }

  /** The revocation of key 1 goes through while the check is pending. */
  lemma RevokedWhilePending(env: Env, c: Bytes, rules: Rules, maxNode: nat) returns (es: seq<Event>)
    requires Ground(env, c) && env.decode(1) && maxNode >= 2 && !rules.serial
    ensures RunObeys(env, rules, Init(maxNode), es)
    ensures var s := Run(env, Init(maxNode), es);
            && s.jobs == map[1 := Cache(FIRST, EmptyProof(env, c, KEYCHECK, [1]))]
            && s.store.slots != [] && s.store.slots[0] == FIRST.(status := 0)
            && 1 in s.store.rows && s.store.rows[1].state == 0
  {
    es := CheckPending(env, c, rules, maxNode);
    hide Serve, Init, Run, RunObeys, Ground;
    assert CString([1]) == [1] && CString([]) == [];
    var st := Run(env, Init(maxNode), es).store;
    RevokeFirst(env, c, st, 2, true);
    es := AddSession(env, rules, Init(maxNode), es, 2, EmptyProof(env, c, KEYREVOKE, [1]), LUCKY);
  }

  /** A check that has read the row before a revocation writes its slot after it. */
  lemma InterleavingRevives(env: Env, c: Bytes, rules: Rules, maxNode: nat) returns (es: seq<Event>)
    requires Ground(env, c) && env.decode(1) && maxNode >= 2 && !rules.serial
    ensures RunObeys(env, rules, Init(maxNode), es) && Stale(Run(env, Init(maxNode), es).store)
  {
    es := RevokedWhilePending(env, c, rules, maxNode);
    hide Init, FindPair, FindZero, Run, RunObeys, Ground;
    FoundFirst(Run(env, Init(maxNode), es).store.slots, ([1], []));
    es := AddEvent(env, rules, Init(maxNode), es, Step(1, LUCKY));
    assert Run(env, Init(maxNode), es).store.slots[0].status == 1;
  }

  /** A key whose insertion is lost is valid in the table, and there is no row. */
  lemma LostInsertionIsValid(env: Env, c: Bytes, rules: Rules, maxNode: nat) returns (es: seq<Event>)
    requires Ground(env, c) && maxNode > 0 && !rules.saved
    ensures RunObeys(env, rules, Init(maxNode), es) && Stale(Run(env, Init(maxNode), es).store)
  {
    var s, luck := Init(maxNode), LUCKY.(insert := LosesCommit);
    var req := EmptyProof(env, c, PREKEY, [1]);
    FirstPasses(env, c, s.store);
    FirstIsStored(env, c);
    FirstIsWritten(s.store.slots);
    PremasterUnfolds(env, s.store, 1, req, luck);
    assert Run(env, s, []) == s && RunObeys(env, rules, s, []);
    hide Ground, Serve, Run, RunObeys, Write, IntToString, CString, VerifyPremaster, Storable, RowOf;
    es := AddSession(env, rules, s, [], 1, req, luck);
    assert Run(env, s, es).store.slots[0] == FIRST;
  }

  /** A revocation whose update is lost is undone by a check. */
  lemma LostUpdateRevives(env: Env, c: Bytes, rules: Rules, maxNode: nat) returns (es: seq<Event>)
    requires Ground(env, c) && env.decode(1) && maxNode >= 2 && !rules.updated
    ensures RunObeys(env, rules, Init(maxNode), es) && !TableHonest(Run(env, Init(maxNode), es))
  {
    es := IssueFirst(env, c, rules, maxNode);
    hide Run, RunObeys, Serve, Init, Ground, FindPair, FindZero;
    assert CString([1]) == [1] && CString([]) == [];
    LostRevocation(env, c, Run(env, Init(maxNode), es).store, 1);
    MarkFirst(Run(env, Init(maxNode), es).store.slots);
    es := AddSession(env, rules, Init(maxNode), es, 1, EmptyProof(env, c, KEYREVOKE, [1]), FORGETFUL);
    var s := Run(env, Init(maxNode), es);
    assert LogEntry(KEYREVOKE, 1, SUCCESS) == s.log[|s.log| - 1];
    FoundFirst(s.store.slots, ([1], []));
    CheckFirst(env, c, s.store, 1, [1], 0);
    es := AddSession(env, rules, Init(maxNode), es, 1, EmptyProof(env, c, KEYCHECK, [1]), LUCKY);
    assert Run(env, Init(maxNode), es).store.slots[0].status == 1;
    assert forall x :: x in s.log ==> x in Run(env, Init(maxNode), es).log;
    assert Revoked(Run(env, Init(maxNode), es).log, 1);
  }

  // ---------------------------------------------------------------- runs with a key revoked twice

  /** Key 1 has been issued to the client named 1; whether the table had room does not matter. */
  lemma IssueRow(env: Env, c: Bytes, rules: Rules, maxNode: nat) returns (es: seq<Event>)
    requires Ground(env, c)
    ensures RunObeys(env, rules, Init(maxNode), es)
    ensures var s := Run(env, Init(maxNode), es);
            s.jobs == map[] && s.store.rows == map[1 := Row([1], [], 1, [], [], ([1], []))]
  {
    var s := Init(maxNode);
    var req := EmptyProof(env, c, PREKEY, [1]);
    FirstPasses(env, c, s.store);
    FirstIsStored(env, c);
    PremasterUnfolds(env, s.store, 1, req, LUCKY);
    assert Run(env, s, []) == s && RunObeys(env, rules, s, []);
    hide Ground, Serve, Run, RunObeys, Write, IntToString, CString, VerifyPremaster, Storable, RowOf;
    es := AddSession(env, rules, s, [], 1, req, LUCKY);
  }

  lemma RevokeRow(env: Env, c: Bytes, st: Store, fd: int)
    requires Ground(env, c) && 1 in st.rows && st.rows[1].authKey == [] && st.rows[1].endeKey == []
    requires env.decode(st.rows[1].state)
    ensures var req := EmptyProof(env, c, KEYREVOKE, [1]);
            && VerifyKey(env, st, req, true) == MarkSlot(req)
            && Logged(Serve(env, st, fd, req, LUCKY).1) == LogEntry(KEYREVOKE, 1, SUCCESS)
            && Serve(env, st, fd, req, LUCKY).0.rows == st.rows[1 := st.rows[1].(state := 0)]
  {
    EmptyProofIsAdmitted(env, c, st, KEYREVOKE, [1]);
    RevokeUnfolds(env, st, fd, EmptyProof(env, c, KEYREVOKE, [1]), LUCKY);
    hide Serve, Mark, Verified, Ground;
  }

  const FORGETFUL: Luck := LUCKY.(update := UpdateLost)

  /** A revocation whose update is lost succeeds and leaves the row. */
  lemma LostRevocation(env: Env, c: Bytes, st: Store, fd: int)
    requires Ground(env, c) && env.decode(1) && 1 in st.rows && st.rows[1] == Row([1], [], 1, [], [], ([1], []))
    ensures var (st', r) := Serve(env, st, fd, EmptyProof(env, c, KEYREVOKE, [1]), FORGETFUL);
            && Logged(r) == LogEntry(KEYREVOKE, 1, SUCCESS)
            && st'.rows == st.rows && st'.slots == Mark(st.slots, 1, 0).0
  {
    EmptyProofIsAdmitted(env, c, st, KEYREVOKE, [1]);
    RevokeUnfolds(env, st, fd, EmptyProof(env, c, KEYREVOKE, [1]), FORGETFUL);
    hide Serve, Mark, Verified, Ground;
  }

  /** Key 1 was revoked twice, each time with success. */
  ghost predicate RevokedTwice(log: seq<LogEntry>) {
    exists i, j :: 0 <= i < j < |log| && log[i] == log[j] == LogEntry(KEYREVOKE, 1, SUCCESS)
  }

  /** A decoding that reads both states as true lets a key be revoked again. */
  lemma BadDecodingRevokesTwice(env: Env, c: Bytes, rules: Rules, maxNode: nat) returns (es: seq<Event>)
    requires Ground(env, c) && env.decode(0) && env.decode(1)
    ensures RunObeys(env, rules, Init(maxNode), es) && RevokedTwice(Run(env, Init(maxNode), es).log)
  {
    es := IssueRow(env, c, rules, maxNode);
    hide Run, RunObeys, Serve, Init, Ground, VerifyKey;
    assert CString([1]) == [1] && CString([]) == [];
    var req := EmptyProof(env, c, KEYREVOKE, [1]);
    var i := |Run(env, Init(maxNode), es).log|;
    RevokeRow(env, c, Run(env, Init(maxNode), es).store, 1);
    es := AddSession(env, rules, Init(maxNode), es, 1, req, LUCKY);
    RevokeRow(env, c, Run(env, Init(maxNode), es).store, 1);
    es := AddSession(env, rules, Init(maxNode), es, 1, req, LUCKY);
    var log := Run(env, Init(maxNode), es).log;
    assert log[i] == log[i + 1] == LogEntry(KEYREVOKE, 1, SUCCESS);
  }

  /** A revocation whose commit is lost is answered with success, and can be made again. */
  lemma LostUpdateRevokesTwice(env: Env, c: Bytes, rules: Rules, maxNode: nat) returns (es: seq<Event>)
    requires Ground(env, c) && env.decode(1) && !rules.updated
    ensures RunObeys(env, rules, Init(maxNode), es) && RevokedTwice(Run(env, Init(maxNode), es).log)
  {
    es := IssueRow(env, c, rules, maxNode);
    hide Run, RunObeys, Serve, Init, Ground;
    assert CString([1]) == [1] && CString([]) == [];
    var req := EmptyProof(env, c, KEYREVOKE, [1]);
    var i := |Run(env, Init(maxNode), es).log|;
    LostRevocation(env, c, Run(env, Init(maxNode), es).store, 1);
    es := AddSession(env, rules, Init(maxNode), es, 1, req, FORGETFUL);
    LostRevocation(env, c, Run(env, Init(maxNode), es).store, 1);
    es := AddSession(env, rules, Init(maxNode), es, 1, req, FORGETFUL);
    var log := Run(env, Init(maxNode), es).log;
    assert log[i] == log[i + 1] == LogEntry(KEYREVOKE, 1, SUCCESS);
  }

  lemma MarkedIsRevoked(env: Env, st: Store, fd: int, req: Request)
    requires req.kind == KEYREVOKE
    ensures Logged(Finish(env, st, fd, MarkSlot(req), LUCKY).1) == LogEntry(KEYREVOKE, req.keyId, SUCCESS)
  {
    var st' := st.(slots := Mark(st.slots, req.keyId, 0).0);
    FinishUnfolds(env, st, fd, MarkSlot(req), LUCKY);
    FinishUnfolds(env, st', fd, StoreState(req), LUCKY);
    hide Finish, Mark;
  }

  /** Two revocations read the row before either has changed it. */
  lemma InterleavingRevokesTwice(env: Env, c: Bytes, rules: Rules, maxNode: nat) returns (es: seq<Event>)
    requires Ground(env, c) && env.decode(1) && !rules.serial
    ensures RunObeys(env, rules, Init(maxNode), es) && RevokedTwice(Run(env, Init(maxNode), es).log)
  {
    es := IssueRow(env, c, rules, maxNode);
    hide Run, RunObeys, Serve, Finish, Init, Ground, VerifyKey;
    assert CString([1]) == [1] && CString([]) == [];
    var req := EmptyProof(env, c, KEYREVOKE, [1]);
    RevokeRow(env, c, Run(env, Init(maxNode), es).store, 2);
    var i := |Run(env, Init(maxNode), es).log|;
    es := AddQuery(env, rules, Init(maxNode), es, 1, req);
    es := AddSession(env, rules, Init(maxNode), es, 2, req, LUCKY);
    MarkedIsRevoked(env, Run(env, Init(maxNode), es).store, 1, req);
    es := AddRest(env, rules, Init(maxNode), es, 1);
    var log := Run(env, Init(maxNode), es).log;
    assert log[i] == log[i + 1] == LogEntry(KEYREVOKE, 1, SUCCESS);
  }

  /** Revocation is permanent exactly when handlers are serial, no commit of an update is lost, and a
      revoked state does not read as true: no check or revocation of a key succeeds after a revocation of it has. */
  lemma PermanentExactlyWhen(env: Env, c: Bytes, rules: Rules, maxNode: nat)
    requires Ground(env, c) && env.decode(1)
    ensures (forall es :: RunObeys(env, rules, Init(maxNode), es) ==> Permanent(Run(env, Init(maxNode), es).log))
            <==> rules.serial && rules.updated && !env.decode(0)
  {
    if rules.serial && rules.updated && !env.decode(0) {
      forall es | RunObeys(env, rules, Init(maxNode), es) ensures Permanent(Run(env, Init(maxNode), es).log) {
        SerialSuffices(env, rules, maxNode, es);
      }
    } else {
      var es;
      if env.decode(0) { es := BadDecodingRevokesTwice(env, c, rules, maxNode); }
      else if !rules.serial { es := InterleavingRevokesTwice(env, c, rules, maxNode); }
      else { es := LostUpdateRevokesTwice(env, c, rules, maxNode); }
      TwiceIsNotPermanent(Run(env, Init(maxNode), es).log);
    }
  }

  lemma TwiceIsNotPermanent(log: seq<LogEntry>)
    requires RevokedTwice(log)
    ensures !Permanent(log)
  {
    var i, j :| 0 <= i < j < |log| && log[i] == log[j] == LogEntry(KEYREVOKE, 1, SUCCESS);
    assert Uses(log[j], 1);
  }

  /** The table stays honest exactly when all the rules are kept and a revoked state does not read
      as true. */
  lemma TableHonestExactlyWhen(env: Env, c: Bytes, rules: Rules, maxNode: nat)
    requires Ground(env, c) && env.decode(1) && maxNode >= 2
    ensures (forall es :: RunObeys(env, rules, Init(maxNode), es) ==> TableHonest(Run(env, Init(maxNode), es)))
            <==> rules == ALL && !env.decode(0)
  {
    if rules == ALL && !env.decode(0) {
      forall es | RunObeys(env, rules, Init(maxNode), es) ensures TableHonest(Run(env, Init(maxNode), es)) {
        AllRulesSuffice(env, maxNode, es);
      }
    } else {
      var es;
      if env.decode(0) { es := BadDecodingRevives(env, c, rules, maxNode); }
      else if !rules.serial { es := InterleavingRevives(env, c, rules, maxNode); }
      else if !rules.pair { es := ForeignPairSurvives(env, c, rules, maxNode); }
      else if !rules.mapped { es := UnmappedSurvives(env, c, rules, maxNode); }
      else if !rules.saved { es := LostInsertionIsValid(env, c, rules, maxNode); }
      else { es := LostUpdateRevives(env, c, rules, maxNode); }
      assert !TableHonest(Run(env, Init(maxNode), es));
    }
  }

  /** As written, the server reads every state as true: there is a run that keeps all the rules and
      revokes a key twice, and one that leaves a stale slot. */
  lemma AsWrittenRevocationFails(env: Env, c: Bytes, maxNode: nat)
    requires Ground(env, c) && env.decode == DECODE_AS_WRITTEN
    ensures exists es :: RunObeys(env, ALL, Init(maxNode), es) && RevokedTwice(Run(env, Init(maxNode), es).log)
    ensures maxNode >= 2 ==>
              exists es :: RunObeys(env, ALL, Init(maxNode), es) && Stale(Run(env, Init(maxNode), es).store)
  {
    var es := BadDecodingRevokesTwice(env, c, ALL, maxNode);
    if maxNode >= 2 { var fs := BadDecodingRevives(env, c, ALL, maxNode); }
  }

  // ---------------------------------------------------------------- before a revocation

  predicate Revoking(job: Job, k: int) {
    job.Reply? && job.resp.kind == KEYREVOKE && job.resp.keyId == k && job.resp.rv == SUCCESS
  }

  /** Row k is live, or its revocation has been answered, or is about to be. */
  ghost predicate Accounted(s: State, k: int) {
    || (k in s.store.rows ==> s.store.rows[k].state == 1)
    || Revoked(s.log, k)
    || exists fd :: fd in s.jobs && Revoking(s.jobs[fd], k)
  }

  predicate KindsFit(job: Job) {
    match job
    case Query(req) => Presents(req)
    case MarkSlot(req) => req.kind == KEYREVOKE
    case StoreState(req) => req.kind == KEYREVOKE
    case _ => true
  }

  ghost predicate AllFit(s: State) { forall fd :: fd in s.jobs ==> KindsFit(s.jobs[fd]) }

  lemma ActAccounts(env: Env, st: Store, fd: int, job: Job, luck: Luck, k: int)
    requires !job.Reply? && KindsFit(job)
    ensures var (st', job') := Act(env, st, fd, job, luck);
            && KindsFit(job')
            && (k in st'.rows ==>
                  st'.rows[k].state == 1 || (k in st.rows && st'.rows[k] == st.rows[k]) || Revoking(job', k))
  {
    hide Write, Mark, Verified, IntToString, CString;
  }

  lemma AccountStep(env: Env, s: State, e: Event, k: int)
    requires AllFit(s) && Accounted(s, k)
    ensures AllFit(Next(env, s, e)) && Accounted(Next(env, s, e), k)
  {
    hide Act;
    var s' := Next(env, s, e);
    if Enabled(s, e) {
      match e
      case Start(fd, req) => KeepRevoking(s, s', fd, k);
      case Step(fd, luck) =>
        ActAccounts(env, s.store, fd, s.jobs[fd], luck, k);
        KeepRevoking(s, s', fd, k);
        if Revoking(s'.jobs[fd], k) { assert Accounted(s', k); }
      case Send(fd) =>
        assert s'.log[|s.log|] == Logged(s.jobs[fd].resp);
        assert forall x :: x in s.log ==> x in s'.log;
        if Revoking(s.jobs[fd], k) { assert Revoked(s'.log, k); } else { KeepRevoking(s, s', fd, k); }
    }
  }

  /** The answers under way of other connections stay under way. */
  lemma KeepRevoking(s: State, s': State, fd: int, k: int)
    requires fd in s.jobs ==> !Revoking(s.jobs[fd], k)
    requires forall g :: g in s.jobs && g != fd ==> g in s'.jobs && s'.jobs[g] == s.jobs[g]
    ensures (exists g :: g in s.jobs && Revoking(s.jobs[g], k)) ==> exists g :: g in s'.jobs && Revoking(s'.jobs[g], k)
  {
    if g :| g in s.jobs && Revoking(s.jobs[g], k) {
      assert g in s'.jobs && Revoking(s'.jobs[g], k);
    }
  }

  lemma {:induction false} AccountedInEveryRun(env: Env, s: State, es: seq<Event>, k: int)
    requires AllFit(s) && Accounted(s, k)
    ensures Accounted(Run(env, s, es), k)
    decreases |es|
  {
    if es != [] {
      AccountStep(env, s, es[0], k);
      hide Accounted, AllFit;
      AccountedInEveryRun(env, Next(env, s, es[0]), es[1..], k);
    }
  }

  /** Until its revocation is answered, or about to be, a key's row keeps its state. */
  lemma LiveUntilRevoked(env: Env, maxNode: nat, es: seq<Event>, k: int)
    requires var s := Run(env, Init(maxNode), es);
             && k in s.store.rows && !Revoked(s.log, k)
             && forall g :: g in s.jobs ==> !Revoking(s.jobs[g], k)
    ensures Run(env, Init(maxNode), es).store.rows[k].state == 1
  {
    AccountedInEveryRun(env, Init(maxNode), es, k);
    hide Run, Revoked, Revoking;
  }

  lemma CheckSucceedsExactlyWhen(env: Env, st: Store, fd: int, req: Request, luck: Luck)
    requires req.kind == KEYCHECK
    ensures Serve(env, st, fd, req, luck).1.rv == SUCCESS
            <==> Admitted(env, st, req, luck.queryOk) && luck.mapped
                 && HasRoom(st.slots, (CString(req.client), CString(req.server)))
  {
    CheckUnfolds(env, st, fd, req, luck);
    if req.keyId in st.rows {
      var row := st.rows[req.keyId];
      RoomIsWritable(st.slots, NodeOf(req, 1, req.keyId, row.authKey, row.endeKey));
    }
    hide Serve, Write, HasRoom, Verified, CString;
  }

  /** Until its revocation is answered with success, a key stays good: after any run, with other
      handlers at any stage except one about to answer that revocation, whoever holds the row's keys
      passes a check exactly when both keys are short enough to be encrypted, the query works, and
      the table is attached and has room for the pair. */
  lemma HolderPassesUntilRevoked(env: Env, maxNode: nat, es: seq<Event>, fd: int, node: Node, cipher: Bytes, luck: Luck)
    requires GoodCrypto(env) && env.decode(1) && IsCipher(env, node.authKey + node.endeKey, cipher)
    requires var s := Run(env, Init(maxNode), es);
             && Agrees(s.store, node) && !Revoked(s.log, node.keyId)
             && forall g :: g in s.jobs ==> !Revoking(s.jobs[g], node.keyId)
    requires 0 !in node.client && 0 !in node.server
    ensures var st := Run(env, Init(maxNode), es).store;
            Serve(env, st, fd, ProofRequest(env, KEYCHECK, node, cipher), luck).1.rv == SUCCESS
            <==> |node.authKey| + |node.endeKey| < PLAIN && luck.queryOk && luck.mapped
                 && HasRoom(st.slots, PairOf(node))
  {
    var st := Run(env, Init(maxNode), es).store;
    LiveUntilRevoked(env, maxNode, es, node.keyId);
    hide GoodCrypto, Run, Serve, HasRoom, Admitted, IsCipher;
    HolderIsAdmitted(env, st, KEYCHECK, node, cipher, luck.queryOk);
    CheckSucceedsExactlyWhen(env, st, fd, ProofRequest(env, KEYCHECK, node, cipher), luck);
  }
}
