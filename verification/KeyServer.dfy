/**
 The server's four handlers as a state machine. A handler is a job of its connection (one at a
 time, see OneTaskPerConnection); each access to the nonce map, the shared-memory table or the
 database is one atomic step, and jobs of different connections interleave. A run is a list of
 events; an event that is not enabled changes nothing.
 */
module KeyServer {
  import opened Bytes
  import opened SlotTable
  import opened SqlText

  const RANDOMNUM: int := 0
  const PREKEY: int := 1
  const KEYCHECK: int := 2
  const KEYREVOKE: int := 3

  const SUCCESS: int := 0
  const AUTHERR: int := 1
  const SERVERERR: int := 2

  /** RSA decryption with the server's key, SHA-256 and HMAC-SHA-256 are functions of their inputs;
      `decode` is how a row's state column is turned into a bool; the public key is a string;
      `stored` is what the database makes of text between quotes, if it stays one literal. */
  datatype Env = Env(dec: Bytes -> Bytes, hash: Bytes -> Bytes, hmac: (Bytes, Bytes) -> Bytes,
                     decode: int -> bool, publicKey: Bytes, stored: Bytes -> Option<Bytes>)

  /** querySecKey assigns the column's char pointer to the bool: any state reads as true. */
  const DECODE_AS_WRITTEN: int -> bool := _ => true

  /** writeSecKey puts names and keys between quotes and escapes nothing. */
  const DATABASE: Bytes -> Option<Bytes> := t => Literal(t)

  datatype Request = Request(kind: int, client: Bytes, server: Bytes, authCode: Bytes, data: Bytes, keyId: int)

  datatype Response = Response(kind: int, rv: int, client: Bytes, server: Bytes, data: Bytes, keyId: int)

  /** A row's texts as a query gives them back. `owner` is no column: it notes the names that the
      key was issued to. */
  datatype Row = Row(client: Bytes, server: Bytes, state: int, authKey: Bytes, endeKey: Bytes, owner: Pair)

  /** `lost` is no state of the server: it notes the IDs handed out by insertions that were not kept. */
  datatype Store = Store(nonces: map<int, (Bytes, Bytes)>, slots: seq<Node>, rows: map<int, Row>, nextId: int,
                         lost: set<int>)

  /** Where a handler is. */
  datatype Job =
    | Random(req: Request)        // about to save the nonces
    | Premaster(req: Request)     // about to take the nonces and verify
    | Insert(node: Node, req: Request)
    | Cache(node: Node, req: Request)    // about to write the table; PREKEY or KEYCHECK
    | Query(req: Request)         // about to query and verify; KEYCHECK or KEYREVOKE
    | MarkSlot(req: Request)      // about to clear the slot's status
    | StoreState(req: Request)    // about to clear the row's state
    | Reply(resp: Response)

  /** What the outside decides for a step: the nonce drawn, the database's and shmat's outcome. */
  datatype Luck = Luck(nonce: Bytes, insert: InsertLuck, queryOk: bool, mapped: bool, update: UpdateLuck)

  /** What a commit returns is not looked at: a statement that works may still be lost. */
  datatype InsertLuck = Works | Fails | LosesId | LosesCommit
  datatype UpdateLuck = Updates | UpdateFails | UpdateLost

  datatype LogEntry = LogEntry(kind: int, keyId: int, rv: int)

  datatype State = State(store: Store, jobs: map<int, Job>, log: seq<LogEntry>)

  // ---------------------------------------------------------------- payload of the RANDOMNUM reply

  function Payload(nonce: Bytes, key: Bytes): Bytes {
    LittleEndian32(|nonce| % TWO32) + nonce + LittleEndian32(|key| % TWO32) + key
  }

  lemma PayloadIs(nonce: Bytes, key: Bytes)
    requires |nonce| < TWO32 && |key| < TWO32
    ensures Payload(nonce, key) == LittleEndian32(|nonce|) + nonce + LittleEndian32(|key|) + key
  {
    hide LittleEndian32;
  }

  /** The payload octet by octet: each part after its length, least significant octet first. */
  lemma PayloadOctets(nonce: Bytes, key: Bytes)
    requires |nonce| < TWO32 && |key| < TWO32
    ensures var (d, n) := (Payload(nonce, key), |nonce|);
            && |d| == 8 + n + |key| && d[4..4 + n] == nonce && d[8 + n..] == key
            && d[0] as int + 256 * (d[1] as int) + 65536 * (d[2] as int) + 16777216 * (d[3] as int) == n
            && d[4 + n] as int + 256 * (d[5 + n] as int) + 65536 * (d[6 + n] as int)
               + 16777216 * (d[7 + n] as int) == |key|
  {
    hide *;
    var d := Payload(nonce, key);
    PayloadIs(nonce, key);
    FourParts(LittleEndian32(|nonce|), nonce, LittleEndian32(|key|), key);
    assert d[8 + |nonce|..8 + |nonce| + |key|] == d[8 + |nonce|..] && d[0..4] == d[..4];
    WordAt(Payload(nonce, key), 0, |nonce|);
    WordAt(Payload(nonce, key), 4 + |nonce|, |key|);
  }

  // ---------------------------------------------------------------- key derivation and verification

  function Prefix4(b: Bytes): Bytes { if |b| <= 4 then b else b[..4] }

  function EndeKey(client: Bytes, server: Bytes, premaster: Bytes): Bytes { client + Prefix4(server) + premaster }

  function AuthKey(client: Bytes, server: Bytes, premaster: Bytes): Bytes { Prefix4(client) + server + premaster }

  /** What is derived: the encryption key is the client's nonce, up to four octets of the server's, and the
      premaster; the authentication key is cut the other way round. Both end with the premaster, so that
      different premasters give different keys. */
  lemma DerivedKeys(cn: Bytes, sn: Bytes, premaster: Bytes, other: Bytes)
    ensures |cn| >= 4 && |sn| >= 4 ==>
              EndeKey(cn, sn, premaster) == cn + sn[..4] + premaster
              && AuthKey(cn, sn, premaster) == cn[..4] + sn + premaster
    ensures EndeKey(cn, sn, premaster) == cn + sn[..if |sn| < 4 then |sn| else 4] + premaster
    ensures AuthKey(cn, sn, premaster) == cn[..if |cn| < 4 then |cn| else 4] + sn + premaster
    ensures premaster != other ==> EndeKey(cn, sn, premaster) != EndeKey(cn, sn, other)
                                   && AuthKey(cn, sn, premaster) != AuthKey(cn, sn, other)
  {
    var (k, l) := (if |sn| < 4 then |sn| else 4, if |cn| < 4 then |cn| else 4);
    assert EndeKey(cn, sn, premaster)[|cn| + k..] == premaster && EndeKey(cn, sn, other)[|cn| + k..] == other;
    assert AuthKey(cn, sn, premaster)[l + |sn|..] == premaster && AuthKey(cn, sn, other)[l + |sn|..] == other;
  }

  function Answer(req: Request, rv: int, data: Bytes): Job {
    Reply(Response(req.kind, rv, CString(req.client), CString(req.server), data, req.keyId))
  }

  /** strcpy into the node's fields stops at the first NUL. */
  function NodeOf(req: Request, status: int, keyId: int, authKey: Bytes, endeKey: Bytes): Node {
    Node(status, keyId, CString(req.client), CString(req.server), CString(endeKey), CString(authKey))
  }

  function ToDecimal(n: nat): (d: Bytes)
    ensures d != [] && forall i :: 0 <= i < |d| ==> 48 <= d[i] < 58
  {
    if n < 10 then [48 + n] else ToDecimal(n / 10) + [48 + n % 10]
  }

  function Power10(k: nat): nat { if k == 0 then 1 else 10 * Power10(k - 1) }

  /** The sum of what each digit is worth at its place. */
  function Weight(d: Bytes): int {
    if d == [] then 0 else (d[0] - 48) * Power10(|d| - 1) + Weight(d[1..])
  }

  lemma {:induction false} WeightAppend(d: Bytes, x: byte)
    ensures Weight(d + [x]) == 10 * Weight(d) + x - 48
    decreases |d|
  {
    if d == [] {
      assert d + [x] == [x] && Weight([x][1..]) == 0 && Power10(0) == 1;
    } else {
      WeightAppend(d[1..], x);
      assert (d + [x])[1..] == d[1..] + [x];
      assert Power10(|d|) == 10 * Power10(|d| - 1);
    }
  }

  /** The decimal stands for the number, in digits that are worth ten times as much at each place, without
      leading zeros. */
  lemma {:induction false} DecimalIsPositional(n: nat)
    ensures Weight(ToDecimal(n)) == n && (n > 0 ==> ToDecimal(n)[0] != 48)
    decreases n
  {
    if n < 10 {
      WeightAppend([], 48 + n);
      assert [] + [48 + n] == ToDecimal(n);
    } else {
      DecimalIsPositional(n / 10);
      WeightAppend(ToDecimal(n / 10), 48 + n % 10);
    }
  }

  function IntToString(n: int): Bytes { if n < 0 then [45] + ToDecimal(-n) else ToDecimal(n) }

  /** The request proves knowledge of the row's keys. */
  predicate Verified(env: Env, req: Request, row: Row) {
    env.hmac(row.authKey, env.hash(req.data)) == req.authCode && env.dec(req.data) == row.authKey + row.endeKey
  }

  // ---------------------------------------------------------------- one atomic step of a job

  function TakeNonces(st: Store, fd: int): (Bytes, Bytes) {
    if fd in st.nonces then st.nonces[fd] else ([], [])
  }

  function VerifyPremaster(env: Env, st: Store, fd: int, req: Request): (Store, Job) {
    var (cn, sn) := TakeNonces(st, fd);
    var premaster := env.dec(req.data);
    var authKey, endeKey := AuthKey(cn, sn, premaster), EndeKey(cn, sn, premaster);
    var st' := st.(nonces := st.nonces - {fd});
    if env.hmac(authKey, env.hash(req.data)) != req.authCode then (st', Answer(req, AUTHERR, []))
    else (st', Insert(NodeOf(req, 0, 0, authKey, endeKey), req))
  }

  /** The statement stays the insertion of this node. */
  predicate Storable(env: Env, n: Node) {
    env.stored(n.client).Some? && env.stored(n.server).Some? && env.stored(n.authKey).Some?
      && env.stored(n.endeKey).Some?
  }

  /** What a query gives back of text that was put between quotes: a C string. */
  function Column(env: Env, t: Bytes): (c: Bytes)
    ensures 0 !in c
  {
    match env.stored(t) case Some(x) => CString(x) case None => []
  }

  function RowOf(env: Env, n: Node): Row {
    Row(Column(env, n.client), Column(env, n.server), 1, Column(env, n.authKey), Column(env, n.endeKey), PairOf(n))
  }

  function InsertRow(env: Env, st: Store, node: Node): Store {
    st.(rows := st.rows[st.nextId := RowOf(env, node)], nextId := st.nextId + 1)
  }

  /** The insertion works and its ID is asked for: the row is there unless the commit was lost. */
  predicate GivesId(luck: InsertLuck) { luck.Works? || luck.LosesCommit? }

  function SaveRow(env: Env, st: Store, node: Node, luck: InsertLuck): Store {
    if luck.LosesCommit? then st.(nextId := st.nextId + 1, lost := st.lost + {st.nextId}) else InsertRow(env, st, node)
  }

  function VerifyKey(env: Env, st: Store, req: Request, ok: bool): Job {
    if !ok || req.keyId !in st.rows || !env.decode(st.rows[req.keyId].state) then Answer(req, AUTHERR, [])
    else
      var row := st.rows[req.keyId];
      if !Verified(env, req, row) then Answer(req, AUTHERR, [])
      else if req.kind == KEYCHECK then Cache(NodeOf(req, 1, req.keyId, row.authKey, row.endeKey), req)
      else MarkSlot(req)
  }

  function WriteCache(st: Store, node: Node, req: Request, mapped: bool): (Store, Job) {
    var data := if req.kind == PREKEY then IntToString(node.keyId) else [];
    if !mapped then (st, Answer(req, SERVERERR, data)) else
    var (slots, ok) := Write(st.slots, node);
    (st.(slots := slots), Answer(req, if ok then SUCCESS else SERVERERR, data))
  }

  function ClearState(st: Store, k: int): Store {
    if k in st.rows then st.(rows := st.rows[k := st.rows[k].(state := 0)]) else st
  }

  /** Steps that are left, at most. */
  function Rank(job: Job): nat {
    match job
    case Premaster(_) => 3
    case Query(_) => 3
    case Insert(_, _) => 2
    case MarkSlot(_) => 2
    case Random(_) => 1
    case Cache(_, _) => 1
    case StoreState(_) => 1
    case Reply(_) => 0
  }

  function Act(env: Env, st: Store, fd: int, job: Job, luck: Luck): (r: (Store, Job))
    requires !job.Reply?
    ensures Rank(r.1) < Rank(job)
  {
    match job
    case Random(req) =>
      (st.(nonces := st.nonces[fd := (req.data, luck.nonce)]),
       Answer(req, SUCCESS, Payload(luck.nonce, env.publicKey)))
    case Premaster(req) => VerifyPremaster(env, st, fd, req)
    case Insert(node, req) =>
      // text that does not stay one literal is taken to make the statement fail
      if luck.insert.Fails? || !Storable(env, node) then (st, Answer(req, SERVERERR, []))
      else if luck.insert.LosesId? then (InsertRow(env, st, node), Answer(req, SERVERERR, []))
      else (SaveRow(env, st, node, luck.insert), Cache(node.(keyId := st.nextId, status := 1), req))
    case Cache(node, req) => WriteCache(st, node, req, luck.mapped)
    case Query(req) => (st, VerifyKey(env, st, req, luck.queryOk))
    case MarkSlot(req) =>
      // a missing node and a table that cannot be attached both go on to the database
      (if luck.mapped then st.(slots := Mark(st.slots, req.keyId, 0).0) else st, StoreState(req))
    case StoreState(req) =>
      (match luck.update
       case Updates => (ClearState(st, req.keyId), Answer(req, SUCCESS, []))
       case UpdateLost => (st, Answer(req, SUCCESS, []))
       case UpdateFails => (st, Answer(req, SERVERERR, [])))
  }

  /** workThread's switch; any other type is not answered. */
  function FirstStep(req: Request): Option<Job> {
    if req.kind == RANDOMNUM then Some(Random(req))
    else if req.kind == PREKEY then Some(Premaster(req))
    else if req.kind == KEYCHECK || req.kind == KEYREVOKE then Some(Query(req))
    else None
  }

  // ---------------------------------------------------------------- runs

  datatype Event = Start(fd: int, req: Request) | Step(fd: int, luck: Luck) | Send(fd: int)

  predicate Enabled(s: State, e: Event) {
    match e
    case Start(fd, req) => fd !in s.jobs && FirstStep(req).Some?
    case Step(fd, _) => fd in s.jobs && !s.jobs[fd].Reply?
    case Send(fd) => fd in s.jobs && s.jobs[fd].Reply?
  }

  function Next(env: Env, s: State, e: Event): State {
    if !Enabled(s, e) then s else
    match e
    case Start(fd, req) => s.(jobs := s.jobs[fd := FirstStep(req).value])
    case Step(fd, luck) =>
      var (st, job) := Act(env, s.store, fd, s.jobs[fd], luck);
      s.(store := st, jobs := s.jobs[fd := job])
    case Send(fd) =>
      var r := s.jobs[fd].resp;
      s.(jobs := s.jobs - {fd}, log := s.log + [LogEntry(r.kind, r.keyId, r.rv)])
  }

  function Run(env: Env, s: State, es: seq<Event>): State
    decreases |es|
  {
    if es == [] then s else Run(env, Next(env, s, es[0]), es[1..])
  }

  function Init(maxNode: nat): State {
    State(Store(map[], seq(maxNode, i => ZERO), map[], 1, {}), map[], [])
  }

  // ---------------------------------------------------------------- one handler undisturbed

  /** A handler carried through to its reply. */
  function Finish(env: Env, st: Store, fd: int, job: Job, luck: Luck): (r: (Store, Response))
    decreases Rank(job)
  {
    if job.Reply? then (st, job.resp) else
    var (st', job') := Act(env, st, fd, job, luck);
    Finish(env, st', fd, job', luck)
  }

  function Serve(env: Env, st: Store, fd: int, req: Request, luck: Luck): (Store, Response)
    requires FirstStep(req).Some?
  {
    Finish(env, st, fd, FirstStep(req).value, luck)
  }

  function Steps(fd: int, luck: Luck, n: nat): seq<Event> {
    if n == 0 then [Send(fd)] else [Step(fd, luck)] + Steps(fd, luck, n - 1)
  }

  /** The events of a handler that runs by itself; steps after the reply change nothing. */
  function Session(fd: int, req: Request, luck: Luck): seq<Event> { [Start(fd, req)] + Steps(fd, luck, 3) }

  function Logged(r: Response): LogEntry { LogEntry(r.kind, r.keyId, r.rv) }

  lemma {:induction false} StepsFinish(env: Env, s: State, fd: int, luck: Luck, n: nat)
    requires fd in s.jobs && Rank(s.jobs[fd]) <= n
    ensures var (st, r) := Finish(env, s.store, fd, s.jobs[fd], luck);
            Run(env, s, Steps(fd, luck, n)) == State(st, s.jobs - {fd}, s.log + [Logged(r)])
    decreases n
  {
    hide Act;
    if n == 0 {
      var s' := Next(env, s, Send(fd));
      assert Run(env, s, [Send(fd)]) == Run(env, s', []);
    } else {
      var s' := Next(env, s, Step(fd, luck));
      assert Steps(fd, luck, n)[1..] == Steps(fd, luck, n - 1);
      StepsFinish(env, s', fd, luck, n - 1);
      assert s'.jobs - {fd} == s.jobs - {fd};
    }
  }

  /** A handler that is not interrupted has the effect and the answer of Serve. */
  lemma SessionServes(env: Env, s: State, fd: int, req: Request, luck: Luck)
    requires fd !in s.jobs && FirstStep(req).Some?
    ensures var (st, r) := Serve(env, s.store, fd, req, luck);
            Run(env, s, Session(fd, req, luck)) == State(st, s.jobs, s.log + [Logged(r)])
  {
    hide Act, Finish;
    var s' := Next(env, s, Start(fd, req));
    assert Session(fd, req, luck)[1..] == Steps(fd, luck, 3);
    StepsFinish(env, s', fd, luck, 3);
    assert s'.jobs - {fd} == s.jobs;
  }

  lemma {:induction false} RunAppend(env: Env, s: State, a: seq<Event>, b: seq<Event>)
    ensures Run(env, s, a + b) == Run(env, Run(env, s, a), b)
    decreases |a|
  {
    if a == [] {
      assert a + b == b;
    } else {
      assert (a + b)[1..] == a[1..] + b;
      RunAppend(env, Next(env, s, a[0]), a[1..], b);
    }
  }

  /** The database query lets a request through and its proof of the keys is right. */
  predicate Admitted(env: Env, st: Store, req: Request, queryOk: bool) {
    && queryOk && req.keyId in st.rows && env.decode(st.rows[req.keyId].state)
    && Verified(env, req, st.rows[req.keyId])
  }

  lemma FinishUnfolds(env: Env, st: Store, fd: int, job: Job, luck: Luck)
    requires !job.Reply?
    ensures var (st', job') := Act(env, st, fd, job, luck);
            && Finish(env, st, fd, job, luck) == Finish(env, st', fd, job', luck)
            && (job'.Reply? ==> Finish(env, st, fd, job, luck) == (st', job'.resp))
  {
    hide Act;
  }

  lemma CheckUnfolds(env: Env, st: Store, fd: int, req: Request, luck: Luck)
    requires req.kind == KEYCHECK
    ensures var job := VerifyKey(env, st, req, luck.queryOk);
            && (job.Reply? || job.Cache?)
            && (job.Cache? ==>
                  var row := st.rows[req.keyId];
                  job == Cache(NodeOf(req, 1, req.keyId, row.authKey, row.endeKey), req))
            && Serve(env, st, fd, req, luck) ==
               if job.Reply? then (st, job.resp)
               else (WriteCache(st, job.node, req, luck.mapped).0, WriteCache(st, job.node, req, luck.mapped).1.resp)
  {
    FinishUnfolds(env, st, fd, Query(req), luck);
    var job := VerifyKey(env, st, req, luck.queryOk);
    if job.Cache? { FinishUnfolds(env, st, fd, job, luck); }
    hide Finish, Write;
  }

  lemma RevokeUnfolds(env: Env, st: Store, fd: int, req: Request, luck: Luck)
    requires req.kind == KEYREVOKE
    ensures var job := VerifyKey(env, st, req, luck.queryOk);
            var st' := if luck.mapped then st.(slots := Mark(st.slots, req.keyId, 0).0) else st;
            && (job.Reply? || job == MarkSlot(req))
            && Serve(env, st, fd, req, luck) ==
               if job.Reply? then (st, job.resp)
               else if luck.update.UpdateFails? then (st', Answer(req, SERVERERR, []).resp)
               else (if luck.update.Updates? then ClearState(st', req.keyId) else st', Answer(req, SUCCESS, []).resp)
  {
    FinishUnfolds(env, st, fd, Query(req), luck);
    var job := VerifyKey(env, st, req, luck.queryOk);
    if job.MarkSlot? {
      var st' := if luck.mapped then st.(slots := Mark(st.slots, req.keyId, 0).0) else st;
      FinishUnfolds(env, st, fd, job, luck);
      FinishUnfolds(env, st', fd, StoreState(req), luck);
    }
    hide Finish, Mark;
  }

  /** The part of clientPremaster after the code has been found right. */
  function Issue(env: Env, st: Store, node: Node, req: Request, luck: Luck): (Store, Response) {
    if luck.insert.Fails? || !Storable(env, node) then (st, Answer(req, SERVERERR, []).resp)
    else if luck.insert.LosesId? then (InsertRow(env, st, node), Answer(req, SERVERERR, []).resp)
    else
      var st' := SaveRow(env, st, node, luck.insert);
      var r := WriteCache(st', node.(keyId := st.nextId, status := 1), req, luck.mapped);
      (r.0, r.1.resp)
  }

  lemma PremasterUnfolds(env: Env, st: Store, fd: int, req: Request, luck: Luck)
    requires req.kind == PREKEY
    ensures var (st1, job) := VerifyPremaster(env, st, fd, req);
            && (job.Reply? || job.Insert?)
            && Serve(env, st, fd, req, luck) ==
               if job.Reply? then (st1, job.resp) else Issue(env, st1, job.node, req, luck)
  {
    FinishUnfolds(env, st, fd, Premaster(req), luck);
    var (st1, job) := VerifyPremaster(env, st, fd, req);
    if job.Insert? {
      FinishUnfolds(env, st1, fd, job, luck);
      if GivesId(luck.insert) && Storable(env, job.node) {
        var cache := Cache(job.node.(keyId := st.nextId, status := 1), req);
        FinishUnfolds(env, SaveRow(env, st1, job.node, luck.insert), fd, cache, luck);
      }
    }
    hide Finish, Write, SaveRow, InsertRow, IntToString, Storable;
  }

  /** Whatever its outcome, a reply has the type and the key ID of its request and each of its two names in
      its own place. */
  lemma RepliesKeepTheNames(env: Env, st: Store, fd: int, req: Request, luck: Luck)
    requires 0 <= req.kind <= 3
    ensures FirstStep(req).Some?
    ensures var r := Serve(env, st, fd, req, luck).1;
            && r.client == CString(req.client) && r.server == CString(req.server)
            && r.kind == req.kind && r.keyId == req.keyId
  {
    hide Write, Mark, SaveRow, InsertRow, IntToString, Storable, CString, Verified;
    if req.kind == RANDOMNUM {
      FinishUnfolds(env, st, fd, Random(req), luck);
    } else if req.kind == PREKEY {
      PremasterUnfolds(env, st, fd, req, luck);
    } else if req.kind == KEYCHECK {
      CheckUnfolds(env, st, fd, req, luck);
    } else {
      RevokeUnfolds(env, st, fd, req, luck);
    }
    hide Finish;
  }

  /** A check succeeds exactly when it is admitted and there is a slot for the pair; it touches
      nothing but that slot. */
  lemma CheckAnswers(env: Env, st: Store, fd: int, req: Request, luck: Luck)
    requires req.kind == KEYCHECK && Distinct(st.slots) && (CString(req.client), CString(req.server)) != ([], [])
    ensures var (st', r) := Serve(env, st, fd, req, luck);
            var p := (CString(req.client), CString(req.server));
            && (r.rv == SUCCESS <==>
                  Admitted(env, st, req, luck.queryOk) && luck.mapped && (p in Table(st.slots) || HasZero(st.slots)))
            && (r.rv == AUTHERR <==> !Admitted(env, st, req, luck.queryOk))
            && Distinct(st'.slots) && st' == st.(slots := st'.slots)
            && (r.rv != SUCCESS ==> st' == st)
            && (r.rv == SUCCESS ==>
                  var row := st.rows[req.keyId];
                  Table(st'.slots) ==
                  Table(st.slots)[p := Node(1, req.keyId, p.0, p.1, CString(row.endeKey), CString(row.authKey))])
  {
    CheckUnfolds(env, st, fd, req, luck);
    var job := VerifyKey(env, st, req, luck.queryOk);
    if job.Cache? {
      WriteRefines(st.slots, job.node);
    }
    hide Serve, Write, Table, Verified, HasZero, Distinct;
  }

  /** A revocation succeeds exactly when it is admitted and the update does not fail; the row changes
      only if the update is kept, too. The slot is marked before. */
  lemma RevokeAnswers(env: Env, st: Store, fd: int, req: Request, luck: Luck)
    requires req.kind == KEYREVOKE
    ensures var (st', r) := Serve(env, st, fd, req, luck);
            && (r.rv == SUCCESS <==> Admitted(env, st, req, luck.queryOk) && !luck.update.UpdateFails?)
            && (r.rv == AUTHERR <==> !Admitted(env, st, req, luck.queryOk))
            && (!Admitted(env, st, req, luck.queryOk) ==> st' == st)
            && (Admitted(env, st, req, luck.queryOk) ==>
                  && st'.slots == (if luck.mapped then Mark(st.slots, req.keyId, 0).0 else st.slots)
                  && st'.nonces == st.nonces && st'.nextId == st.nextId && st'.lost == st.lost
                  && st'.rows == if luck.update.Updates? then st.rows[req.keyId := st.rows[req.keyId].(state := 0)]
                                 else st.rows)
  {
    RevokeUnfolds(env, st, fd, req, luck);
    hide Serve, Verified, Mark;
  }

  lemma IssueAnswers(env: Env, st: Store, node: Node, req: Request, luck: Luck)
    requires req.kind == PREKEY && Distinct(st.slots) && PairOf(node) != ([], [])
    ensures var (st', r) := Issue(env, st, node, req, luck);
            && (r.rv == SUCCESS <==>
                  Storable(env, node) && GivesId(luck.insert) && luck.mapped
                  && (PairOf(node) in Table(st.slots) || HasZero(st.slots)))
            && r.rv != AUTHERR && st'.nonces == st.nonces && Distinct(st'.slots)
            && (r.rv == SUCCESS ==>
                  && r.data == IntToString(st.nextId)
                  && st'.rows == (if luck.insert.Works? then st.rows[st.nextId := RowOf(env, node)] else st.rows)
                  && st'.lost == (if luck.insert.Works? then st.lost else st.lost + {st.nextId})
                  && Table(st'.slots) == Table(st.slots)[PairOf(node) := node.(keyId := st.nextId, status := 1)])
  {
    var st1, n := SaveRow(env, st, node, luck.insert), node.(keyId := st.nextId, status := 1);
    WriteRefines(st.slots, n);
    assert st1.slots == st.slots && st1.nonces == st.nonces;
    assert luck.insert.Works? ==> st1.rows == st.rows[st.nextId := RowOf(env, node)] && st1.lost == st.lost;
    assert luck.insert.LosesCommit? ==> st1.rows == st.rows && st1.lost == st.lost + {st.nextId};
    hide SaveRow, InsertRow, Write, Table, HasZero, Distinct, IntToString, Storable, RowOf, CString;
  }

  /** A key is issued exactly when the code is right under the nonces of this very connection, the
      insertion gives an ID and there is a slot; the reply then names the ID, whose row is there exactly
      when the commit was not lost, and the nonces are gone. */
  lemma PremasterAnswers(env: Env, st: Store, fd: int, req: Request, luck: Luck)
    requires req.kind == PREKEY && Distinct(st.slots) && (CString(req.client), CString(req.server)) != ([], [])
    ensures var (st', r) := Serve(env, st, fd, req, luck);
            var (cn, sn) := TakeNonces(st, fd);
            var authKey := cn[..if |cn| < 4 then |cn| else 4] + sn + env.dec(req.data);
            var endeKey := cn + sn[..if |sn| < 4 then |sn| else 4] + env.dec(req.data);
            var p := (CString(req.client), CString(req.server));
            var right := env.hmac(authKey, env.hash(req.data)) == req.authCode;
            && (r.rv == SUCCESS <==>
                  right && Storable(env, NodeOf(req, 0, 0, authKey, endeKey)) && GivesId(luck.insert)
                  && luck.mapped && (p in Table(st.slots) || HasZero(st.slots)))
            && (r.rv == AUTHERR <==> !right)
            && st'.nonces == st.nonces - {fd} && Distinct(st'.slots)
            && (r.rv == SUCCESS ==>
                  && r.data == IntToString(st.nextId)
                  && st'.rows == (if luck.insert.Works?
                                  then st.rows[st.nextId := RowOf(env, NodeOf(req, 0, 0, authKey, endeKey))]
                                  else st.rows)
                  && st'.lost == (if luck.insert.Works? then st.lost else st.lost + {st.nextId})
                  && Table(st'.slots) ==
                     Table(st.slots)[p := Node(1, st.nextId, p.0, p.1, CString(endeKey), CString(authKey))])
  {
    PremasterUnfolds(env, st, fd, req, luck);
    DerivedKeys(TakeNonces(st, fd).0, TakeNonces(st, fd).1, env.dec(req.data), []);
    var (st1, job) := VerifyPremaster(env, st, fd, req);
    if job.Insert? { IssueAnswers(env, st1, job.node, req, luck); }
    hide Serve, Issue, Storable, RowOf, Table, HasZero, Distinct, IntToString, AuthKey, EndeKey, CString;
  }
}
