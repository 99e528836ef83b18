/** The server's objects: the database connection and the four handlers, as they update their state. */
module KeyServerCode {
  import opened Bytes
  import opened SlotTable
  import opened KeyServer
  import opened Codec

  /** What querySecKey fills in; its default is no client, false, no keys. */
  datatype Queried = Queried(client: Bytes, state: bool, authKey: Bytes, endeKey: Bytes)

  class MySQLOP {
    const env: Env
    var rows: map<int, Row>
    var nextId: int
    ghost var lost: set<int>   // IDs handed out by insertions that were not kept

    constructor (env: Env)
      ensures this.env == env && rows == map[] && nextId == 1 && lost == {}
    {
      this.env := env;
      lost := {};
      rows := map[];
      nextId := 1;
    }

    /** Inserts a row with the next ID: the texts stand between quotes, unescaped. False when the
        statement is no insertion of this node, when it fails, or when it works and its ID cannot be
        asked for. A commit that is lost goes unnoticed: the ID is handed out without a row. */
    method WriteSecKey(node: Node, luck: InsertLuck) returns (ok: bool, keyId: int)
      modifies this
      ensures rows == if luck.Fails? || luck.LosesCommit? || !Storable(env, node) then old(rows)
                      else old(rows)[old(nextId) := RowOf(env, node)]
      ensures lost == if luck.LosesCommit? && Storable(env, node) then old(lost) + {old(nextId)} else old(lost)
      ensures nextId == if luck.Fails? || !Storable(env, node) then old(nextId) else old(nextId) + 1
      ensures ok <==> GivesId(luck) && Storable(env, node)
      ensures ok ==> keyId == old(nextId)
      // the row that is new: each text in its column, as the database makes it, and the state 1
      ensures ok && !luck.LosesCommit? ==>
                && keyId in rows
                && rows[keyId] == Row(CString(env.stored(node.client).value), CString(env.stored(node.server).value), 1,
                                      CString(env.stored(node.authKey).value), CString(env.stored(node.endeKey).value),
                                      (node.client, node.server))
    {
      keyId := -1;
      var client, server := env.stored(node.client), env.stored(node.server);
      var authKey, endeKey := env.stored(node.authKey), env.stored(node.endeKey);
      if client.None? || server.None? || authKey.None? || endeKey.None? || luck.Fails? { return false, keyId; }
      if luck.LosesCommit? {
        lost := lost + {nextId};
      } else {
        rows := rows[nextId := Row(CString(client.value), CString(server.value), 1, CString(authKey.value),
                                   CString(endeKey.value), (node.client, node.server))];
      }
      nextId := nextId + 1;
      if luck.LosesId? { return false, keyId; }
      return true, nextId - 1;
    }

    /** A query that finds no row still works, and leaves the default. */
    method QuerySecKey(keyId: int, decode: int -> bool, works: bool) returns (ret: bool, out: Queried)
      ensures ret == works
      ensures works && keyId in rows ==>
                out == Queried(rows[keyId].client, decode(rows[keyId].state), rows[keyId].authKey, rows[keyId].endeKey)
      ensures !works || keyId !in rows ==> out == Queried([], false, [], [])
    {
      out := Queried([], false, [], []);
      if !works { return false, out; }
      if keyId in rows {
        var row := rows[keyId];
        out := Queried(row.client, decode(row.state), row.authKey, row.endeKey);
      }
      ret := true;
    }

    /** An update that matches no row works as well; one whose commit is lost is reported as if it had
        been kept. */
    method UpdataKeyState(keyId: int, state: int, luck: UpdateLuck) returns (ok: bool)
      modifies this`rows
      ensures ok <==> !luck.UpdateFails?
      ensures rows == if luck.Updates? && keyId in old(rows) then old(rows)[keyId := old(rows)[keyId].(state := state)]
                      else old(rows)
    {
      if luck.UpdateFails? { return false; }
      if luck.Updates? && keyId in rows {
        rows := rows[keyId := rows[keyId].(state := state)];
      }
      ok := true;
    }
  }

  /** The reply record as a handler begins to fill it. */
  function Blank(req: Request): Response {
    Response(req.kind, SUCCESS, CString(req.client), CString(req.server), [], req.keyId)
  }

  /** A task's messages in turn; it ends at one that cannot be decoded. */
  function ServeAll(env: Env, st: Store, fd: int, messages: seq<Bytes>, lucks: seq<Luck>): (Store, seq<Response>)
    requires |lucks| == |messages|
    decreases |messages|
  {
    if messages == [] || DecodeRequest(messages[0]).None? then (st, []) else
    var req := DecodeRequest(messages[0]).value;
    if FirstStep(req).None? then ServeAll(env, st, fd, messages[1..], lucks[1..]) else
    var (st1, r) := Serve(env, st, fd, req, lucks[0]);
    var (st2, rs) := ServeAll(env, st1, fd, messages[1..], lucks[1..]);
    (st2, [r] + rs)
  }

  /** The requests of a task that are answered: those of the types 0 to 3, up to a message that cannot be
      decoded. */
  function Answered(messages: seq<Bytes>): seq<Request> {
    if messages == [] || DecodeRequest(messages[0]).None? then [] else
    var req := DecodeRequest(messages[0]).value;
    (if 0 <= req.kind <= 3 then [req] else []) + Answered(messages[1..])
  }

  /** The reply belongs to the request. */
  predicate RepliesTo(r: Response, req: Request) {
    && r.kind == req.kind && r.keyId == req.keyId
    && r.client == CString(req.client) && r.server == CString(req.server)
  }

  lemma ServeReplies(env: Env, st: Store, fd: int, req: Request, luck: Luck)
    requires 0 <= req.kind <= 3
    ensures FirstStep(req).Some? && RepliesTo(Serve(env, st, fd, req, luck).1, req)
  {
    RepliesKeepTheNames(env, st, fd, req, luck);
    hide Serve, CString;
  }

  /** A task answers these requests, in order, and no others. */
  lemma {:induction false} AnswersInOrder(env: Env, st: Store, fd: int, messages: seq<Bytes>, lucks: seq<Luck>)
    requires |lucks| == |messages|
    ensures var (reqs, rs) := (Answered(messages), ServeAll(env, st, fd, messages, lucks).1);
            |rs| == |reqs| && forall i :: 0 <= i < |rs| ==> RepliesTo(rs[i], reqs[i])
    decreases |messages|
  {
    hide Serve, DecodeRequest, CString, RepliesTo;
    if messages != [] && DecodeRequest(messages[0]).Some? {
      var req := DecodeRequest(messages[0]).value;
      if 0 <= req.kind <= 3 {
        ServeReplies(env, st, fd, req, lucks[0]);
        var (st1, r) := Serve(env, st, fd, req, lucks[0]);
        AnswersInOrder(env, st1, fd, messages[1..], lucks[1..]);
        var (reqs, rs) := (Answered(messages[1..]), ServeAll(env, st1, fd, messages[1..], lucks[1..]).1);
        assert Answered(messages) == [req] + reqs && ServeAll(env, st, fd, messages, lucks).1 == [r] + rs;
      } else {
        assert Answered(messages) == Answered(messages[1..]);
        AnswersInOrder(env, st, fd, messages[1..], lucks[1..]);
      }
    }
  }

  /** What one message does is told by the number in its type field: 0 notes the nonces, 1 takes them, 2
      checks and leaves nonces and rows alone, 3 revokes, and any other is passed over. */
  lemma TypesByNumber(env: Env, st: Store, fd: int, message: Bytes, luck: Luck)
    requires DecodeRequest(message).Some?
    ensures var req := DecodeRequest(message).value;
            var (st', rs) := ServeAll(env, st, fd, [message], [luck]);
            && (req.kind == 0 ==> st' == st.(nonces := st.nonces[fd := (req.data, luck.nonce)]))
            && (req.kind == 1 ==> st'.nonces == st.nonces - {fd})
            && (req.kind == 2 ==> st' == st.(slots := st'.slots))
            && (req.kind == 3 ==> st' == st.(slots := st'.slots, rows := st'.rows))
            && (req.kind == 3 && rs[0].rv == 0 && luck.update.Updates? ==>
                  req.keyId in st.rows && st'.rows == st.rows[req.keyId := st.rows[req.keyId].(state := 0)])
            && (req.kind < 0 || req.kind > 3 ==> st' == st && rs == [])
  {
    var req := DecodeRequest(message).value;
    OneMessage(env, st, fd, message, luck);
    hide *;
    if 0 <= req.kind <= 3 { ServedByNumber(env, st, fd, req, luck); }
  }

  lemma OneMessage(env: Env, st: Store, fd: int, message: Bytes, luck: Luck)
    requires DecodeRequest(message).Some?
    ensures var req := DecodeRequest(message).value;
            ServeAll(env, st, fd, [message], [luck]) ==
            if !(0 <= req.kind <= 3) then (st, [])
            else (Serve(env, st, fd, req, luck).0, [Serve(env, st, fd, req, luck).1])
  {
    hide Serve, DecodeRequest;
    var req := DecodeRequest(message).value;
    assert [message][1..] == [] && [luck][1..] == [];
    if 0 <= req.kind <= 3 {
      var (st', r) := Serve(env, st, fd, req, luck);
      assert ServeAll(env, st', fd, [message][1..], [luck][1..]) == (st', []);
      assert [r] + [] == [r];
    } else {
      assert ServeAll(env, st, fd, [message][1..], [luck][1..]) == (st, []);
    }
  }

  lemma ServedByNumber(env: Env, st: Store, fd: int, req: Request, luck: Luck)
    requires 0 <= req.kind <= 3
    ensures FirstStep(req).Some?
    ensures var (st', r) := Serve(env, st, fd, req, luck);
            && (req.kind == 0 ==> st' == st.(nonces := st.nonces[fd := (req.data, luck.nonce)]))
            && (req.kind == 1 ==> st'.nonces == st.nonces - {fd})
            && (req.kind == 2 ==> st' == st.(slots := st'.slots))
            && (req.kind == 3 ==> st' == st.(slots := st'.slots, rows := st'.rows))
            && (req.kind == 3 && r.rv == 0 && luck.update.Updates? ==>
                  req.keyId in st.rows && st'.rows == st.rows[req.keyId := st.rows[req.keyId].(state := 0)])
  {
    if req.kind == 0 {
      FinishUnfolds(env, st, fd, Random(req), luck);
    } else if req.kind == 1 {
      PremasterUnfolds(env, st, fd, req, luck);
    } else if req.kind == 2 {
      CheckUnfolds(env, st, fd, req, luck);
    } else {
      RevokeAnswers(env, st, fd, req, luck);
    }
    hide Finish, Write, Mark, Storable, CString, Verified, Payload, AuthKey, EndeKey;
  }

  function LogOf(rs: seq<Response>): seq<LogEntry>
    decreases |rs|
  {
    if rs == [] then [] else [Logged(rs[0])] + LogOf(rs[1..])
  }

  /** A task that nothing interrupts is a run of the interleaved server: what holds in every run
      holds after it. */
  lemma {:induction false} TaskIsARun(env: Env, s: State, fd: int, messages: seq<Bytes>, lucks: seq<Luck>)
      returns (es: seq<Event>)
    requires fd !in s.jobs && |lucks| == |messages|
    ensures var (st, rs) := ServeAll(env, s.store, fd, messages, lucks);
            Run(env, s, es) == State(st, s.jobs, s.log + LogOf(rs))
    decreases |messages|
  {
    hide Serve, DecodeRequest;
    if messages == [] || DecodeRequest(messages[0]).None? {
      es := [];
      assert s.log + [] == s.log;
    } else {
      var req := DecodeRequest(messages[0]).value;
      if FirstStep(req).None? {
        es := TaskIsARun(env, s, fd, messages[1..], lucks[1..]);
      } else {
        var (st1, r) := Serve(env, s.store, fd, req, lucks[0]);
        var s1 := State(st1, s.jobs, s.log + [Logged(r)]);
        SessionServes(env, s, fd, req, lucks[0]);
        var rest := TaskIsARun(env, s1, fd, messages[1..], lucks[1..]);
        es := Session(fd, req, lucks[0]) + rest;
        RunAppend(env, s, Session(fd, req, lucks[0]), rest);
        var (st2, rs) := ServeAll(env, st1, fd, messages[1..], lucks[1..]);
        assert ([r] + rs)[1..] == rs;
        assert s.log + LogOf([r] + rs) == s1.log + LogOf(rs);
        hide Run, Session;
      }
    }
  }

  class ServerOperation {
    const env: Env
    const shm: SecKeyShm
    const mysql: MySQLOP
    var randomNum: map<int, (Bytes, Bytes)>

    constructor (env: Env, maxNode: nat)
      ensures fresh(shm) && fresh(shm.slots) && fresh(mysql) && this.env == env && mysql.env == env
      ensures Contents() == Init(maxNode).store
    {
      this.env := env;
      shm := new SecKeyShm(maxNode);
      mysql := new MySQLOP(env);
      randomNum := map[];
    }

    ghost function Contents(): Store
      reads this, shm.slots, mysql
    {
      Store(randomNum, shm.slots[..], mysql.rows, mysql.nextId, mysql.lost)
    }

    method ClientRandomNum(req: Request, fd: int, luck: Luck) returns (r: Response)
      requires req.kind == RANDOMNUM
      modifies this
      ensures (Contents(), r) == Serve(env, old(Contents()), fd, req, luck)
      ensures r.kind == 0 && r.rv == 0 && r.keyId == req.keyId
      ensures r.client == CString(req.client) && r.server == CString(req.server)
      ensures randomNum == old(randomNum)[fd := (req.data, luck.nonce)]
      // both parts of the data after their lengths, least significant octet first
      ensures |luck.nonce| < 0x1_0000_0000 && |env.publicKey| < 0x1_0000_0000 ==>
                var (d, n) := (r.data, |luck.nonce|);
                && |d| == 8 + n + |env.publicKey| && d[4..4 + n] == luck.nonce && d[8 + n..] == env.publicKey
                && d[0] as int + 256 * (d[1] as int) + 65536 * (d[2] as int) + 16777216 * (d[3] as int) == n
                && d[4 + n] as int + 256 * (d[5 + n] as int) + 65536 * (d[6 + n] as int)
                   + 16777216 * (d[7 + n] as int) == |env.publicKey|
    {
      FinishUnfolds(env, Contents(), fd, Random(req), luck);
      r := Blank(req);
      randomNum := randomNum[fd := (req.data, luck.nonce)];
      r := r.(data := r.data + LittleEndian32(|luck.nonce| % TWO32) + luck.nonce);
      r := r.(data := r.data + LittleEndian32(|env.publicKey| % TWO32) + env.publicKey);
      assert r.data == Payload(luck.nonce, env.publicKey);
      if |luck.nonce| < TWO32 && |env.publicKey| < TWO32 { PayloadOctets(luck.nonce, env.publicKey); }
      hide Payload, LittleEndian32, Serve;
    }

    method ClientPremaster(req: Request, fd: int, luck: Luck) returns (r: Response)
      requires req.kind == PREKEY && mysql.env == env
      modifies this, shm.slots, mysql
      ensures (Contents(), r) == Serve(env, old(Contents()), fd, req, luck)
      ensures r.kind == 1 && r.keyId == req.keyId
      ensures r.client == CString(req.client) && r.server == CString(req.server)
      ensures randomNum == old(randomNum) - {fd}
      // the keys of this connection's nonces and the premaster; what is saved with them
      ensures var (cn, sn) := if fd in old(randomNum) then old(randomNum)[fd] else ([], []);
              var endeKey := cn + sn[..if |sn| < 4 then |sn| else 4] + env.dec(req.data);
              var authKey := cn[..if |cn| < 4 then |cn| else 4] + sn + env.dec(req.data);
              var node := Node(1, old(mysql.nextId), CString(req.client), CString(req.server), CString(endeKey),
                               CString(authKey));
              && (r.rv == 1 <==> env.hmac(authKey, env.hash(req.data)) != req.authCode)
              && (r.rv == 1 ==> r.data == [] && Contents() == old(Contents()).(nonces := randomNum))
              && (r.rv == 2 ==> shm.slots[..] == old(shm.slots[..]))
              && (r.rv == 0 <==> && r.rv != 1 && env.stored(node.client).Some? && env.stored(node.server).Some?
                                 && env.stored(node.authKey).Some? && env.stored(node.endeKey).Some?
                                 && (luck.insert.Works? || luck.insert.LosesCommit?)
                                 && luck.mapped && old(HasSlot(CString(req.client), CString(req.server))))
              && (r.rv == 0 ==> Saved(node, r, luck))
      // as a client sees it whose parts have no NUL and are as long as they should be
      ensures r.rv == 0 && fd in old(randomNum) ==>
                var (cn, sn) := old(randomNum)[fd];
                var premaster := env.dec(req.data);
                |cn| >= 4 && |sn| >= 4 && 0 !in cn && 0 !in sn && 0 !in premaster ==>
                  Saved(Node(1, old(mysql.nextId), CString(req.client), CString(req.server), cn + sn[..4] + premaster,
                             cn[..4] + sn + premaster), r, luck)
    {
      ghost var st := Contents();
      PremasterUnfolds(env, st, fd, req, luck);
      hide Serve, Issue, CString, FirstStep;
      r := Blank(req);
      var premaster := env.dec(req.data);
      var keys := if fd in randomNum then randomNum[fd] else ([], []);
      randomNum := randomNum - {fd};
      var endeKey := keys.0 + Prefix4(keys.1) + premaster;
      var authKey := Prefix4(keys.0) + keys.1 + premaster;
      DerivedKeys(keys.0, keys.1, premaster, []);
      if env.hmac(authKey, env.hash(req.data)) != req.authCode {
        return r.(rv := AUTHERR);
      }
      var node := Node(0, 0, CString(req.client), CString(req.server), CString(endeKey), CString(authKey));
      r := SaveKey(node, req, luck);
    }

    /** The node is in the table and, unless its commit was lost, in its row; the reply names it. */
    ghost predicate Saved(node: Node, r: Response, luck: Luck)
      reads shm.slots, mysql
    {
      && luck.mapped && node in shm.slots[..] && r.data == IntToString(node.keyId)
      && (luck.insert.Works? || luck.insert.LosesCommit?)
      && env.stored(node.client).Some? && env.stored(node.server).Some?
      && env.stored(node.authKey).Some? && env.stored(node.endeKey).Some?
      && (luck.insert.Works? ==>
            && node.keyId in mysql.rows
            && mysql.rows[node.keyId] == Row(CString(env.stored(node.client).value),
                                             CString(env.stored(node.server).value), 1,
                                             CString(env.stored(node.authKey).value),
                                             CString(env.stored(node.endeKey).value), (node.client, node.server)))
    }

    /** Some slot has these names or is all zero. */
    ghost predicate HasSlot(client: Bytes, server: Bytes)
      reads shm.slots
    {
      exists i :: 0 <= i < shm.slots.Length && (shm.slots[i] == Node(0, 0, [], [], [], [])
                                                || (shm.slots[i].client, shm.slots[i].server) == (client, server))
    }

    /** Saves the key in the database and in the table. */
    method SaveKey(key: Node, req: Request, luck: Luck) returns (r: Response)
      requires req.kind == PREKEY && mysql.env == env
      modifies shm.slots, mysql
      ensures (Contents(), r) == Issue(env, old(Contents()), key, req, luck)
      ensures r.kind == 1 && r.keyId == req.keyId
      ensures r.client == CString(req.client) && r.server == CString(req.server)
      ensures r.rv == 0 || r.rv == 2
      ensures r.rv == 0 <==> && env.stored(key.client).Some? && env.stored(key.server).Some?
                             && env.stored(key.authKey).Some? && env.stored(key.endeKey).Some?
                             && (luck.insert.Works? || luck.insert.LosesCommit?)
                             && luck.mapped && old(HasSlot(key.client, key.server))
      ensures r.rv == 0 ==> Saved(key.(keyId := old(mysql.nextId), status := 1), r, luck)
      ensures r.rv != 0 ==> shm.slots[..] == old(shm.slots[..])
      ensures r.data == [] || r.data == IntToString(old(mysql.nextId))
    {
      hide Write, CString, IntToString, RowOf;
      var node := key;
      r := Blank(req);
      var ok, keyId := mysql.WriteSecKey(node, luck.insert);
      if !ok {
        return r.(rv := SERVERERR);
      }
      node := node.(keyId := keyId);
      r := r.(data := IntToString(node.keyId));
      node := node.(status := 1);
      var ret := shm.ShmWrite(node, luck.mapped);
      r := r.(rv := if ret == -1 then SERVERERR else SUCCESS);
      assert ret == 0 ==> node in shm.slots[..];
      assert node == key.(keyId := old(mysql.nextId), status := 1);
      assert ret == 0 ==> r.data == IntToString(node.keyId);
      assert luck.insert.Works? || luck.insert.LosesCommit?;
    }

    /** The query works and finds a row whose state reads as valid; the request has the code of the row's
        authentication key over its data, which decrypts to both keys of the row. */
    predicate Proved(req: Request, luck: Luck)
      reads this, mysql
    {
      && luck.queryOk && req.keyId in mysql.rows && env.decode(mysql.rows[req.keyId].state)
      && env.hmac(mysql.rows[req.keyId].authKey, env.hash(req.data)) == req.authCode
      && env.dec(req.data) == mysql.rows[req.keyId].authKey + mysql.rows[req.keyId].endeKey
    }

    /** The first slot with the key ID, if there is one, has status 0; the others are as they were. */
    ghost predicate Cleared(keyId: int, was: seq<Node>)
      reads shm.slots
    {
      && |was| == shm.slots.Length
      && forall i :: 0 <= i < |was| ==>
           shm.slots[i] == if was[i].keyId == keyId && (forall k :: 0 <= k < i ==> was[k].keyId != keyId)
                           then was[i].(status := 0) else was[i]
    }

    /** The part that checks and revocations have in common. */
    method Admit(req: Request, luck: Luck) returns (ok: bool, authKey: Bytes, endeKey: Bytes)
      ensures ok <==> Admitted(env, Contents(), req, luck.queryOk)
      ensures ok <==> Proved(req, luck)
      ensures ok ==> authKey == mysql.rows[req.keyId].authKey && endeKey == mysql.rows[req.keyId].endeKey
    {
      var ret, out := mysql.QuerySecKey(req.keyId, env.decode, luck.queryOk);
      if !ret || !out.state { return false, [], []; }
      authKey, endeKey := out.authKey, out.endeKey;
      var clientdata := env.dec(req.data);
      if env.hmac(authKey, env.hash(req.data)) != req.authCode { return false, [], []; }
      ok := clientdata == authKey + endeKey;
    }

    method KeyCheck(req: Request, fd: int, luck: Luck) returns (r: Response)
      requires req.kind == KEYCHECK
      modifies this, shm.slots, mysql
      ensures (Contents(), r) == Serve(env, old(Contents()), fd, req, luck)
      ensures r.kind == 2 && r.data == [] && r.keyId == req.keyId
      ensures r.client == CString(req.client) && r.server == CString(req.server)
      ensures r.rv == 1 <==> !old(Proved(req, luck))
      ensures r.rv == 0 <==> old(Proved(req, luck)) && luck.mapped
                             && old(HasSlot(CString(req.client), CString(req.server)))
      ensures Contents() == old(Contents()).(slots := shm.slots[..])
      ensures r.rv == 0 ==>
                Node(1, req.keyId, CString(req.client), CString(req.server), CString(mysql.rows[req.keyId].endeKey),
                     CString(mysql.rows[req.keyId].authKey)) in shm.slots[..]
      ensures r.rv != 0 ==> shm.slots[..] == old(shm.slots[..])
    {
      ghost var st := Contents();
      CheckUnfolds(env, st, fd, req, luck);
      hide Serve, Write, CString, Verified;
      r := Blank(req);
      var ok, authKey, endeKey := Admit(req, luck);
      if !ok {
        return r.(rv := AUTHERR);
      }
      var node := Node(1, req.keyId, CString(req.client), CString(req.server), CString(endeKey), CString(authKey));
      var ret := shm.ShmWrite(node, luck.mapped);
      r := r.(rv := if ret == -1 then SERVERERR else SUCCESS);
    }

    method KeyRevoke(req: Request, fd: int, luck: Luck) returns (r: Response)
      requires req.kind == KEYREVOKE
      modifies this, shm.slots, mysql
      ensures (Contents(), r) == Serve(env, old(Contents()), fd, req, luck)
      ensures r.kind == 3 && r.data == [] && r.keyId == req.keyId
      ensures r.client == CString(req.client) && r.server == CString(req.server)
      ensures r.rv == 1 <==> !old(Proved(req, luck))
      ensures r.rv == 0 <==> old(Proved(req, luck)) && !luck.update.UpdateFails?
      ensures r.rv == 0 && luck.update.Updates? ==>
                mysql.rows == old(mysql.rows)[req.keyId := old(mysql.rows)[req.keyId].(state := 0)]
      ensures r.rv != 0 || !luck.update.Updates? ==> mysql.rows == old(mysql.rows)
      ensures r.rv != 1 && luck.mapped ==> Cleared(req.keyId, old(shm.slots[..]))
      ensures r.rv == 1 || !luck.mapped ==> shm.slots[..] == old(shm.slots[..])
      ensures randomNum == old(randomNum) && mysql.nextId == old(mysql.nextId) && mysql.lost == old(mysql.lost)
    {
      ghost var st := Contents();
      RevokeUnfolds(env, st, fd, req, luck);
      hide Serve, Mark, CString, Verified;
      r := Blank(req);
      var ok, authKey, endeKey := Admit(req, luck);
      if !ok {
        return r.(rv := AUTHERR);
      }
      var ret := shm.UpdateStatue(req.keyId, 0, luck.mapped);
      if ret != -1 && ret != 1 {
        return r.(rv := SERVERERR);
      }
      var updated := mysql.UpdataKeyState(req.keyId, 0, luck.update);
      r := r.(rv := if updated then SUCCESS else SERVERERR);
    }

    /** One task: the messages that were read, decoded and handed to their handlers in turn. */
    method WorkThread(fd: int, messages: seq<Bytes>, lucks: seq<Luck>) returns (replies: seq<Response>)
      requires |lucks| == |messages| && mysql.env == env
      modifies this, shm.slots, mysql
      ensures (Contents(), replies) == ServeAll(env, old(Contents()), fd, messages, lucks)
      ensures var reqs := Answered(messages);
              |replies| == |reqs| && forall i :: 0 <= i < |reqs| ==> RepliesTo(replies[i], reqs[i])
    {
      AnswersInOrder(env, Contents(), fd, messages, lucks);
      hide Serve, DecodeRequest, ServeAll, Rest, RepliesTo, Answered;
      replies := [];
      var i := 0;
      ghost var all := ServeAll(env, Contents(), fd, messages, lucks);
      RestStart(env, Contents(), fd, messages, lucks);
      while i < |messages|
        invariant i <= |messages|
        invariant Rest(env, Contents(), fd, messages, lucks, i, replies) == all
      {
        RestStep(env, Contents(), fd, messages, lucks, i, replies);
        var codec := new RequestCodec.OfString(messages[i]);
        var decoded := codec.MsgDecode();
        if decoded.None? { return; }
        var req := decoded.value;
        if req.kind == RANDOMNUM {
          var r := ClientRandomNum(req, fd, lucks[i]);
          replies := replies + [r];
        } else if req.kind == PREKEY {
          var r := ClientPremaster(req, fd, lucks[i]);
          replies := replies + [r];
        } else if req.kind == KEYCHECK {
          var r := KeyCheck(req, fd, lucks[i]);
          replies := replies + [r];
        } else if req.kind == KEYREVOKE {
          var r := KeyRevoke(req, fd, lucks[i]);
          replies := replies + [r];
        }
        i := i + 1;
      }
      RestEnd(env, Contents(), fd, messages, lucks, replies);
    }
  }

  /** The outcome from message i on, given the replies so far. */
  function Rest(env: Env, st: Store, fd: int, messages: seq<Bytes>, lucks: seq<Luck>, i: nat,
                replies: seq<Response>): (Store, seq<Response>)
    requires |lucks| == |messages| && i <= |messages|
  {
    var (st', rs) := ServeAll(env, st, fd, messages[i..], lucks[i..]);
    (st', replies + rs)
  }

  lemma RestStep(env: Env, st: Store, fd: int, messages: seq<Bytes>, lucks: seq<Luck>, i: nat, replies: seq<Response>)
    requires |lucks| == |messages| && i < |messages|
    ensures var all := Rest(env, st, fd, messages, lucks, i, replies);
            match DecodeRequest(messages[i])
            case None => all == (st, replies)
            case Some(req) =>
              if FirstStep(req).None? then all == Rest(env, st, fd, messages, lucks, i + 1, replies)
              else
                var (st1, r) := Serve(env, st, fd, req, lucks[i]);
                all == Rest(env, st1, fd, messages, lucks, i + 1, replies + [r])
  {
    hide Serve, DecodeRequest;
    assert messages[i..][1..] == messages[i + 1..] && lucks[i..][1..] == lucks[i + 1..];
    assert replies + [] == replies;
    if DecodeRequest(messages[i]).Some? && FirstStep(DecodeRequest(messages[i]).value).Some? {
      var (st1, r) := Serve(env, st, fd, DecodeRequest(messages[i]).value, lucks[i]);
      var (st2, rs) := ServeAll(env, st1, fd, messages[i + 1..], lucks[i + 1..]);
      assert replies + ([r] + rs) == (replies + [r]) + rs;
    }
  }

  lemma RestStart(env: Env, st: Store, fd: int, messages: seq<Bytes>, lucks: seq<Luck>)
    requires |lucks| == |messages|
    ensures Rest(env, st, fd, messages, lucks, 0, []) == ServeAll(env, st, fd, messages, lucks)
  {
    assert messages[0..] == messages && lucks[0..] == lucks;
    var (st', rs) := ServeAll(env, st, fd, messages, lucks);
    assert [] + rs == rs;
  }

  lemma RestEnd(env: Env, st: Store, fd: int, messages: seq<Bytes>, lucks: seq<Luck>, replies: seq<Response>)
    requires |lucks| == |messages|
    ensures Rest(env, st, fd, messages, lucks, |messages|, replies) == (st, replies)
  {
    assert messages[|messages|..] == [];
    assert replies + [] == replies;
  }
}
