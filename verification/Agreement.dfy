/**
 Key agreement end to end: honest clients and arbitrary other connections against one server, with
 the messages as octets in flight. The network hands whole messages over (see Framing); a step is
 one client action, one arrival, one atomic step of a handler, or one reply.
 */
module Agreement {
  import opened Bytes
  import opened SlotTable
  import opened KeyServer
  import opened KeyCache
  import opened Client
  import opened Codec

  /** Where an honest client is in secKeyAgree. */
  datatype Phase =
    | Idle
    | AwaitNonce(cn: Bytes)
    | AwaitId(cn: Bytes, sn: Bytes, premaster: Bytes)
    | Agreed(ccn: Bytes, csn: Bytes, cpremaster: Bytes, id: int)
    | Failed

  /** `unlucky` notes that the server could not serve this agreement: the reply does not fit the
      client's buffer, the insertion failed or its text did not stay text, or the table had no room or
      could not be attached. */
  datatype Peer = Peer(client: Bytes, server: Bytes, phase: Phase, toServer: seq<Bytes>, toClient: seq<Bytes>,
                       unlucky: bool)

  datatype World = World(srv: State, peers: map<int, Peer>)

  datatype Action =
    | Agree(fd: int, cn: Bytes, noise: int)
    | TakeNonce(fd: int, premaster: Bytes, noise: int, cipher: Bytes)
    | TakeId(fd: int)
    | Arrive(fd: int)
    | Work(fd: int, luck: Luck)
    | Respond(fd: int)
    | Inject(fd: int, message: Bytes)      // any message on a connection that is not an honest client's

  // ---------------------------------------------------------------- the client's actions

  predicate Resting(ph: Phase) { ph.Idle? || ph.Agreed? || ph.Failed? }

  function OnAgree(p: Peer, cn: Bytes, noise: int): Peer {
    var req := NonceRequest(p.client, p.server, cn, noise);
    if !Resting(p.phase) || !ValidRequest(req) then p
    else p.(phase := AwaitNonce(cn), toServer := p.toServer + [EncodeRequest(req)], unlucky := false)
  }

  /** A premaster that can be encrypted, what encrypting it gave, and what an int can hold. The key
      is the server's, which the reply has brought (PayloadParsesBack). */
  predicate Drawn(env: Env, premaster: Bytes, noise: int, cipher: Bytes) {
    |premaster| < PLAIN && IsCipher(env, premaster, cipher) && IsInt32(noise)
  }

  function OnNonce(env: Env, p: Peer, premaster: Bytes, noise: int, cipher: Bytes): Peer {
    if Drawn(env, premaster, noise, cipher) then OnNonceReply(env, p, premaster, noise, cipher) else p
  }

  function OnNonceReply(env: Env, p: Peer, premaster: Bytes, noise: int, cipher: Bytes): Peer {
    if !p.phase.AwaitNonce? || p.toClient == [] then p else
    var q := p.(toClient := p.toClient[1..]);
    match DecodeResponse(p.toClient[0])
    case None => q.(phase := Failed)
    case Some(r) =>
      if r.rv != SUCCESS then q.(phase := Failed) else
      match ParsePayload(r.data)
      case None => q.(phase := Failed)
      case Some((sn, _)) =>
        var req := PrekeyRequest(env, p.client, p.server, p.phase.cn, sn, premaster, cipher, noise);
        if !ValidRequest(req) then q.(phase := Failed)
        else q.(phase := AwaitId(p.phase.cn, sn, premaster), toServer := p.toServer + [EncodeRequest(req)])
  }

  /** The second reply is decoded as a C string. */
  function OnId(p: Peer): Peer {
    if !p.phase.AwaitId? || p.toClient == [] then p else
    var q := p.(toClient := p.toClient[1..]);
    match DecodeResponse(CString(p.toClient[0]))
    case None => q.(phase := Failed)
    case Some(r) =>
      if r.rv != SUCCESS then q.(phase := Failed)
      else q.(phase := Agreed(p.phase.cn, p.phase.sn, p.phase.premaster, Atoi(r.data)))
  }

  // ---------------------------------------------------------------- one action

  predicate Misfortune(env: Env, st: Store, job: Job, luck: Luck) {
    match job
    case Random(_) => 8 + |luck.nonce| + |env.publicKey| > BUFFER
    case Insert(node, _) => !GivesId(luck.insert) || !Storable(env, node)
    case Cache(node, _) => !luck.mapped || !HasRoom(st.slots, PairOf(node))
    case _ => false
  }

  function OnArrive(env: Env, w: World, fd: int): World {
    if fd !in w.peers || w.peers[fd].toServer == [] || fd in w.srv.jobs then w else
    match DecodeRequest(w.peers[fd].toServer[0])
    case None => w
    case Some(req) =>
      World(Next(env, w.srv, Start(fd, req)), w.peers[fd := w.peers[fd].(toServer := w.peers[fd].toServer[1..])])
  }

  function OnWork(env: Env, w: World, fd: int, luck: Luck): World {
    var unlucky := fd in w.srv.jobs && Misfortune(env, w.srv.store, w.srv.jobs[fd], luck);
    World(Next(env, w.srv, Step(fd, luck)),
          if fd in w.peers then w.peers[fd := w.peers[fd].(unlucky := w.peers[fd].unlucky || unlucky)] else w.peers)
  }

  function OnRespond(env: Env, w: World, fd: int): World {
    if fd !in w.srv.jobs || !w.srv.jobs[fd].Reply? || !ValidResponse(w.srv.jobs[fd].resp) then w else
    var b := EncodeResponse(w.srv.jobs[fd].resp);
    World(Next(env, w.srv, Send(fd)),
          if fd in w.peers then w.peers[fd := w.peers[fd].(toClient := w.peers[fd].toClient + [b])] else w.peers)
  }

  function OnInject(env: Env, w: World, fd: int, message: Bytes): World {
    if fd in w.peers then w else
    match DecodeRequest(message)
    case None => w
    case Some(req) => w.(srv := Next(env, w.srv, Start(fd, req)))
  }

  function Do(env: Env, w: World, a: Action): World {
    match a
    case Arrive(fd) => OnArrive(env, w, fd)
    case Work(fd, luck) => OnWork(env, w, fd, luck)
    case Respond(fd) => OnRespond(env, w, fd)
    case Inject(fd, message) => OnInject(env, w, fd, message)
    case _ =>
      if a.fd !in w.peers then w else
      var p := w.peers[a.fd];
      w.(peers := w.peers[a.fd :=
        match a
        case Agree(_, cn, noise) => OnAgree(p, cn, noise)
        case TakeNonce(_, premaster, noise, cipher) => OnNonce(env, p, premaster, noise, cipher)
        case _ => OnId(p)])
  }

  function DoAll(env: Env, w: World, acts: seq<Action>): World
    decreases |acts|
  {
    if acts == [] then w else DoAll(env, Do(env, w, acts[0]), acts[1..])
  }

  function Begin(maxNode: nat, names: map<int, (Bytes, Bytes)>): World {
    World(Init(maxNode), map fd | fd in names :: Peer(names[fd].0, names[fd].1, Idle, [], [], false))
  }

  predicate GoodNames(names: map<int, (Bytes, Bytes)>) {
    forall fd :: fd in names ==>
      0 !in names[fd].0 && 0 !in names[fd].1 && |names[fd].0| < 12 && |names[fd].1| < 12
  }

  // ---------------------------------------------------------------- what holds for one connection

  /** The server's row is the one that was inserted for the node, but for its state, or it was lost. */
  predicate Held(env: Env, st: Store, n: Node) {
    n.keyId in st.lost || (n.keyId in st.rows && st.rows[n.keyId].(state := 1) == RowOf(env, n))
  }

  function Wanted(p: Peer, cn: Bytes, sn: Bytes, premaster: Bytes, id: int): Node {
    AgreedNode(p.client, p.server, cn, sn, premaster, id)
  }

  /** Names are C strings in arrays of twelve. */
  predicate Named(p: Peer) { 0 !in p.client && 0 !in p.server && |p.client| < 12 && |p.server| < 12 }

  predicate Quiet(p: Peer) { p.toServer == [] && p.toClient == [] }

  predicate IsNonceReply(env: Env, st: Store, fd: int, p: Peer, cn: Bytes, r: Received) {
    && fd in st.nonces && st.nonces[fd].0 == cn
    && r.rv == SUCCESS && r.data == Payload(st.nonces[fd].1, env.publicKey)
    && (8 + |st.nonces[fd].1| + |env.publicKey| > BUFFER <==> p.unlucky)
  }

  predicate Small(r: Response) { IsInt32(r.kind) && IsInt32(r.rv) && |r.client| < 12 && |r.server| < 12 }

  predicate NonceStage(env: Env, st: Store, fd: int, job: Option<Job>, p: Peer, cn: Bytes) {
    match job
    case None =>
      || (|p.toServer| == 1 && p.toClient == [] && !p.unlucky && DecodeRequest(p.toServer[0]).Some?
          && var req := DecodeRequest(p.toServer[0]).value; req == NonceRequest(p.client, p.server, cn, req.keyId))
      || (p.toServer == [] && |p.toClient| == 1 && DecodeResponse(p.toClient[0]).Some?
          && var r := DecodeResponse(p.toClient[0]).value; |r.data| < TWO31 && IsNonceReply(env, st, fd, p, cn, r))
    case Some(Random(req)) => Quiet(p) && !p.unlucky && req == NonceRequest(p.client, p.server, cn, req.keyId)
    case Some(Reply(r)) => Quiet(p) && Small(r) && IsNonceReply(env, st, fd, p, cn, OnWire(r))
    case _ => false
  }

  predicate IsIdReply(env: Env, st: Store, p: Peer, ph: Phase, r: Received)
    requires ph.AwaitId?
  {
    if r.rv == SUCCESS then !p.unlucky && Held(env, st, Wanted(p, ph.cn, ph.sn, ph.premaster, Atoi(r.data)))
    else p.unlucky
  }

  predicate Remembers(st: Store, fd: int, ph: Phase)
    requires ph.AwaitId?
  {
    fd in st.nonces && st.nonces[fd] == (ph.cn, ph.sn)
  }

  predicate IsPrekey(env: Env, p: Peer, ph: Phase, req: Request)
    requires ph.AwaitId?
  {
    && |ph.premaster| < PLAIN && IsCipher(env, ph.premaster, req.data)
    && req == PrekeyRequest(env, p.client, p.server, ph.cn, ph.sn, ph.premaster, req.data, req.keyId)
  }

  predicate IdStage(env: Env, st: Store, fd: int, job: Option<Job>, p: Peer)
    requires p.phase.AwaitId?
  {
    var ph := p.phase;
    match job
    case None =>
      || (|p.toServer| == 1 && p.toClient == [] && !p.unlucky && DecodeRequest(p.toServer[0]).Some?
          && IsPrekey(env, p, ph, DecodeRequest(p.toServer[0]).value) && Remembers(st, fd, ph))
      || (p.toServer == [] && |p.toClient| == 1 && DecodeResponse(CString(p.toClient[0])).Some?
          && IsIdReply(env, st, p, ph, DecodeResponse(CString(p.toClient[0])).value))
    case Some(Premaster(req)) => Quiet(p) && !p.unlucky && IsPrekey(env, p, ph, req) && Remembers(st, fd, ph)
    case Some(Insert(node, req)) =>
      && Quiet(p) && !p.unlucky && IsPrekey(env, p, ph, req)
      && node == Wanted(p, ph.cn, ph.sn, ph.premaster, 0).(status := 0)
    case Some(Cache(node, req)) =>
      && Quiet(p) && !p.unlucky && IsPrekey(env, p, ph, req)
      && node == Wanted(p, ph.cn, ph.sn, ph.premaster, node.keyId) && Held(env, st, node)
    case Some(Reply(r)) =>
      && Quiet(p) && Small(r) && 0 !in r.client && 0 !in r.server && 0 !in r.data
      && (r.rv == SUCCESS ==> r.data == IntToString(Atoi(r.data))) && IsIdReply(env, st, p, ph, OnWire(r))
    case _ => false
  }

  /** The client, its messages in flight, its handler and its nonces go together. */
  predicate PeerOk(env: Env, st: Store, fd: int, job: Option<Job>, p: Peer) {
    && Named(p)
    && match p.phase
       case Idle => job == None && Quiet(p)
       case Failed => job == None && Quiet(p) && p.unlucky
       case Agreed(cn, sn, premaster, id) =>
         job == None && Quiet(p) && !p.unlucky && Held(env, st, Wanted(p, cn, sn, premaster, id))
       case AwaitNonce(cn) => NonceStage(env, st, fd, job, p, cn)
       case AwaitId(_, _, _) => IdStage(env, st, fd, job, p)
  }

  function JobOf(s: State, fd: int): Option<Job> { if fd in s.jobs then Some(s.jobs[fd]) else None }

  ghost predicate WorldOk(env: Env, w: World) {
    && CacheInv(env, w.srv)
    && forall fd :: fd in w.peers ==> PeerOk(env, w.srv.store, fd, JobOf(w.srv, fd), w.peers[fd])
  }

  // ---------------------------------------------------------------- what the others do

  /** The store has grown, and this connection's nonces are as they were. */
  predicate Undisturbed(st: Store, st': Store, fd: int) {
    && Grows(st, st')
    && (fd in st'.nonces <==> fd in st.nonces)
    && (fd in st.nonces ==> st'.nonces[fd] == st.nonces[fd])
  }

  lemma HeldGrows(env: Env, st: Store, st': Store, n: Node)
    requires Held(env, st, n) && Grows(st, st')
    ensures Held(env, st', n)
  {
  }

  lemma OthersDoNotMatter(env: Env, st: Store, st': Store, fd: int, job: Option<Job>, p: Peer)
    requires PeerOk(env, st, fd, job, p) && Undisturbed(st, st', fd)
    ensures PeerOk(env, st', fd, job, p)
  {
    forall n | Held(env, st, n) ensures Held(env, st', n) { HeldGrows(env, st, st', n); }
    hide Held, Grows, DecodeRequest, DecodeResponse, CString, Payload, IsPrekey, Atoi, NonceRequest;
  }

  /** A handler touches no nonces but those of its own connection. */
  lemma NoncesAreIsolated(env: Env, st: Store, fd: int, job: Job, luck: Luck, other: int)
    requires !job.Reply? && other != fd
    ensures var st' := Act(env, st, fd, job, luck).0;
            && (other in st'.nonces <==> other in st.nonces)
            && (other in st.nonces ==> st'.nonces[other] == st.nonces[other])
  {
    hide Write, Mark, Verified, Answer, NodeOf, AuthKey, EndeKey;
  }

  // ---------------------------------------------------------------- the server's steps for an honest client

  lemma RandomKeeps(env: Env, st: Store, fd: int, job: Job, p: Peer, luck: Luck)
    requires PeerOk(env, st, fd, Some(job), p) && job.Random?
    ensures var (st', job') := Act(env, st, fd, job, luck);
            PeerOk(env, st', fd, Some(job'), p.(unlucky := p.unlucky || Misfortune(env, st, job, luck)))
  {
    hide Payload, CString;
  }

  lemma PremasterKeeps(env: Env, st: Store, fd: int, job: Job, p: Peer, luck: Luck)
    requires GoodCrypto(env) && PeerOk(env, st, fd, Some(job), p) && job.Premaster?
    ensures var (st', job') := Act(env, st, fd, job, luck); PeerOk(env, st', fd, Some(job'), p)
  {
    var ph := p.phase;
    UseCrypto(env, job.req.data, AuthKey(ph.cn, ph.sn, ph.premaster), env.hash(job.req.data));
    hide CString, AuthKey, EndeKey, GoodCrypto;
  }

  lemma InsertKeepsPeer(env: Env, st: Store, fd: int, job: Job, p: Peer, luck: Luck)
    requires PeerOk(env, st, fd, Some(job), p) && job.Insert?
    ensures var (st', job') := Act(env, st, fd, job, luck);
            PeerOk(env, st', fd, Some(job'), p.(unlucky := p.unlucky || Misfortune(env, st, job, luck)))
  {
    hide CString, AuthKey, EndeKey;
  }

  lemma CacheKeeps(env: Env, st: Store, fd: int, job: Job, p: Peer, luck: Luck)
    requires PeerOk(env, st, fd, Some(job), p) && job.Cache?
    ensures var (st', job') := Act(env, st, fd, job, luck);
            PeerOk(env, st', fd, Some(job'), p.(unlucky := p.unlucky || Misfortune(env, st, job, luck)))
  {
    RoomIsWritable(st.slots, job.node);
    AtoiOfIntToString(job.node.keyId);
    DecimalHasNoZero(job.node.keyId);
    hide CString, AuthKey, EndeKey, Write, HasRoom, Atoi, IntToString;
  }

  lemma WorkKeeps(env: Env, st: Store, fd: int, job: Job, p: Peer, luck: Luck)
    requires GoodCrypto(env) && PeerOk(env, st, fd, Some(job), p) && !job.Reply?
    ensures var (st', job') := Act(env, st, fd, job, luck);
            PeerOk(env, st', fd, Some(job'), p.(unlucky := p.unlucky || Misfortune(env, st, job, luck)))
  {
    if job.Random? { RandomKeeps(env, st, fd, job, p, luck); hide *; }
    else if job.Premaster? { PremasterKeeps(env, st, fd, job, p, luck); hide Act, PeerOk, GoodCrypto; }
    else if job.Insert? { InsertKeepsPeer(env, st, fd, job, p, luck); hide *; }
    else if job.Cache? { CacheKeeps(env, st, fd, job, p, luck); hide *; }
    else { assert false; }
  }

  lemma ArriveKeeps(env: Env, st: Store, fd: int, p: Peer)
    requires PeerOk(env, st, fd, None, p) && p.toServer != [] && DecodeRequest(p.toServer[0]).Some?
    ensures var req := DecodeRequest(p.toServer[0]).value;
            FirstStep(req).Some? && PeerOk(env, st, fd, Some(FirstStep(req).value), p.(toServer := p.toServer[1..]))
  {
    hide DecodeRequest, DecodeResponse, CString, Payload, AuthKey, Held;
  }

  lemma NonceRespondKeeps(env: Env, st: Store, fd: int, r: Response, p: Peer)
    requires PeerOk(env, st, fd, Some(Reply(r)), p) && ValidResponse(r) && p.phase.AwaitNonce?
    ensures PeerOk(env, st, fd, None, p.(toClient := p.toClient + [EncodeResponse(r)]))
  {
    ResponseRoundTrip(r);
    hide DecodeRequest, DecodeResponse, EncodeResponse, Payload, IdStage, IsNonceReply;
    var q := p.(toClient := p.toClient + [EncodeResponse(r)]);
    assert q.toClient[0] == EncodeResponse(r);
    assert IsNonceReply(env, st, fd, q, p.phase.cn, OnWire(r)) by {
      NonceReplyOfPeer(env, st, fd, p, q, p.phase.cn, OnWire(r));
    }
  }

  lemma NonceReplyOfPeer(env: Env, st: Store, fd: int, p: Peer, q: Peer, cn: Bytes, r: Received)
    requires IsNonceReply(env, st, fd, p, cn, r) && (p.unlucky <==> q.unlucky)
    ensures IsNonceReply(env, st, fd, q, cn, r)
  {
  }

  lemma AnsweredIsOk(env: Env, st: Store, fd: int, p: Peer, r: Received)
    requires p.phase.AwaitId? && Named(p) && p.toServer == [] && |p.toClient| == 1
    requires DecodeResponse(CString(p.toClient[0])) == Some(r) && IsIdReply(env, st, p, p.phase, r)
    ensures PeerOk(env, st, fd, None, p)
  {
    hide DecodeResponse, DecodeRequest, CString, IsIdReply, Named, NonceStage;
  }

  lemma IdRespondKeeps(env: Env, st: Store, fd: int, r: Response, p: Peer)
    requires PeerOk(env, st, fd, Some(Reply(r)), p) && ValidResponse(r) && p.phase.AwaitId?
    ensures PeerOk(env, st, fd, None, p.(toClient := p.toClient + [EncodeResponse(r)]))
  {
    CStringDecodes(r);
    var q := p.(toClient := p.toClient + [EncodeResponse(r)]);
    assert IdStage(env, st, fd, Some(Reply(r)), p) && Named(p);
    hide PeerOk, DecodeRequest, DecodeResponse, EncodeResponse, CString, Held, AgreedNode, Atoi, NonceStage;
    assert q.toClient[0] == EncodeResponse(r);
    AnsweredIsOk(env, st, fd, q, OnWire(r));
  }

  lemma RespondKeeps(env: Env, st: Store, fd: int, r: Response, p: Peer)
    requires PeerOk(env, st, fd, Some(Reply(r)), p) && ValidResponse(r)
    ensures PeerOk(env, st, fd, None, p.(toClient := p.toClient + [EncodeResponse(r)]))
  {
    if p.phase.AwaitNonce? {
      NonceRespondKeeps(env, st, fd, r, p);
      hide *;
    } else if p.phase.AwaitId? {
      IdRespondKeeps(env, st, fd, r, p);
      hide *;
    }
    hide EncodeResponse, NonceStage, IdStage;
  }

  // ---------------------------------------------------------------- the client's steps

  lemma AskedIsOk(env: Env, st: Store, fd: int, p: Peer, req: Request)
    requires p.phase.AwaitNonce? && Named(p) && !p.unlucky
             && req == NonceRequest(p.client, p.server, p.phase.cn, req.keyId)
    requires |p.toServer| == 1 && p.toClient == [] && DecodeRequest(p.toServer[0]) == Some(req)
    ensures PeerOk(env, st, fd, None, p)
  {
    hide DecodeRequest, DecodeResponse, NonceRequest, Named;
  }

  lemma AgreeKeeps(env: Env, st: Store, fd: int, job: Option<Job>, p: Peer, cn: Bytes, noise: int)
    requires PeerOk(env, st, fd, job, p)
    ensures PeerOk(env, st, fd, job, OnAgree(p, cn, noise))
  {
    var req := NonceRequest(p.client, p.server, cn, noise);
    if Resting(p.phase) && ValidRequest(req) {
      RequestRoundTrip(req);
      assert Quiet(p) && job == None && Named(p);
      hide PeerOk, EncodeRequest, DecodeRequest, ValidRequest;
      AskedIsOk(env, st, fd, OnAgree(p, cn, noise), req);
    } else {
      hide PeerOk, EncodeRequest, ValidRequest;
    }
  }

  lemma PrekeyIsValid(env: Env, p: Peer, cn: Bytes, sn: Bytes, premaster: Bytes, noise: int, cipher: Bytes)
    requires GoodCrypto(env) && |p.client| < 12 && |p.server| < 12 && Drawn(env, premaster, noise, cipher)
    ensures ValidRequest(PrekeyRequest(env, p.client, p.server, cn, sn, premaster, cipher, noise))
  {
    UseCrypto(env, cipher, AuthKey(cn, sn, premaster), env.hash(cipher));
    hide GoodCrypto, AuthKey, CString;
  }

  /** A waiting reply to the nonce request, and nothing else in flight. */
  lemma NonceReplyWaits(env: Env, st: Store, fd: int, job: Option<Job>, p: Peer)
    requires PeerOk(env, st, fd, job, p) && p.phase.AwaitNonce? && p.toClient != []
    ensures job == None && p.toServer == [] && |p.toClient| == 1 && DecodeResponse(p.toClient[0]).Some?
    ensures var r := DecodeResponse(p.toClient[0]).value;
            |r.data| < TWO31 && IsNonceReply(env, st, fd, p, p.phase.cn, r)
    ensures Named(p)
  {
    hide IsNonceReply, DecodeResponse, DecodeRequest, NonceRequest;
  }

  lemma OnNonceGives(env: Env, st: Store, fd: int, p: Peer, premaster: Bytes, noise: int, cipher: Bytes)
    requires p.phase.AwaitNonce? && |p.toClient| == 1 && p.toServer == [] && Drawn(env, premaster, noise, cipher)
    requires DecodeResponse(p.toClient[0]).Some?
    requires var r := DecodeResponse(p.toClient[0]).value;
             |r.data| < TWO31 && IsNonceReply(env, st, fd, p, p.phase.cn, r)
    ensures var sn := st.nonces[fd].1;
            var req := PrekeyRequest(env, p.client, p.server, p.phase.cn, sn, premaster, cipher, noise);
            OnNonce(env, p, premaster, noise, cipher) ==
            if 8 + |sn| + |env.publicKey| <= BUFFER && ValidRequest(req)
            then p.(toClient := [], phase := AwaitId(p.phase.cn, sn, premaster), toServer := [EncodeRequest(req)])
            else p.(toClient := [], phase := Failed)
  {
    assert p.toClient[1..] == [];
    PayloadFits(st.nonces[fd].1, env.publicKey);
    hide DecodeResponse, EncodeRequest, ParsePayload, Payload, PrekeyRequest, ValidRequest;
  }

  lemma FailureIsOk(env: Env, st: Store, fd: int, p: Peer)
    requires Named(p) && p.unlucky && p.toServer == []
    ensures PeerOk(env, st, fd, None, p.(toClient := [], phase := Failed))
  {
  }

  lemma SentIsOk(env: Env, st: Store, fd: int, p: Peer, req: Request)
    requires p.phase.AwaitId? && !p.unlucky && IsPrekey(env, p, p.phase, req) && Named(p) && Remembers(st, fd, p.phase)
    requires |p.toServer| == 1 && p.toClient == [] && DecodeRequest(p.toServer[0]) == Some(req)
    ensures PeerOk(env, st, fd, None, p)
  {
    hide DecodeRequest, DecodeResponse, IsPrekey, Remembers;
  }

  lemma PrekeyIsOk(env: Env, st: Store, fd: int, p: Peer, sn: Bytes, premaster: Bytes, noise: int, cipher: Bytes)
    requires GoodCrypto(env) && p.phase.AwaitNonce? && Named(p) && !p.unlucky && Drawn(env, premaster, noise, cipher)
    requires fd in st.nonces && st.nonces[fd] == (p.phase.cn, sn)
    ensures var req := PrekeyRequest(env, p.client, p.server, p.phase.cn, sn, premaster, cipher, noise);
            && ValidRequest(req)
            && PeerOk(env, st, fd, None,
                      p.(toClient := [], phase := AwaitId(p.phase.cn, sn, premaster), toServer := [EncodeRequest(req)]))
  {
    PrekeyIsValid(env, p, p.phase.cn, sn, premaster, noise, cipher);
    var req := PrekeyRequest(env, p.client, p.server, p.phase.cn, sn, premaster, cipher, noise);
    RequestRoundTrip(req);
    var ph := AwaitId(p.phase.cn, sn, premaster);
    var q := p.(toClient := [], phase := ph, toServer := [EncodeRequest(req)]);
    assert IsPrekey(env, q, ph, req) && Named(q) && Remembers(st, fd, ph);
    hide *;
    SentIsOk(env, st, fd, q, req);
  }

  lemma NonceKeeps(env: Env, st: Store, fd: int, job: Option<Job>, p: Peer, premaster: Bytes, noise: int, cipher: Bytes)
    requires GoodCrypto(env) && PeerOk(env, st, fd, job, p)
    ensures PeerOk(env, st, fd, job, OnNonce(env, p, premaster, noise, cipher))
  {
    if p.phase.AwaitNonce? && p.toClient != [] && Drawn(env, premaster, noise, cipher) {
      NonceReplyWaits(env, st, fd, job, p);
      hide PeerOk;
      OnNonceGives(env, st, fd, p, premaster, noise, cipher);
      hide OnNonce, DecodeResponse, EncodeRequest, Payload, PrekeyRequest, GoodCrypto, ValidRequest;
      if p.unlucky { FailureIsOk(env, st, fd, p); }
      else { PrekeyIsOk(env, st, fd, p, st.nonces[fd].1, premaster, noise, cipher); }
    } else {
      hide PeerOk;
    }
  }

  lemma PayloadFits(nonce: Bytes, key: Bytes)
    requires |Payload(nonce, key)| < TWO31
    ensures ParsePayload(Payload(nonce, key)) == if 8 + |nonce| + |key| <= BUFFER then Some((nonce, key)) else None
  {
    PayloadParsesBack(nonce, key);
  }

  lemma IdReplyWaits(env: Env, st: Store, fd: int, job: Option<Job>, p: Peer)
    requires PeerOk(env, st, fd, job, p) && p.phase.AwaitId? && p.toClient != []
    ensures job == None && p.toServer == [] && |p.toClient| == 1 && DecodeResponse(CString(p.toClient[0])).Some?
    ensures IsIdReply(env, st, p, p.phase, DecodeResponse(CString(p.toClient[0])).value) && Named(p)
  {
    hide IsIdReply, DecodeResponse, DecodeRequest, IsPrekey, CString, Remembers, Held, Wanted;
  }

  lemma AgreedIsOk(env: Env, st: Store, fd: int, p: Peer, id: int)
    requires p.phase.AwaitId? && Named(p) && p.toServer == [] && !p.unlucky
    requires Held(env, st, Wanted(p, p.phase.cn, p.phase.sn, p.phase.premaster, id))
    ensures PeerOk(env, st, fd, None, p.(toClient := [],
                                                phase := Agreed(p.phase.cn, p.phase.sn, p.phase.premaster, id)))
  {
    hide Held, AgreedNode;
  }

  lemma IdKeeps(env: Env, st: Store, fd: int, job: Option<Job>, p: Peer)
    requires PeerOk(env, st, fd, job, p)
    ensures PeerOk(env, st, fd, job, OnId(p))
  {
    if p.phase.AwaitId? && p.toClient != [] {
      IdReplyWaits(env, st, fd, job, p);
      hide PeerOk, DecodeResponse, CString, Held, Atoi, AgreedNode;
      assert p.toClient[1..] == [];
      var r := DecodeResponse(CString(p.toClient[0])).value;
      if r.rv == SUCCESS { AgreedIsOk(env, st, fd, p, Atoi(r.data)); } else { FailureIsOk(env, st, fd, p); }
    } else {
      hide PeerOk;
    }
  }

  // ---------------------------------------------------------------- every action, every run

  lemma DoKeeps(env: Env, w: World, a: Action)
    requires GoodCrypto(env) && WorldOk(env, w)
    ensures WorldOk(env, Do(env, w, a))
  {
    hide Act, PeerOk, CacheInv, Grows, GoodCrypto;
    var st := w.srv.store;
    match a
    case Work(fd, luck) => OnWorkKeeps(env, w, fd, luck);
    case Arrive(fd) => OnArriveKeeps(env, w, fd);
    case Respond(fd) =>
      CacheStep(env, w.srv, Send(fd));
      if fd in w.peers && fd in w.srv.jobs && w.srv.jobs[fd].Reply? && ValidResponse(w.srv.jobs[fd].resp) {
        RespondKeeps(env, st, fd, w.srv.jobs[fd].resp, w.peers[fd]);
      }
      hide EncodeResponse, ValidResponse;
    case Inject(fd, message) =>
      if fd !in w.peers && DecodeRequest(message).Some? {
        CacheStep(env, w.srv, Start(fd, DecodeRequest(message).value));
      }
      hide DecodeRequest;
    case Agree(fd, cn, noise) =>
      if fd in w.peers { AgreeKeeps(env, st, fd, JobOf(w.srv, fd), w.peers[fd], cn, noise); }
      hide OnAgree;
    case TakeNonce(fd, premaster, noise, cipher) =>
      if fd in w.peers { NonceKeeps(env, st, fd, JobOf(w.srv, fd), w.peers[fd], premaster, noise, cipher); }
      hide OnNonce;
    case TakeId(fd) =>
      if fd in w.peers { IdKeeps(env, st, fd, JobOf(w.srv, fd), w.peers[fd]); }
      hide OnId;
  }

  lemma OnArriveKeeps(env: Env, w: World, fd: int)
    requires WorldOk(env, w)
    ensures WorldOk(env, OnArrive(env, w, fd))
  {
    if fd in w.peers && w.peers[fd].toServer != [] && fd !in w.srv.jobs
      && DecodeRequest(w.peers[fd].toServer[0]).Some? {
      var req := DecodeRequest(w.peers[fd].toServer[0]).value;
      CacheStep(env, w.srv, Start(fd, req));
      ArriveKeeps(env, w.srv.store, fd, w.peers[fd]);
      hide DecodeRequest, PeerOk, CacheInv, FirstStep;
    }
  }

  lemma OnWorkKeeps(env: Env, w: World, fd: int, luck: Luck)
    requires GoodCrypto(env) && WorldOk(env, w)
    ensures WorldOk(env, OnWork(env, w, fd, luck))
  {
    assert forall r :: !Misfortune(env, w.srv.store, Reply(r), luck);
    hide Act, PeerOk, Misfortune, Grows, GoodCrypto;
    var w' := OnWork(env, w, fd, luck);
    CacheStep(env, w.srv, Step(fd, luck));
    if Enabled(w.srv, Step(fd, luck)) {
      ActKeepsCache(env, w.srv.store, fd, w.srv.jobs[fd], luck);
      if fd in w.peers { WorkKeeps(env, w.srv.store, fd, w.srv.jobs[fd], w.peers[fd], luck); }
      hide CacheInv;
      forall g | g in w.peers && g != fd ensures PeerOk(env, w'.srv.store, g, JobOf(w'.srv, g), w'.peers[g]) {
        NoncesAreIsolated(env, w.srv.store, fd, w.srv.jobs[fd], luck, g);
        OthersDoNotMatter(env, w.srv.store, w'.srv.store, g, JobOf(w.srv, g), w.peers[g]);
      }
    }
  }
}
