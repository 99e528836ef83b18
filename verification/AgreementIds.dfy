/** No two honest clients end with the same key ID, however their agreements are interleaved. */
module AgreementIds {
  import opened Bytes
  import opened SlotTable
  import opened KeyServer
  import opened KeyCache
  import opened Client
  import opened Codec
  import opened Agreement
  import opened AgreementRuns

  function IdIn(r: Received): Option<int> { if r.rv == SUCCESS then Some(Atoi(r.data)) else None }

  function IdInOctets(b: Bytes): Option<int> {
    if DecodeResponse(CString(b)).Some? then IdIn(DecodeResponse(CString(b)).value) else None
  }

  /** The key ID that this connection's agreement has been given, wherever it is by now. */
  function IdOf(job: Option<Job>, p: Peer): Option<int> {
    match p.phase
    case Agreed(_, _, _, id) => Some(id)
    case AwaitId(_, _, _) =>
      (match job
       case Some(Cache(node, _)) => Some(node.keyId)
       case Some(Reply(r)) => IdIn(OnWire(r))
       case None => if p.toClient != [] then IdInOctets(p.toClient[0]) else None
       case _ => None)
    case _ => None
  }

  function WorldId(w: World, fd: int): Option<int>
    requires fd in w.peers
  {
    IdOf(JobOf(w.srv, fd), w.peers[fd])
  }

  /** An agreement keeps its ID, drops it, or is given one that was not there before. */
  predicate IdMoves(id: Option<int>, id': Option<int>, nextId: int, nextId': int) {
    id' == id || id' == None || (id' == Some(nextId) && nextId' > nextId)
  }

  lemma WorkMovesId(env: Env, st: Store, fd: int, job: Job, p: Peer, luck: Luck)
    requires PeerOk(env, st, fd, Some(job), p) && !job.Reply?
    ensures var (st', job') := Act(env, st, fd, job, luck);
            IdMoves(IdOf(Some(job), p), IdOf(Some(job'), p), st.nextId, st'.nextId)
  {
    if job.Cache? { AtoiOfIntToString(job.node.keyId); }
    hide CString, AuthKey, EndeKey, Write, Atoi, IntToString, Held, IsPrekey, NonceRequest, IsNonceReply, Mark;
  }

  lemma ClientMovesId(env: Env, st: Store, fd: int, job: Option<Job>, p: Peer, a: Action)
    requires PeerOk(env, st, fd, job, p) && (a.Agree? || a.TakeNonce? || a.TakeId?)
    ensures var q := match a
                     case Agree(_, cn, noise) => OnAgree(p, cn, noise)
                     case TakeNonce(_, premaster, noise, cipher) => OnNonce(env, p, premaster, noise, cipher)
                     case _ => OnId(p);
            IdOf(job, q) == IdOf(job, p) || IdOf(job, q) == None
  {
    JobInPhase(env, st, fd, job, p);
    hide PeerOk, DecodeRequest, DecodeResponse, EncodeResponse, EncodeRequest, ParsePayload, CString,
         PrekeyRequest, ValidRequest, ValidResponse, Atoi;
  }

  lemma RespondMovesId(env: Env, st: Store, fd: int, r: Response, p: Peer)
    requires PeerOk(env, st, fd, Some(Reply(r)), p) && ValidResponse(r)
    ensures IdOf(None, p.(toClient := p.toClient + [EncodeResponse(r)])) == IdOf(Some(Reply(r)), p)
  {
    if p.phase.AwaitId? {
      CStringDecodes(r);
      assert (p.toClient + [EncodeResponse(r)])[0] == EncodeResponse(r);
    }
    hide DecodeRequest, DecodeResponse, EncodeResponse, CString, Held, Atoi, NonceStage, IsIdReply;
  }

  lemma OwnWorkMovesId(env: Env, w: World, fd: int, luck: Luck)
    requires fd in w.peers && PeerOk(env, w.srv.store, fd, JobOf(w.srv, fd), w.peers[fd])
    ensures var w' := OnWork(env, w, fd, luck);
            fd in w'.peers && IdMoves(WorldId(w, fd), WorldId(w', fd), w.srv.store.nextId, w'.srv.store.nextId)
  {
    var job := JobOf(w.srv, fd);
    if job.Some? && !job.value.Reply? { WorkMovesId(env, w.srv.store, fd, job.value, w.peers[fd], luck); }
    hide PeerOk, Act, Misfortune, IdInOctets, IdIn;
  }

  lemma OwnActionMovesId(env: Env, w: World, a: Action)
    requires WorldOk(env, w) && a.fd in w.peers
    ensures var w' := Do(env, w, a);
            a.fd in w'.peers && IdMoves(WorldId(w, a.fd), WorldId(w', a.fd), w.srv.store.nextId, w'.srv.store.nextId)
  {
    var fd := a.fd;
    var st, job, p := w.srv.store, JobOf(w.srv, fd), w.peers[fd];
    assert PeerOk(env, st, fd, job, p);
    JobInPhase(env, st, fd, job, p);
    hide PeerOk, CacheInv, Act, Misfortune, DecodeRequest, IdInOctets, IdIn;
    match a
    case Work(_, luck) => OwnWorkMovesId(env, w, fd, luck); hide OnWork, WorldId;
    case Respond(_) =>
      if job.Some? && job.value.Reply? && ValidResponse(job.value.resp) {
        RespondMovesId(env, st, fd, job.value.resp, p);
      }
      hide EncodeResponse, ValidResponse;
    case Arrive(_) => hide FirstStep;
    case Inject(_, _) =>
    case _ => ClientMovesId(env, st, fd, job, p, a); hide OnAgree, OnNonce, OnId, IdOf;
  }

  lemma OtherActionKeepsId(env: Env, w: World, a: Action, fd: int)
    requires fd in w.peers && a.fd != fd
    ensures var w' := Do(env, w, a);
            fd in w'.peers && WorldId(w', fd) == WorldId(w, fd) && w'.srv.store.nextId >= w.srv.store.nextId
  {
    if a.Work? && Enabled(w.srv, Step(a.fd, a.luck)) { ActNextId(env, w.srv.store, a.fd, w.srv.jobs[a.fd], a.luck); }
    hide Act, Misfortune, DecodeRequest, EncodeResponse, ValidResponse, FirstStep, IdInOctets, IdIn, OnAgree, OnNonce,
         OnId;
  }

  ghost predicate IdsDiffer(w: World) {
    && (forall fd :: fd in w.peers && WorldId(w, fd).Some? ==> WorldId(w, fd).value < w.srv.store.nextId)
    && (forall a, b :: a in w.peers && b in w.peers && a != b && WorldId(w, a).Some? ==> WorldId(w, a) != WorldId(w, b))
  }

  lemma DoKeepsIds(env: Env, w: World, a: Action)
    requires GoodCrypto(env) && WorldOk(env, w) && IdsDiffer(w)
    ensures IdsDiffer(Do(env, w, a))
  {
    hide Do, WorldId, WorldOk, GoodCrypto;
    var w' := Do(env, w, a);
    SamePeers(env, w, a);
    if a.fd in w.peers { OwnActionMovesId(env, w, a); }
    forall fd | fd in w.peers && fd != a.fd ensures WorldId(w', fd) == WorldId(w, fd) {
      OtherActionKeepsId(env, w, a, fd);
    }
  }

  lemma SamePeers(env: Env, w: World, a: Action)
    ensures Do(env, w, a).peers.Keys == w.peers.Keys
    ensures Do(env, w, a).srv.store.nextId >= w.srv.store.nextId
  {
    if a.Work? && Enabled(w.srv, Step(a.fd, a.luck)) { ActNextId(env, w.srv.store, a.fd, w.srv.jobs[a.fd], a.luck); }
    hide Act, Misfortune, DecodeRequest, EncodeResponse, ValidResponse, FirstStep, OnAgree, OnNonce, OnId;
  }

  lemma {:induction false} IdsInEveryRun(env: Env, w: World, acts: seq<Action>)
    requires GoodCrypto(env) && WorldOk(env, w) && IdsDiffer(w)
    ensures IdsDiffer(DoAll(env, w, acts))
    decreases |acts|
  {
    if acts != [] {
      hide WorldOk, Do, IdsDiffer, GoodCrypto;
      DoKeeps(env, w, acts[0]);
      DoKeepsIds(env, w, acts[0]);
      IdsInEveryRun(env, Do(env, w, acts[0]), acts[1..]);
    }
  }

  /** Key IDs are not shared: after every run, two honest clients that have agreed hold different IDs. */
  lemma KeyIdsAreNotShared(env: Env, maxNode: nat, names: map<int, (Bytes, Bytes)>, acts: seq<Action>, a: int, b: int)
    requires GoodCrypto(env) && GoodNames(names) && a != b
    requires var ps := DoAll(env, Begin(maxNode, names), acts).peers;
             a in ps && b in ps && ps[a].phase.Agreed? && ps[b].phase.Agreed?
    ensures var ps := DoAll(env, Begin(maxNode, names), acts).peers; ps[a].phase.id != ps[b].phase.id
  {
    BeginIsOk(env, maxNode, names);
    IdsInEveryRun(env, Begin(maxNode, names), acts);
    var w := DoAll(env, Begin(maxNode, names), acts);
    assert IdsDiffer(w);
    assert WorldId(w, a) == Some(w.peers[a].phase.id) && WorldId(w, b) == Some(w.peers[b].phase.id);
  }
}
