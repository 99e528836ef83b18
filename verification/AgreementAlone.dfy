/**
 An agreement that nothing disturbs goes through: an honest client that starts when there is a free
 or matching slot, the database works and the payload fits, ends with a key agreed on.
 */
module AgreementAlone {
  import opened Bytes
  import opened SlotTable
  import opened KeyServer
  import opened KeyCache
  import opened Client
  import opened Codec
  import opened Agreement
  import opened AgreementRuns

  /** What a client draws for an agreement, and what encrypting the premaster gave. */
  datatype Draw = Draw(cn: Bytes, premaster: Bytes, noise: int, cipher: Bytes)

  predicate GoodLuck(env: Env, luck: Luck) {
    GivesId(luck.insert) && luck.mapped && 8 + |luck.nonce| + |env.publicKey| <= 2048
  }

  /** The agreement goes by this draw and by the nonce that the server is to draw. */
  predicate OnTrack(w: World, fd: int, luck: Luck, d: Draw)
    requires fd in w.peers
  {
    match w.peers[fd].phase
    case AwaitNonce(cn) =>
      cn == d.cn && (Left(w, fd) <= 8 ==> fd in w.srv.store.nonces && w.srv.store.nonces[fd].1 == luck.nonce)
    case AwaitId(cn, sn, premaster) => cn == d.cn && sn == luck.nonce && premaster == d.premaster
    case Agreed(cn, sn, premaster, _) => cn == d.cn && sn == luck.nonce && premaster == d.premaster
    case _ => true
  }

  /** Nothing stands in the way of the rest of this agreement. */
  predicate Smooth(env: Env, w: World, fd: int, luck: Luck, d: Draw) {
    && fd in w.peers && OnTrack(w, fd, luck, d)
    && Storable(env, AgreedNode(w.peers[fd].client, w.peers[fd].server, d.cn, luck.nonce, d.premaster, 0))
    && !w.peers[fd].unlucky && !w.peers[fd].phase.Idle?
    && w.srv.store.nextId <= TWO31 && (Left(w, fd) >= 4 ==> w.srv.store.nextId < TWO31)
    && (Left(w, fd) >= 3 ==> HasRoom(w.srv.store.slots, (w.peers[fd].client, w.peers[fd].server)))
  }

  function NextFor(w: World, fd: int, luck: Luck, d: Draw): Action
    requires fd in w.peers
  {
    match JobOf(w.srv, fd)
    case Some(Reply(_)) => Respond(fd)
    case Some(_) => Work(fd, luck)
    case None =>
      if w.peers[fd].toServer != [] then Arrive(fd)
      else if w.peers[fd].phase.AwaitNonce? then TakeNonce(fd, d.premaster, d.noise, d.cipher)
      else TakeId(fd)
  }

  /** Only the insertion takes an ID, and only the last step before the reply writes a slot. */
  lemma WorkSpares(env: Env, st: Store, fd: int, job: Job, p: Peer, luck: Luck)
    requires PeerOk(env, st, fd, Some(job), p) && !job.Reply? && GoodLuck(env, luck)
    requires Remaining(Some(job), p) == 3 ==> HasRoom(st.slots, (p.client, p.server))
    requires job.Insert? ==> Storable(env, job.node)
    ensures var st' := Act(env, st, fd, job, luck).0;
            && !Misfortune(env, st, job, luck)
            && st'.nextId == (if Remaining(Some(job), p) == 4 then st.nextId + 1 else st.nextId)
            && (Remaining(Some(job), p) != 3 ==> st'.slots == st.slots)
  {
    JobsOfPhase(env, st, fd, job, p);
    hide Write, Mark, Verified, HasRoom, AuthKey, EndeKey, Payload, IntToString, IsNonceReply, Held, Atoi, Storable,
         CString;
  }

  lemma WorkOnTrack(env: Env, st: Store, fd: int, job: Job, p: Peer, luck: Luck)
    requires PeerOk(env, st, fd, Some(job), p) && !job.Reply?
    ensures p.phase.AwaitNonce? ==>
              var st' := Act(env, st, fd, job, luck).0; fd in st'.nonces && st'.nonces[fd].1 == luck.nonce
    ensures job.Insert? ==> p.phase.AwaitId?
                            && job.node == Wanted(p, p.phase.cn, p.phase.sn, p.phase.premaster, 0).(status := 0)
  {
    JobsOfPhase(env, st, fd, job, p);
    hide Write, Mark, Verified, HasRoom, AuthKey, EndeKey, Payload, IntToString, IsNonceReply, Held, Atoi, Storable,
         CString;
  }

  lemma WorkIsSmooth(env: Env, w: World, fd: int, luck: Luck, d: Draw)
    requires GoodCrypto(env) && WorldOk(env, w) && Smooth(env, w, fd, luck, d) && GoodLuck(env, luck)
    requires fd in w.srv.jobs && !w.srv.jobs[fd].Reply?
    ensures Smooth(env, OnWork(env, w, fd, luck), fd, luck, d)
  {
    var job, p := w.srv.jobs[fd], w.peers[fd];
    assert PeerOk(env, w.srv.store, fd, Some(job), p);
    WorkOnTrack(env, w.srv.store, fd, job, p, luck);
    JobsOfPhase(env, w.srv.store, fd, job, p);
    WorkSpares(env, w.srv.store, fd, job, p, luck);
    WorkingAdvances(env, w, fd, luck);
    hide WorldOk, PeerOk, Act, Misfortune, GoodCrypto, HasRoom, Remaining, GoodLuck, CString, AuthKey, EndeKey;
  }

  lemma StepIsSmooth(env: Env, w: World, fd: int, luck: Luck, d: Draw)
    requires GoodCrypto(env) && WorldOk(env, w) && Smooth(env, w, fd, luck, d) && GoodLuck(env, luck)
    requires Left(w, fd) > 0 && Drawn(env, d.premaster, d.noise, d.cipher)
    ensures var a := NextFor(w, fd, luck, d);
            a.fd == fd && IsNext(env, w, fd, a) && Smooth(env, Do(env, w, a), fd, luck, d)
  {
    var a := NextFor(w, fd, luck, d);
    NextAdvances(env, w, fd, a);
    if a.Work? {
      WorkIsSmooth(env, w, fd, luck, d);
      hide WorldOk, GoodCrypto, OnWork, Smooth;
    } else {
      DoIsMonotone(env, w, fd, a);
      OnlyWorkChangesTheStore(env, w, fd, a);
      ClientOnTrack(env, w, fd, luck, d);
      hide WorldOk, GoodCrypto, Do, HasRoom, Remaining, OnTrack, Storable, IsNext, NextFor, AgreedNode;
    }
  }

  lemma OnlyWorkChangesTheStore(env: Env, w: World, fd: int, a: Action)
    requires fd in w.peers && !a.Work? && !a.Agree?
    ensures var w' := Do(env, w, a);
            && w'.srv.store == w.srv.store && fd in w'.peers && w'.peers[fd].unlucky == w.peers[fd].unlucky
            && w'.peers[fd].client == w.peers[fd].client && w'.peers[fd].server == w.peers[fd].server
  {
    hide Act, DecodeRequest, DecodeResponse, EncodeResponse, EncodeRequest, ParsePayload, CString, PrekeyRequest,
         ValidRequest, ValidResponse, FirstStep, Atoi, Drawn;
  }

  lemma NonceOnTrack(env: Env, w: World, fd: int, luck: Luck, d: Draw)
    requires WorldOk(env, w) && fd in w.peers && OnTrack(w, fd, luck, d) && w.peers[fd].phase.AwaitNonce?
    requires JobOf(w.srv, fd) == None && w.peers[fd].toServer == [] && w.peers[fd].toClient != []
    requires Drawn(env, d.premaster, d.noise, d.cipher)
    ensures OnTrack(Do(env, w, TakeNonce(fd, d.premaster, d.noise, d.cipher)), fd, luck, d)
  {
    var p := w.peers[fd];
    NonceReplyWaits(env, w.srv.store, fd, None, p);
    OnNonceGives(env, w.srv.store, fd, p, d.premaster, d.noise, d.cipher);
    hide WorldOk, OnNonce, DecodeResponse, EncodeRequest, PrekeyRequest, ValidRequest, Drawn, IsNonceReply;
  }

  lemma ServerOnTrack(env: Env, w: World, fd: int, luck: Luck, d: Draw, a: Action)
    requires fd in w.peers && OnTrack(w, fd, luck, d) && a.fd == fd && (a.Arrive? || a.Respond?)
    requires fd in Do(env, w, a).peers
             && (w.peers[fd].phase.AwaitNonce? && Left(Do(env, w, a), fd) <= 8 ==> Left(w, fd) <= 8)
    ensures OnTrack(Do(env, w, a), fd, luck, d)
  {
    hide DecodeRequest, EncodeResponse, ValidResponse, FirstStep, Remaining;
  }

  lemma IdOnTrack(env: Env, w: World, fd: int, luck: Luck, d: Draw)
    requires fd in w.peers && OnTrack(w, fd, luck, d) && w.peers[fd].phase.AwaitId?
    ensures OnTrack(Do(env, w, TakeId(fd)), fd, luck, d)
  {
    hide DecodeResponse, CString, Atoi;
  }

  lemma ClientOnTrack(env: Env, w: World, fd: int, luck: Luck, d: Draw)
    requires WorldOk(env, w) && fd in w.peers && OnTrack(w, fd, luck, d) && Left(w, fd) > 0
    requires Drawn(env, d.premaster, d.noise, d.cipher) && !NextFor(w, fd, luck, d).Work?
    requires fd in Do(env, w, NextFor(w, fd, luck, d)).peers
    ensures OnTrack(Do(env, w, NextFor(w, fd, luck, d)), fd, luck, d)
  {
    var a := NextFor(w, fd, luck, d);
    JobInPhase(env, w.srv.store, fd, JobOf(w.srv, fd), w.peers[fd]);
    hide PeerOk, CacheInv, OnTrack, Drawn, DecodeRequest;
    if a.TakeNonce? { NonceOnTrack(env, w, fd, luck, d); }
    else if a.TakeId? { IdOnTrack(env, w, fd, luck, d); }
    else {
      if w.peers[fd].phase.AwaitNonce? { StageOfServer(env, w, fd, a); }
      hide Do;
      ServerOnTrack(env, w, fd, luck, d, a);
    }
  }

  /** A request that arrives leaves nine steps of the nonce stage at least; a reply leaves eight. */
  lemma StageOfServer(env: Env, w: World, fd: int, a: Action)
    requires WorldOk(env, w) && fd in w.peers && a.fd == fd && (a.Arrive? || a.Respond?)
    requires fd in Do(env, w, a).peers && w.peers[fd].phase.AwaitNonce?
    requires a.Arrive? ==> JobOf(w.srv, fd) == None && w.peers[fd].toServer != []
    requires a.Respond? ==> fd in w.srv.jobs && w.srv.jobs[fd].Reply?
    ensures Left(Do(env, w, a), fd) <= 8 ==> Left(w, fd) <= 8
  {
  }

  /** Agreed, with the client's draw and the nonce that the server drew. */
  predicate HasAgreed(ph: Phase, luck: Luck, d: Draw) {
    ph.Agreed? && ph.ccn == d.cn && ph.csn == luck.nonce && ph.cpremaster == d.premaster
  }

  /** The rest of an agreement, one step after the other. */
  lemma {:induction false} Finishes(env: Env, w: World, fd: int, luck: Luck, d: Draw)
      returns (acts: seq<Action>)
    requires GoodCrypto(env) && WorldOk(env, w) && Smooth(env, w, fd, luck, d) && GoodLuck(env, luck)
             && Drawn(env, d.premaster, d.noise, d.cipher)
    ensures forall i :: 0 <= i < |acts| ==> acts[i].fd == fd
    ensures var w' := DoAll(env, w, acts); fd in w'.peers && HasAgreed(w'.peers[fd].phase, luck, d)
    decreases Left(w, fd)
  {
    hide GoodCrypto, Do;
    if Left(w, fd) == 0 {
      acts := [];
      RestedWithoutBadLuck(env, w, fd);
    } else {
      var a := NextFor(w, fd, luck, d);
      StepIsSmooth(env, w, fd, luck, d);
      NextAdvances(env, w, fd, a);
      DoKeeps(env, w, a);
      hide WorldOk, Smooth, IsNext, NextFor;
      var rest := Finishes(env, Do(env, w, a), fd, luck, d);
      acts := [a] + rest;
      assert acts[1..] == rest;
    }
  }

  lemma AgreeStarts(p: Peer, d: Draw)
    requires Resting(p.phase) && Quiet(p) && Named(p) && |d.cn| < TWO31 && IsInt32(d.noise)
    ensures var q := OnAgree(p, d.cn, d.noise);
            && q.phase == AwaitNonce(d.cn) && !q.unlucky && q.toServer != []
            && q.client == p.client && q.server == p.server
  {
    hide EncodeRequest;
  }

  lemma BeginsSmooth(env: Env, w: World, fd: int, luck: Luck, d: Draw)
    requires WorldOk(env, w) && fd in w.peers && Resting(w.peers[fd].phase)
    requires |d.cn| < TWO31 && IsInt32(d.noise) && w.srv.store.nextId < TWO31
    requires HasRoom(w.srv.store.slots, (w.peers[fd].client, w.peers[fd].server))
    requires Storable(env, AgreedNode(w.peers[fd].client, w.peers[fd].server, d.cn, luck.nonce, d.premaster, 0))
    ensures Smooth(env, Do(env, w, Agree(fd, d.cn, d.noise)), fd, luck, d)
  {
    var p := w.peers[fd];
    assert Named(p) && Quiet(p) && JobOf(w.srv, fd) == None by {
      assert PeerOk(env, w.srv.store, fd, JobOf(w.srv, fd), p);
    }
    hide WorldOk, PeerOk, HasRoom, Next, Storable, AgreedNode, OnAgree;
    AgreeStarts(p, d);
    var q := OnAgree(p, d.cn, d.noise);
    assert Do(env, w, Agree(fd, d.cn, d.noise)) == w.(peers := w.peers[fd := q]);
    hide Do;
  }

  predicate OwnActions(fd: int, acts: seq<Action>) { forall i :: 0 <= i < |acts| ==> acts[i].fd == fd }

  predicate EndsAgreed(env: Env, w: World, acts: seq<Action>, fd: int, luck: Luck, d: Draw) {
    var w' := DoAll(env, w, acts);
    fd in w'.peers && HasAgreed(w'.peers[fd].phase, luck, d)
  }

  /** From any reachable moment: a client at rest that starts an agreement, with a free or matching
      slot, a working database that takes its texts, and a payload that fits, ends with a key agreed
      on, from what it drew and what the server drew, after steps of its own alone. */
  lemma UndisturbedAgreementSucceeds(env: Env, w: World, fd: int, d: Draw, luck: Luck)
    requires GoodCrypto(env) && WorldOk(env, w) && fd in w.peers && Resting(w.peers[fd].phase)
    requires |d.cn| < TWO31 && Drawn(env, d.premaster, d.noise, d.cipher) && GoodLuck(env, luck)
             && w.srv.store.nextId < TWO31
    requires Storable(env, AgreedNode(w.peers[fd].client, w.peers[fd].server, d.cn, luck.nonce, d.premaster, 0))
    requires HasRoom(w.srv.store.slots, (w.peers[fd].client, w.peers[fd].server))
    ensures exists acts :: OwnActions(fd, acts) && EndsAgreed(env, w, acts, fd, luck, d)
  {
    var a := Agree(fd, d.cn, d.noise);
    var w1 := Do(env, w, a);
    BeginsSmooth(env, w, fd, luck, d);
    DoKeeps(env, w, a);
    hide WorldOk, GoodCrypto, Smooth, HasRoom, Do, GoodLuck, Storable, HasAgreed;
    var rest := Finishes(env, w1, fd, luck, d);
    var acts := [a] + rest;
    assert acts[1..] == rest;
    assert OwnActions(fd, acts) && EndsAgreed(env, w, acts, fd, luck, d);
  }
}
