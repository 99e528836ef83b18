/** What the steps of Agreement add up to: agreement, progress, and one key ID for each client. */
module AgreementRuns {
  import opened Bytes
  import opened SlotTable
  import opened SqlText
  import opened KeyServer
  import opened KeyCache
  import opened Client
  import opened Codec
  import opened Agreement

  // ---------------------------------------------------------------- agreement

  lemma BeginIsOk(env: Env, maxNode: nat, names: map<int, (Bytes, Bytes)>)
    requires GoodNames(names)
    ensures WorldOk(env, Begin(maxNode, names))
  {
  }

  lemma {:induction false} WorldInEveryRun(env: Env, w: World, acts: seq<Action>)
    requires GoodCrypto(env) && WorldOk(env, w)
    ensures WorldOk(env, DoAll(env, w, acts))
    decreases |acts|
  {
    if acts != [] {
      hide WorldOk, Do, GoodCrypto;
      DoKeeps(env, w, acts[0]);
      WorldInEveryRun(env, Do(env, w, acts[0]), acts[1..]);
    }
  }

  lemma CleanPrefix(t: Bytes)
    requires Clean(t)
    ensures Clean(CString(t)) && Unchanged(CString(t))
  {
    assert CString(t) <= t;
    CleanIsUnchanged(CString(t));
  }

  /** Keys derived from parts without quotes and backslashes are kept as they are. */
  lemma DerivedIsUnchanged(cn: Bytes, sn: Bytes, premaster: Bytes)
    requires Clean(cn) && Clean(sn) && Clean(premaster)
    ensures Unchanged(CString(AuthKey(cn, sn, premaster))) && Unchanged(CString(EndeKey(cn, sn, premaster)))
  {
    CleanPrefix(EndeKey(cn, sn, premaster));
    CleanPrefix(AuthKey(cn, sn, premaster));
    hide CString, Unchanged;
  }

  /** A client that has agreed had luck, and holds an ID that has a row exactly when the commit of its
      insertion was not lost. That row was inserted for its names and its keys; it has a text of these as
      it is exactly when the text holds no quote, and no backslash except before a percent sign or an
      underscore. A client that has failed had no luck. */
  ghost predicate InAgreement(env: Env, st: Store, p: Peer) {
    match p.phase
    case Agreed(cn, sn, premaster, id) =>
      var n := AgreedNode(p.client, p.server, cn, sn, premaster, id);
      && !p.unlucky
      && (id in st.rows <==> id !in st.lost)
      && (id in st.rows ==> IssuedAs(env, st, n) && st.rows[id].owner == (p.client, p.server))
      && (id in st.rows && env.stored == DATABASE ==>
            var row := st.rows[id];
            && (row.authKey == CString(AuthKey(cn, sn, premaster)) <==> Unchanged(CString(AuthKey(cn, sn, premaster))))
            && (row.endeKey == CString(EndeKey(cn, sn, premaster)) <==> Unchanged(CString(EndeKey(cn, sn, premaster))))
            && (row.client == p.client <==> Unchanged(p.client)) && (row.server == p.server <==> Unchanged(p.server)))
    case Failed => p.unlucky
    case _ => true
  }

  /** Key agreement, after every run of any number of connections: an honest client that has agreed
      on a key is in agreement with the server's row, and one fails only when the server had no luck
      in serving it, never because its code was refused. */
  lemma ClientAndServerAgree(env: Env, maxNode: nat, names: map<int, (Bytes, Bytes)>, acts: seq<Action>, fd: int)
    requires GoodCrypto(env) && GoodNames(names)
    requires fd in DoAll(env, Begin(maxNode, names), acts).peers
    ensures var w := DoAll(env, Begin(maxNode, names), acts);
            InAgreement(env, w.srv.store, w.peers[fd])
  {
    BeginIsOk(env, maxNode, names);
    WorldInEveryRun(env, Begin(maxNode, names), acts);
    var w := DoAll(env, Begin(maxNode, names), acts);
    AgreedHolds(env, w, fd);
    hide DoAll, GoodCrypto, WorldOk;
  }

  lemma AgreedHolds(env: Env, w: World, fd: int)
    requires WorldOk(env, w) && fd in w.peers
    ensures InAgreement(env, w.srv.store, w.peers[fd])
  {
    var p := w.peers[fd];
    assert PeerOk(env, w.srv.store, fd, JobOf(w.srv, fd), p);
    if p.phase.Agreed? {
      var Agreed(cn, sn, premaster, id) := p.phase;
      assert RowsOk(w.srv.store);
      if env.stored == DATABASE {
        ColumnKeepsExactlyWhen(env, CString(AuthKey(cn, sn, premaster)));
        ColumnKeepsExactlyWhen(env, CString(EndeKey(cn, sn, premaster)));
        ColumnKeepsExactlyWhen(env, p.client);
        ColumnKeepsExactlyWhen(env, p.server);
      }
    }
    hide AuthKey, EndeKey, SlotsOk, JobOk, NonceStage, IdStage, Column, Unchanged;
  }

  // ---------------------------------------------------------------- progress

  /** How many steps an agreement still takes. */
  function Remaining(job: Option<Job>, p: Peer): nat {
    match p.phase
    case AwaitNonce(_) =>
      (match job
       case None => if p.toServer != [] then 10 else 7
       case Some(Random(_)) => 9
       case _ => 8)
    case AwaitId(_, _, _) =>
      (match job
       case None => if p.toServer != [] then 6 else 1
       case Some(Premaster(_)) => 5
       case Some(Insert(_, _)) => 4
       case Some(Cache(_, _)) => 3
       case _ => 2)
    case _ => 0
  }

  function Left(w: World, fd: int): nat
    requires fd in w.peers
  {
    Remaining(JobOf(w.srv, fd), w.peers[fd])
  }

  /** The action that the agreement of this connection is waiting for. */
  predicate IsNext(env: Env, w: World, fd: int, a: Action)
    requires fd in w.peers
  {
    && a.fd == fd
    && match JobOf(w.srv, fd)
       case Some(Reply(_)) => a.Respond?
       case Some(_) => a.Work?
       case None =>
         if w.peers[fd].toServer != [] then a.Arrive?
         else if w.peers[fd].phase.AwaitNonce? then a.TakeNonce? && Drawn(env, a.premaster, a.noise, a.cipher)
         else a.TakeId?
  }

  lemma {:induction false} DecimalLength(n: nat)
    ensures |ToDecimal(n)| <= 1 + n / 10
    decreases n
  {
    if n >= 10 {
      DecimalLength(n / 10);
    }
  }

  /** Ids that fit an int make replies that can be serialized. */
  lemma ReplyIsValid(env: Env, st: Store, fd: int, r: Response, p: Peer)
    requires PeerOk(env, st, fd, Some(Reply(r)), p) && RowsOk(st) && st.nextId <= TWO31 && !p.unlucky
    ensures ValidResponse(r)
  {
    if p.phase.AwaitId? {
      assert r.rv == SUCCESS && (Atoi(r.data) in st.lost || Atoi(r.data) in st.rows);
      DecimalLength(Atoi(r.data));
    }
    hide IntToString, Atoi, CString;
  }

  lemma JobsOfPhase(env: Env, st: Store, fd: int, job: Job, p: Peer)
    requires PeerOk(env, st, fd, Some(job), p)
    ensures (p.phase.AwaitNonce? && (job.Random? || job.Reply?))
            || (p.phase.AwaitId? && (job.Premaster? || job.Insert? || job.Cache? || job.Reply?))
  {
    hide Held, IsNonceReply, IsPrekey, IsIdReply, NonceRequest, AgreedNode;
  }

  lemma WorkAdvances(env: Env, st: Store, fd: int, job: Job, p: Peer, luck: Luck)
    requires GoodCrypto(env) && PeerOk(env, st, fd, Some(job), p) && !job.Reply?
    ensures var (st', job') := Act(env, st, fd, job, luck);
            Remaining(Some(job'), p.(unlucky := p.unlucky || Misfortune(env, st, job, luck))) < Remaining(Some(job), p)
  {
    WorkKeeps(env, st, fd, job, p, luck);
    hide GoodCrypto, Act, Misfortune, PeerOk;
    var (st', job') := Act(env, st, fd, job, luck);
    JobsOfPhase(env, st, fd, job, p);
    JobsOfPhase(env, st', fd, job', p.(unlucky := p.unlucky || Misfortune(env, st, job, luck)));
  }

  lemma JobInPhase(env: Env, st: Store, fd: int, job: Option<Job>, p: Peer)
    requires PeerOk(env, st, fd, job, p)
    ensures Remaining(job, p) > 0 <==> p.phase.AwaitNonce? || p.phase.AwaitId?
    ensures job.Some? ==> Quiet(p) && Remaining(job, p) > 0
    ensures job == None && Remaining(job, p) > 0 ==>
              || (|p.toServer| == 1 && p.toClient == [] && DecodeRequest(p.toServer[0]).Some?)
              || (p.toServer == [] && |p.toClient| == 1)
  {
    hide DecodeRequest, DecodeResponse, Held, IsNonceReply, IsPrekey, IsIdReply, NonceRequest, CString;
  }

  lemma ArriveAdvances(env: Env, st: Store, fd: int, p: Peer)
    requires PeerOk(env, st, fd, None, p) && |p.toServer| == 1 && DecodeRequest(p.toServer[0]).Some?
    ensures var req := DecodeRequest(p.toServer[0]).value;
            && FirstStep(req).Some?
            && Remaining(Some(FirstStep(req).value), p.(toServer := p.toServer[1..])) < Remaining(None, p)
  {
    ArriveKeeps(env, st, fd, p);
    var q := p.(toServer := p.toServer[1..]);
    JobInPhase(env, st, fd, Some(FirstStep(DecodeRequest(p.toServer[0]).value).value), q);
    JobInPhase(env, st, fd, None, p);
    hide PeerOk, DecodeRequest;
  }

  lemma NonceAdvances(env: Env, p: Peer, premaster: Bytes, noise: int, cipher: Bytes)
    requires p.phase.AwaitNonce? && |p.toClient| == 1 && p.toServer == [] && Drawn(env, premaster, noise, cipher)
    ensures Remaining(None, OnNonce(env, p, premaster, noise, cipher)) < Remaining(None, p)
  {
    hide DecodeResponse, ParsePayload, PrekeyRequest, EncodeRequest, ValidRequest, Drawn;
  }

  lemma IdAdvances(p: Peer)
    requires p.phase.AwaitId? && |p.toClient| == 1 && p.toServer == []
    ensures Remaining(None, OnId(p)) < Remaining(None, p)
  {
    hide DecodeResponse, CString, Atoi;
  }

  lemma RespondAdvances(env: Env, w: World, fd: int)
    requires WorldOk(env, w) && w.srv.store.nextId <= TWO31
    requires fd in w.peers && !w.peers[fd].unlucky && fd in w.srv.jobs && w.srv.jobs[fd].Reply?
    ensures var w' := OnRespond(env, w, fd); fd in w'.peers && Left(w', fd) < Left(w, fd)
  {
    var st, r, p := w.srv.store, w.srv.jobs[fd].resp, w.peers[fd];
    assert PeerOk(env, st, fd, Some(Reply(r)), p);
    assert RowsOk(st) by { assert CacheInv(env, w.srv); hide PeerOk; }
    ReplyIsValid(env, st, fd, r, p);
    JobsOfPhase(env, st, fd, Reply(r), p);
    JobInPhase(env, st, fd, Some(Reply(r)), p);
    hide PeerOk, EncodeResponse, ValidResponse, RowsOk, CacheInv, WorldOk;
  }

  lemma WorkingAdvances(env: Env, w: World, fd: int, luck: Luck)
    requires GoodCrypto(env) && WorldOk(env, w)
    requires fd in w.peers && fd in w.srv.jobs && !w.srv.jobs[fd].Reply?
    ensures var w' := OnWork(env, w, fd, luck); fd in w'.peers && Left(w', fd) < Left(w, fd)
  {
    assert PeerOk(env, w.srv.store, fd, Some(w.srv.jobs[fd]), w.peers[fd]);
    hide WorldOk, PeerOk, Act, Misfortune, GoodCrypto, Remaining;
    WorkAdvances(env, w.srv.store, fd, w.srv.jobs[fd], w.peers[fd], luck);
  }

  lemma ArrivingAdvances(env: Env, w: World, fd: int)
    requires WorldOk(env, w) && fd in w.peers && fd !in w.srv.jobs
    requires |w.peers[fd].toServer| == 1 && DecodeRequest(w.peers[fd].toServer[0]).Some?
    ensures var w' := OnArrive(env, w, fd); fd in w'.peers && Left(w', fd) < Left(w, fd)
  {
    assert PeerOk(env, w.srv.store, fd, None, w.peers[fd]);
    hide WorldOk, PeerOk, DecodeRequest, Remaining, FirstStep;
    ArriveAdvances(env, w.srv.store, fd, w.peers[fd]);
  }

  /** The action an agreement waits for brings it nearer to its end. */
  lemma NextAdvances(env: Env, w: World, fd: int, a: Action)
    requires GoodCrypto(env) && WorldOk(env, w) && w.srv.store.nextId <= TWO31
    requires fd in w.peers && Left(w, fd) > 0 && !w.peers[fd].unlucky && IsNext(env, w, fd, a)
    ensures fd in Do(env, w, a).peers && Left(Do(env, w, a), fd) < Left(w, fd)
  {
    JobInPhase(env, w.srv.store, fd, JobOf(w.srv, fd), w.peers[fd]);
    hide Act, CacheInv, GoodCrypto, PeerOk, Next;
    match a
    case Work(_, luck) => WorkingAdvances(env, w, fd, luck); hide WorldOk, OnWork, Left, Remaining;
    case Respond(_) => RespondAdvances(env, w, fd); hide WorldOk, OnRespond, Left, Remaining;
    case Arrive(_) => ArrivingAdvances(env, w, fd); hide WorldOk, OnArrive, Left, Remaining;
    case TakeNonce(_, premaster, noise, cipher) =>
      NonceAdvances(env, w.peers[fd], premaster, noise, cipher);
      hide WorldOk, OnNonce, Remaining;
    case TakeId(_) => IdAdvances(w.peers[fd]); hide WorldOk, OnNonce, OnId, Remaining;
    case Agree(_, _, _) =>
    case Inject(_, _) =>
  }

  /** Actions of other connections leave this one as it is. */
  lemma OtherConnection(env: Env, w: World, fd: int, a: Action)
    requires fd in w.peers && a.fd != fd
    ensures var w' := Do(env, w, a);
            fd in w'.peers && w'.peers[fd] == w.peers[fd] && JobOf(w'.srv, fd) == JobOf(w.srv, fd)
  {
    hide Act, Misfortune, DecodeRequest, EncodeResponse, ValidResponse, FirstStep, OnAgree, OnNonce, OnId;
  }

  /** A client's own action out of turn does nothing: neither one of its own code... */
  lemma ClientOutOfTurn(env: Env, w: World, fd: int, a: Action)
    requires fd in w.peers && !IsNext(env, w, fd, a) && a.fd == fd && (a.Agree? || a.TakeNonce? || a.TakeId?)
    requires var p := w.peers[fd];
             && (p.phase.AwaitNonce? || p.phase.AwaitId?)
             && (JobOf(w.srv, fd).Some? || p.toServer != [] ==> p.toClient == [])
    ensures Do(env, w, a) == w
  {
    hide DecodeResponse, EncodeRequest, ParsePayload, CString, PrekeyRequest, ValidRequest, Atoi, Drawn, NonceRequest;
    var p := w.peers[fd];
    assert w.peers[fd := p] == w.peers;
  }

  /** ... nor one of the server's. */
  lemma ServerOutOfTurn(env: Env, w: World, fd: int, a: Action)
    requires fd in w.peers && !IsNext(env, w, fd, a) && a.fd == fd && !(a.Agree? || a.TakeNonce? || a.TakeId?)
    ensures Do(env, w, a) == w
  {
    assert a.Work? ==> forall r :: !Misfortune(env, w.srv.store, Reply(r), a.luck);
    assert w.peers[fd := w.peers[fd]] == w.peers;
    hide Act, DecodeRequest, EncodeResponse, ValidResponse, FirstStep, Misfortune;
  }

  lemma OutOfTurn(env: Env, w: World, fd: int, a: Action)
    requires WorldOk(env, w) && fd in w.peers && Left(w, fd) > 0 && !IsNext(env, w, fd, a) && a.fd == fd
    ensures Do(env, w, a) == w
  {
    JobInPhase(env, w.srv.store, fd, JobOf(w.srv, fd), w.peers[fd]);
    hide PeerOk, CacheInv, Do, IsNext;
    if a.Agree? || a.TakeNonce? || a.TakeId? {
      ClientOutOfTurn(env, w, fd, a);
    } else {
      ServerOutOfTurn(env, w, fd, a);
    }
  }

  /** Nothing else moves an agreement under way: not the other connections, nor a step out of turn. */
  lemma OthersDoNotMove(env: Env, w: World, fd: int, a: Action)
    requires WorldOk(env, w) && fd in w.peers && Left(w, fd) > 0 && !IsNext(env, w, fd, a)
    ensures var w' := Do(env, w, a);
            fd in w'.peers && w'.peers[fd] == w.peers[fd] && JobOf(w'.srv, fd) == JobOf(w.srv, fd)
  {
    if a.fd == fd { OutOfTurn(env, w, fd, a); } else { OtherConnection(env, w, fd, a); }
    hide *;
  }

  // ---------------------------------------------------------------- enough steps

  /** How often, in a run, this connection's agreement gets the action it waits for. */
  function Turns(env: Env, w: World, fd: int, acts: seq<Action>): nat
    decreases |acts|
  {
    if acts == [] then 0
    else (if fd in w.peers && Left(w, fd) > 0 && IsNext(env, w, fd, acts[0]) then 1 else 0) +
         Turns(env, Do(env, w, acts[0]), fd, acts[1..])
  }

  predicate NoRestart(fd: int, acts: seq<Action>) {
    forall i :: 0 <= i < |acts| ==> !(acts[i].Agree? && acts[i].fd == fd)
  }

  lemma ActNextId(env: Env, st: Store, fd: int, job: Job, luck: Luck)
    requires !job.Reply?
    ensures Act(env, st, fd, job, luck).0.nextId >= st.nextId
  {
    hide Write, Mark, Verified, Answer, NodeOf, AuthKey, EndeKey;
  }

  /** Bad luck stays noted, IDs only grow, and a client that has begun does not become idle. */
  lemma DoIsMonotone(env: Env, w: World, fd: int, a: Action)
    requires fd in w.peers && NoRestart(fd, [a])
    ensures var w' := Do(env, w, a);
            && fd in w'.peers && w'.srv.store.nextId >= w.srv.store.nextId
            && (w.peers[fd].unlucky ==> w'.peers[fd].unlucky)
            && (!w.peers[fd].phase.Idle? ==> !w'.peers[fd].phase.Idle?)
  {
    assert [a][0] == a;
    if a.Work? && Enabled(w.srv, Step(a.fd, a.luck)) { ActNextId(env, w.srv.store, a.fd, w.srv.jobs[a.fd], a.luck); }
    hide Act, DecodeRequest, DecodeResponse, EncodeResponse, EncodeRequest, ParsePayload, CString, PrekeyRequest,
         ValidRequest, ValidResponse, FirstStep, Misfortune, Atoi;
  }

  lemma {:induction false} RunIsMonotone(env: Env, w: World, fd: int, acts: seq<Action>)
    requires fd in w.peers && NoRestart(fd, acts)
    ensures var w' := DoAll(env, w, acts);
            && fd in w'.peers && w'.srv.store.nextId >= w.srv.store.nextId
            && (w.peers[fd].unlucky ==> w'.peers[fd].unlucky)
            && (!w.peers[fd].phase.Idle? ==> !w'.peers[fd].phase.Idle?)
    decreases |acts|
  {
    if acts != [] {
      DoIsMonotone(env, w, fd, acts[0]);
      hide Do;
      RunIsMonotone(env, Do(env, w, acts[0]), fd, acts[1..]);
    }
  }

  lemma TurnsStep(env: Env, w: World, fd: int, a: Action)
    requires GoodCrypto(env) && WorldOk(env, w) && w.srv.store.nextId <= TWO31
    requires fd in w.peers && !w.peers[fd].unlucky && !(a.Agree? && a.fd == fd)
    ensures var w' := Do(env, w, a);
            fd in w'.peers && Left(w', fd) + (if Left(w, fd) > 0 && IsNext(env, w, fd, a) then 1 else 0) <= Left(w, fd)
  {
    if Left(w, fd) > 0 {
      if IsNext(env, w, fd, a) { NextAdvances(env, w, fd, a); } else { OthersDoNotMove(env, w, fd, a); }
      hide WorldOk, Do, IsNext, GoodCrypto;
    } else {
      RestStays(env, w, fd, a);
    }
  }

  lemma RestStays(env: Env, w: World, fd: int, a: Action)
    requires WorldOk(env, w) && fd in w.peers && Left(w, fd) == 0 && !(a.Agree? && a.fd == fd)
    ensures var w' := Do(env, w, a); fd in w'.peers && Left(w', fd) == 0
  {
    if a.fd != fd {
      OtherConnection(env, w, fd, a);
      hide Do, WorldOk, JobOf, Remaining;
    } else {
      JobInPhase(env, w.srv.store, fd, JobOf(w.srv, fd), w.peers[fd]);
      hide PeerOk, CacheInv, Act, DecodeRequest, DecodeResponse, EncodeResponse, EncodeRequest, ParsePayload, CString,
           PrekeyRequest, ValidRequest, ValidResponse, FirstStep, Misfortune, Atoi, Drawn, NonceRequest;
    }
  }

  lemma {:induction false} TurnsAddUp(env: Env, w: World, fd: int, acts: seq<Action>)
    requires GoodCrypto(env) && WorldOk(env, w) && fd in w.peers && NoRestart(fd, acts)
    requires var w' := DoAll(env, w, acts); fd in w'.peers && !w'.peers[fd].unlucky && w'.srv.store.nextId <= TWO31
    ensures Left(DoAll(env, w, acts), fd) + Turns(env, w, fd, acts) <= Left(w, fd)
    decreases |acts|
  {
    if acts != [] {
      hide WorldOk, Do, GoodCrypto, IsNext;
      RunIsMonotone(env, w, fd, acts);
      TurnsStep(env, w, fd, acts[0]);
      DoKeeps(env, w, acts[0]);
      TurnsAddUp(env, Do(env, w, acts[0]), fd, acts[1..]);
    }
  }

  /** Completion: from any reachable moment at which a client is agreeing, every continuation that
      gives its agreement as many turns as it has steps left, however the others are interleaved,
      ends with a key agreed on exactly when the server had luck in serving it. */
  lemma EnoughTurnsAgree(env: Env, maxNode: nat, names: map<int, (Bytes, Bytes)>, before: seq<Action>, fd: int,
                         acts: seq<Action>)
    requires GoodCrypto(env) && GoodNames(names)
    requires var w := DoAll(env, Begin(maxNode, names), before);
             && fd in w.peers && w.peers[fd].phase.AwaitNonce? && NoRestart(fd, acts)
             && Turns(env, w, fd, acts) >= Left(w, fd)
    ensures var w' := DoAll(env, DoAll(env, Begin(maxNode, names), before), acts);
            && fd in w'.peers
            && (w'.srv.store.nextId <= TWO31 ==> (w'.peers[fd].phase.Agreed? <==> !w'.peers[fd].unlucky))
  {
    BeginIsOk(env, maxNode, names);
    hide Do, GoodCrypto, GoodNames, IsNext, Begin;
    WorldInEveryRun(env, Begin(maxNode, names), before);
    var w := DoAll(env, Begin(maxNode, names), before);
    var w' := DoAll(env, w, acts);
    WorldInEveryRun(env, w, acts);
    RunIsMonotone(env, w, fd, acts);
    if w'.srv.store.nextId <= TWO31 && !w'.peers[fd].unlucky {
      TurnsAddUp(env, w, fd, acts);
      JobInPhase(env, w'.srv.store, fd, JobOf(w'.srv, fd), w'.peers[fd]);
      RestedWithoutBadLuck(env, w', fd);
    }
    AgreedHadLuck(env, w', fd);
    hide WorldOk, Turns, Remaining, NoRestart;
  }

  lemma AgreedHadLuck(env: Env, w: World, fd: int)
    requires WorldOk(env, w) && fd in w.peers
    ensures w.peers[fd].phase.Agreed? ==> !w.peers[fd].unlucky
  {
    assert PeerOk(env, w.srv.store, fd, JobOf(w.srv, fd), w.peers[fd]);
    hide CacheInv, NonceStage, IdStage, Held, AgreedNode;
  }

  lemma RestedWithoutBadLuck(env: Env, w: World, fd: int)
    requires WorldOk(env, w) && fd in w.peers && Left(w, fd) == 0 && !w.peers[fd].phase.Idle? && !w.peers[fd].unlucky
    ensures w.peers[fd].phase.Agreed?
  {
    var p := w.peers[fd];
    assert PeerOk(env, w.srv.store, fd, JobOf(w.srv, fd), p);
    JobInPhase(env, w.srv.store, fd, JobOf(w.srv, fd), p);
    hide NonceStage, IdStage, Held, Remaining, CacheInv;
  }
}
