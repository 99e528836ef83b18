/** What an agreed key is good for: the interleaved agreements are runs of the server, and a client
    that has agreed passes a check under an exact condition. */
module AgreementUse {
  import opened Bytes
  import opened SlotTable
  import opened SqlText
  import opened KeyServer
  import opened KeyCache
  import opened Client
  import opened Codec
  import opened Agreement
  import opened AgreementRuns
  import Revocation

  /** An action is a step of the server, or none. */
  lemma ActionIsAStep(env: Env, w: World, a: Action) returns (es: seq<Event>)
    ensures Do(env, w, a).srv == Run(env, w.srv, es)
  {
    hide Next, OnAgree, OnNonce, OnId, EncodeResponse, ValidResponse, DecodeRequest, Misfortune;
    es := match a
      case Arrive(fd) =>
        if fd in w.peers && w.peers[fd].toServer != [] && fd !in w.srv.jobs
          && DecodeRequest(w.peers[fd].toServer[0]).Some?
        then [Start(fd, DecodeRequest(w.peers[fd].toServer[0]).value)] else []
      case Work(fd, luck) => [Step(fd, luck)]
      case Respond(fd) =>
        if fd in w.srv.jobs && w.srv.jobs[fd].Reply? && ValidResponse(w.srv.jobs[fd].resp) then [Send(fd)] else []
      case Inject(fd, message) =>
        if fd !in w.peers && DecodeRequest(message).Some? then [Start(fd, DecodeRequest(message).value)] else []
      case _ => [];
    if es != [] {
      assert es == [es[0]] && es[1..] == [];
      assert Run(env, w.srv, es) == Run(env, Next(env, w.srv, es[0]), []);
    }
  }

  /** A run of agreements is a run of the server: what holds in every run of handlers holds in it. */
  lemma {:induction false} WorldIsARun(env: Env, w: World, acts: seq<Action>) returns (es: seq<Event>)
    ensures DoAll(env, w, acts).srv == Run(env, w.srv, es)
    decreases |acts|
  {
    hide Do, Next;
    if acts == [] {
      es := [];
    } else {
      var first := ActionIsAStep(env, w, acts[0]);
      var rest := WorldIsARun(env, Do(env, w, acts[0]), acts[1..]);
      RunAppend(env, w.srv, first, rest);
      es := first + rest;
    }
  }

  /** Derived keys begin alike. */
  lemma DerivedBeginAlike(client: Bytes, server: Bytes, cn: Bytes, sn: Bytes, premaster: Bytes, id: int)
    ensures var n := AgreedNode(client, server, cn, sn, premaster, id); n.authKey == [] ==> n.endeKey == []
  {
    var a, e := AuthKey(cn, sn, premaster), EndeKey(cn, sn, premaster);
    assert a == [] <==> e == [];
    if a != [] {
      assert a[0] == e[0] by {
        if cn == [] { assert a == sn + premaster && e == Prefix4(sn) + premaster; }
      }
    }
  }

  /** A client that has agreed on a key, in any run, and whose key's revocation has been neither
      answered nor about to be: its encoded check arrives as it is, and succeeds exactly when the commit
      of its row was not lost, both keys are short enough to be encrypted and hold no quote, and no
      backslash except before a percent sign or an underscore, the query works, and the table is attached
      and has room. A key too long to be sent must not have the code of the empty one. */
  lemma AgreedClientPassesExactlyWhen(env: Env, maxNode: nat, names: map<int, (Bytes, Bytes)>, acts: seq<Action>,
                                      fd: int, cipher: Bytes, luck: Luck)
    requires GoodCrypto(env) && env.stored == DATABASE && GoodNames(names) && env.decode(1)
    requires var w := DoAll(env, Begin(maxNode, names), acts);
             && fd in w.peers && w.peers[fd].phase.Agreed? && w.srv.store.nextId <= TWO31
             && !Revocation.Revoked(w.srv.log, w.peers[fd].phase.id)
             && forall g :: g in w.srv.jobs ==> !Revocation.Revoking(w.srv.jobs[g], w.peers[fd].phase.id)
    requires var n := NodeOfPeer(DoAll(env, Begin(maxNode, names), acts).peers[fd]);
             && IsCipher(env, n.authKey + n.endeKey, cipher)
             && (|n.authKey| + |n.endeKey| >= PLAIN ==> StandsOut(env, n.authKey))
    ensures var w := DoAll(env, Begin(maxNode, names), acts);
            var n := NodeOfPeer(w.peers[fd]);
            var req := ProofRequest(env, KEYCHECK, n, cipher);
            && ValidRequest(req) && DecodeRequest(EncodeRequest(req)) == Some(req)
            && (Serve(env, w.srv.store, fd, req, luck).1.rv == SUCCESS
                <==> n.keyId !in w.srv.store.lost && |n.authKey| + |n.endeKey| <= 117
                     && Unchanged(n.authKey) && Unchanged(n.endeKey)
                     && luck.queryOk && luck.mapped && HasRoom(w.srv.store.slots, PairOf(n)))
  {
    BeginIsOk(env, maxNode, names);
    WorldInEveryRun(env, Begin(maxNode, names), acts);
    var w := DoAll(env, Begin(maxNode, names), acts);
    var es := WorldIsARun(env, Begin(maxNode, names), acts);
    var n := NodeOfPeer(w.peers[fd]);
    assert w.srv == Run(env, Init(maxNode), es);
    hide DoAll, Run;
    AgreedRow(env, w, fd);
    hide WorldOk;
    if n.keyId in w.srv.store.rows { Revocation.LiveUntilRevoked(env, maxNode, es, n.keyId); }
    AgreedNodePasses(env, w.srv.store, fd, w.peers[fd], cipher, luck);
  }

  /** The node that secKeyAgree writes. */
  function NodeOfPeer(p: Peer): Node
    requires p.phase.Agreed?
  {
    AgreedNode(p.client, p.server, p.phase.ccn, p.phase.csn, p.phase.cpremaster, p.phase.id)
  }

  lemma AgreedRow(env: Env, w: World, fd: int)
    requires WorldOk(env, w) && fd in w.peers && w.peers[fd].phase.Agreed?
    ensures var n := NodeOfPeer(w.peers[fd]);
            && Named(w.peers[fd]) && RowsOk(w.srv.store)
            && (if n.keyId in w.srv.store.lost then n.keyId !in w.srv.store.rows && 0 < n.keyId < w.srv.store.nextId
                else IssuedAs(env, w.srv.store, n))
  {
    assert PeerOk(env, w.srv.store, fd, JobOf(w.srv, fd), w.peers[fd]);
    hide NonceStage, IdStage, SlotsOk, JobOk, AgreedNode;
  }

  lemma ProofIsValid(env: Env, p: Peer, cipher: Bytes, nextId: int)
    requires GoodCrypto(env) && p.phase.Agreed? && Named(p) && 0 < p.phase.id < nextId <= TWO31 && |cipher| < TWO31
    ensures var req := ProofRequest(env, KEYCHECK, NodeOfPeer(p), cipher);
            ValidRequest(req) && DecodeRequest(EncodeRequest(req)) == Some(req)
  {
    UseCrypto(env, cipher, NodeOfPeer(p).authKey, env.hash(cipher));
    RequestRoundTrip(ProofRequest(env, KEYCHECK, NodeOfPeer(p), cipher));
    hide EncodeRequest, DecodeRequest, GoodCrypto, AuthKey, EndeKey, CString;
  }

  lemma AgreedNodePasses(env: Env, st: Store, fd: int, p: Peer, cipher: Bytes, luck: Luck)
    requires GoodCrypto(env) && env.stored == DATABASE && env.decode(1) && p.phase.Agreed? && Named(p)
    requires RowsOk(st) && st.nextId <= TWO31
    requires var n := NodeOfPeer(p);
             && (if n.keyId in st.lost then n.keyId !in st.rows && 0 < n.keyId < st.nextId
                 else IssuedAs(env, st, n) && st.rows[n.keyId].state == 1)
             && IsCipher(env, n.authKey + n.endeKey, cipher)
             && (|n.authKey| + |n.endeKey| >= PLAIN ==> StandsOut(env, n.authKey))
    ensures var n := NodeOfPeer(p);
            var req := ProofRequest(env, KEYCHECK, n, cipher);
            && ValidRequest(req) && DecodeRequest(EncodeRequest(req)) == Some(req)
            && (Serve(env, st, fd, req, luck).1.rv == SUCCESS
                <==> n.keyId !in st.lost && |n.authKey| + |n.endeKey| <= 117
                     && Unchanged(n.authKey) && Unchanged(n.endeKey)
                     && luck.queryOk && luck.mapped && HasRoom(st.slots, PairOf(n)))
  {
    var n := NodeOfPeer(p);
    ProofIsValid(env, p, cipher, st.nextId);
    var req := ProofRequest(env, KEYCHECK, n, cipher);
    Revocation.CheckSucceedsExactlyWhen(env, st, fd, req, luck);
    if n.keyId !in st.lost {
      DerivedBeginAlike(p.client, p.server, p.phase.ccn, p.phase.csn, p.phase.cpremaster, p.phase.id);
      DatabaseIsGood(env);
      KeptExactlyWhen(env, n);
      IssuedHolderIsAdmitted(env, st, KEYCHECK, n, cipher, luck.queryOk);
    }
    hide Serve, HasRoom, EncodeRequest, DecodeRequest, GoodCrypto, GoodStore, Kept, AuthKey, EndeKey, CString,
         Unchanged, Verified, ValidRequest, RowsOk;
  }
}
