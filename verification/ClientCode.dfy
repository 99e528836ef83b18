/** The client's operation object: one exchange after another on its connection. */
module ClientCode {
  import opened Bytes
  import opened SlotTable
  import opened KeyServer
  import opened Client
  import opened Codec
  import opened Agreement

  /** What rsaPublicKeyEncrypt gives in this exchange, from a key and a text: encryption is randomised. */
  type Encrypt = (Bytes, Bytes) -> Bytes

  ghost predicate Sized(enc: Encrypt) { forall pkey, x :: |enc(pkey, x)| < TWO31 }

  /** The public key that a reply brings. */
  function KeyIn(reply: Bytes): Bytes {
    match DecodeResponse(reply)
    case None => []
    case Some(r) => match ParsePayload(r.data) case None => [] case Some((_, pkey)) => pkey
  }

  /** secKeyAgree as the three client actions of an agreement, with the two replies that came. */
  function AgreeWith(env: Env, client: Bytes, server: Bytes, cn: Bytes, premaster: Bytes, noise: int, enc: Encrypt,
                     reply1: Bytes, reply2: Bytes): Peer
  {
    var p1 := OnAgree(Peer(client, server, Idle, [], [], false), cn, noise);
    var p2 := OnNonceReply(env, p1.(toClient := [reply1]), premaster, noise, enc(KeyIn(reply1), premaster));
    OnId(p2.(toClient := [reply2]))
  }

  /** The first reply as the client needs it: a success with a nonce and a public key. */
  function FirstReply(reply: Bytes): Option<(Bytes, Bytes)> {
    match DecodeResponse(reply)
    case None => None
    case Some(r) => if r.rv == 0 then ParsePayload(r.data) else None
  }

  /** The second reply, decoded as a C string: a success, whose data is the key ID in decimal. */
  function SecondReply(reply: Bytes): Option<int> {
    match DecodeResponse(CString(reply))
    case None => None
    case Some(r) => if r.rv == 0 then Some(Atoi(r.data)) else None
  }

  /** The steps of an agreement spelled out: which requests are sent, when a key is agreed on, and the node. */
  lemma AgreementSpelledOut(env: Env, client: Bytes, server: Bytes, cn: Bytes, premaster: Bytes, noise: int,
                            enc: Encrypt, reply1: Bytes, reply2: Bytes)
    requires GoodCrypto(env) && |client| < 12 && |server| < 12 && |cn| < TWO31 && IsInt32(noise) && Sized(enc)
    ensures var p := AgreeWith(env, client, server, cn, premaster, noise, enc, reply1, reply2);
            var ask := Request(0, client, server, [], cn, noise);
            && ValidRequest(ask)
            && (p.phase.Agreed? <==> FirstReply(reply1).Some? && SecondReply(reply2).Some?)
            && (FirstReply(reply1).None? ==> p.toServer == [EncodeRequest(ask)])
            && (FirstReply(reply1).Some? ==>
                  var (sn, pkey) := FirstReply(reply1).value;
                  var endeKey := cn + sn[..if |sn| < 4 then |sn| else 4] + premaster;
                  var authKey := cn[..if |cn| < 4 then |cn| else 4] + sn + premaster;
                  var c := enc(pkey, premaster);
                  var prove := Request(1, client, server, CString(env.hmac(authKey, env.hash(c))), c, noise);
                  && ValidRequest(prove) && p.toServer == [EncodeRequest(ask), EncodeRequest(prove)]
                  && (p.phase.Agreed? ==>
                        AgreedNode(client, server, cn, p.phase.csn, premaster, p.phase.id) ==
                        Node(1, SecondReply(reply2).value, CString(client), CString(server), CString(endeKey),
                             CString(authKey))))
  {
    hide GoodCrypto, CString, ParsePayload, DecodeResponse, EncodeRequest, Atoi;
    var parts := FirstReply(reply1);
    if parts.Some? {
      var (sn, pkey) := parts.value;
      DerivedKeys(cn, sn, premaster, []);
      var c := enc(pkey, premaster);
      UseCrypto(env, c, AuthKey(cn, sn, premaster), env.hash(c));
    }
  }

  class ClientOperation {
    const env: Env
    const clientId: Bytes
    const serverId: Bytes
    const shm: SecKeyShm
    var publicKey: Bytes
    var sent: seq<Bytes>

    constructor (env: Env, clientId: Bytes, serverId: Bytes, maxNode: nat)
      ensures this.env == env && this.clientId == clientId && this.serverId == serverId
      ensures fresh(shm) && fresh(shm.slots) && shm.slots[..] == seq(maxNode, i => ZERO) && publicKey == []
              && sent == []
    {
      this.env := env;
      this.clientId := clientId;
      this.serverId := serverId;
      shm := new SecKeyShm(maxNode);
      publicKey := [];
      sent := [];
    }

    ghost predicate Ready()
    {
      GoodCrypto(env) && 0 !in clientId && 0 !in serverId && |clientId| < 12 && |serverId| < 12
    }

    method Send(req: Request)
      requires ValidRequest(req)
      modifies this`sent
      ensures sent == old(sent) + [EncodeRequest(req)]
    {
      var codec := new RequestCodec.OfInfo(req);
      var encMsg := codec.MsgEncode();
      sent := sent + [encMsg];
    }

    /** Copies the two parts out of the reply's data. */
    method ParseReply(data: Bytes) returns (r: Option<(Bytes, Bytes)>)
      ensures r == ParsePayload(data)
    {
      if |data| > BUFFER { return None; }
      var resdata := data + Zeros(BUFFER - |data|);
      var randomnlen := ToInt32(FromLittleEndian32(resdata[..4]));
      if randomnlen < 0 || 8 + randomnlen > BUFFER { return None; }
      var serverRandomNum := resdata[4..4 + randomnlen];
      var pkeylen := ToInt32(FromLittleEndian32(resdata[4 + randomnlen..8 + randomnlen]));
      if pkeylen < 0 || 8 + randomnlen + pkeylen > BUFFER { return None; }
      r := Some((serverRandomNum, resdata[8 + randomnlen..8 + randomnlen + pkeylen]));
    }

    /** The exchange of an agreement: two requests and their replies. `node` is what it leads to. */
    method Exchange(cn: Bytes, premaster: Bytes, noise: int, enc: Encrypt, reply1: Bytes, reply2: Bytes)
        returns (ret: int, node: Node)
      requires Ready() && |cn| < TWO31 && IsInt32(noise) && Sized(enc)
      modifies this`sent, this`publicKey
      ensures var p := AgreeWith(env, clientId, serverId, cn, premaster, noise, enc, reply1, reply2);
              && (ret == 0 || ret == -1)
              && (ret == 0 <==> p.phase.Agreed?)
              && sent == old(sent) + p.toServer
              && (ret == 0 ==> node == AgreedNode(clientId, serverId, cn, p.phase.csn, premaster, p.phase.id))
    {
      hide GoodCrypto, CString, ParsePayload, DecodeResponse, EncodeRequest, Atoi;
      var req := NonceRequest(clientId, serverId, cn, noise);
      Send(req);
      var codec := new RespondCodec.OfString(reply1);
      var resMsg := codec.MsgDecode();
      if resMsg.None? || resMsg.value.rv != SUCCESS { return -1, ZERO; }
      var parts := ParseReply(resMsg.value.data);
      if parts.None? { return -1, ZERO; }
      var (serverRandomNum, pkey) := parts.value;
      publicKey := pkey;
      assert pkey == KeyIn(reply1);
      var endeKey := cn + Prefix4(serverRandomNum) + premaster;
      var authKey := Prefix4(cn) + serverRandomNum + premaster;
      var data := enc(publicKey, premaster);
      UseCrypto(env, data, authKey, env.hash(data));
      var authCode := CString(env.hmac(authKey, env.hash(data)));
      req := req.(kind := PREKEY, data := data, authCode := authCode);
      assert req == PrekeyRequest(env, clientId, serverId, cn, serverRandomNum, premaster, data, noise);
      Send(req);
      node := Node(1, 0, CString(clientId), CString(serverId), CString(endeKey), CString(authKey));
      codec := new RespondCodec.OfString(CString(reply2));
      resMsg := codec.MsgDecode();
      if resMsg.None? || resMsg.value.rv != SUCCESS { return -1, ZERO; }
      node := node.(keyId := Atoi(resMsg.value.data));
      ret := 0;
    }

    /** An agreement: succeeds exactly when the client's steps end in an agreed key, which is then
        the node of its table. */
    method SecKeyAgree(cn: Bytes, premaster: Bytes, noise: int, enc: Encrypt, reply1: Bytes, reply2: Bytes,
                       mapped: bool)
        returns (ret: int)
      requires Ready() && |cn| < TWO31 && IsInt32(noise) && Sized(enc)
      modifies this, shm.slots
      ensures var p := AgreeWith(env, clientId, serverId, cn, premaster, noise, enc, reply1, reply2);
              && (ret == 0 || ret == -1)
              && (ret == 0 <==> p.phase.Agreed?)
              && sent == old(sent) + p.toServer
              && shm.slots[..] == (if ret == 0 && mapped
                                   then Write(old(shm.slots[..]),
                                              AgreedNode(clientId, serverId, cn, p.phase.csn, premaster, p.phase.id)).0
                                   else old(shm.slots[..]))
      // what is sent, and the node with the keys of both nonces and the premaster
      ensures ret == 0 <==> FirstReply(reply1).Some? && SecondReply(reply2).Some?
      ensures FirstReply(reply1).None? ==>
                sent == old(sent) + [EncodeRequest(Request(0, clientId, serverId, [], cn, noise))]
      ensures FirstReply(reply1).Some? ==>
                var (sn, pkey) := FirstReply(reply1).value;
                var endeKey := cn + sn[..if |sn| < 4 then |sn| else 4] + premaster;
                var authKey := cn[..if |cn| < 4 then |cn| else 4] + sn + premaster;
                var c := enc(pkey, premaster);
                var ask := Request(0, clientId, serverId, [], cn, noise);
                var prove := Request(1, clientId, serverId, CString(env.hmac(authKey, env.hash(c))), c, noise);
                && ValidRequest(prove) && sent == old(sent) + [EncodeRequest(ask), EncodeRequest(prove)]
                && (ret == 0 && mapped && HasRoom(old(shm.slots[..]), (clientId, serverId)) ==>
                      Node(1, SecondReply(reply2).value, clientId, serverId, CString(endeKey), CString(authKey))
                      in shm.slots[..])
      ensures ret == 0 && mapped && HasRoom(old(shm.slots[..]), (clientId, serverId)) ==>
                var sn := FirstReply(reply1).value.0;
                |cn| >= 4 && |sn| >= 4 && 0 !in cn && 0 !in sn && 0 !in premaster ==>
                  Node(1, SecondReply(reply2).value, clientId, serverId, cn + sn[..4] + premaster,
                       cn[..4] + sn + premaster) in shm.slots[..]
    {
      AgreementSpelledOut(env, clientId, serverId, cn, premaster, noise, enc, reply1, reply2);
      hide AgreeWith, AgreedNode, Write, CString, HasRoom, FirstReply, SecondReply, EncodeRequest, Prefix4, HasRoom;
      var node;
      ret, node := Exchange(cn, premaster, noise, enc, reply1, reply2);
      if ret == -1 { return; }
      WrittenIsThere(shm.slots[..], node);
      var written := shm.ShmWrite(node, mapped);
    }

    /** The client's own node, while it is valid. */
    ghost function Active(mapped: bool): Option<Node>
      reads shm.slots
    {
      if !mapped then None else
      match Read(shm.slots[..], (clientId, serverId))
      case Some(n) => if n.status == 1 then Some(n) else None
      case None => None
    }

    /** Slot i is the first one of the client's names, and valid. */
    ghost predicate IsMine(i: int)
      reads shm.slots
    {
      && 0 <= i < shm.slots.Length && shm.slots[i].status == 1
      && (shm.slots[i].client, shm.slots[i].server) == (clientId, serverId)
      && forall k :: 0 <= k < i ==> (shm.slots[k].client, shm.slots[k].server) != (clientId, serverId)
    }

    ghost predicate HasValid()
      reads shm.slots
    {
      exists i :: IsMine(i)
    }

    /** The octets are a request of this type under the client's own names that proves both keys of its
        node: a code over the cipher text of the two, authentication key first. */
    ghost predicate Proves(b: Bytes, kind: int, enc: Encrypt)
      reads this`publicKey, shm.slots
    {
      exists i :: IsMine(i) &&
                  var (n, c) := (shm.slots[i], enc(publicKey, shm.slots[i].authKey + shm.slots[i].endeKey));
                  var req := Request(kind, clientId, serverId, CString(env.hmac(n.authKey, env.hash(c))), c, n.keyId);
                  ValidRequest(req) && b == EncodeRequest(req)
    }

    function ProofOf(kind: int, n: Node, enc: Encrypt): Request
      reads this`publicKey
    {
      ProofRequest(env, kind, n, enc(publicKey, n.authKey + n.endeKey))
    }

    /** Builds and sends the proof of the node's keys, unless there is no valid node. */
    method SendProof(kind: int, enc: Encrypt, mapped: bool) returns (ok: bool)
      requires Ready() && IsInt32(kind)
      requires Sized(enc) && forall i :: 0 <= i < shm.slots.Length ==> IsInt32(shm.slots[i].keyId)
      modifies this`sent
      ensures ok <==> Active(mapped).Some?
      ensures !ok ==> sent == old(sent)
      ensures ok ==> var req := ProofOf(kind, Active(mapped).value, enc);
                     ValidRequest(req) && sent == old(sent) + [EncodeRequest(req)]
      ensures ok <==> mapped && HasValid()
      ensures ok ==> exists b :: sent == old(sent) + [b] && Proves(b, kind, enc)
    {
      hide EncodeRequest, CString, GoodCrypto;
      ghost var at := FindPair(shm.slots[..], (clientId, serverId));
      assert forall i :: IsMine(i) ==> i == at;
      var ret, node := shm.ShmRead((clientId, serverId), mapped);
      if ret != 0 || node.status != 1 { return false; }
      var data := node.authKey;
      data := data + node.endeKey;
      data := enc(publicKey, data);
      UseCrypto(env, data, node.authKey, env.hash(data));
      var authCode := CString(env.hmac(node.authKey, env.hash(data)));
      assert IsMine(at);
      Send(Request(kind, node.client, node.server, authCode, data, node.keyId));
      ok := true;
    }

    /** A check succeeds when there is a valid node, whose keys are proved, and the answer is success. */
    method SecKeyCheck(enc: Encrypt, reply: Bytes, mapped: bool) returns (ret: int)
      requires Ready()
      requires Sized(enc) && forall i :: 0 <= i < shm.slots.Length ==> IsInt32(shm.slots[i].keyId)
      modifies this`sent
      ensures ret == 0 || ret == -1
      ensures ret == 0 <==> Active(mapped).Some? && DecodeResponse(reply).Some?
                            && DecodeResponse(reply).value.rv == 0
      ensures Active(mapped).None? ==> sent == old(sent)
      ensures Active(mapped).Some? ==>
                var req := ProofOf(KEYCHECK, Active(mapped).value, enc);
                ValidRequest(req) && sent == old(sent) + [EncodeRequest(req)]
      ensures Active(mapped).Some? <==> mapped && HasValid()
      ensures Active(mapped).Some? ==> exists b :: sent == old(sent) + [b] && Proves(b, 2, enc)
    {
      hide DecodeResponse, EncodeRequest, ProofRequest;
      var ok := SendProof(KEYCHECK, enc, mapped);
      if !ok { return -1; }
      var codec := new RespondCodec.OfString(reply);
      var resMsg := codec.MsgDecode();
      if resMsg.None? || resMsg.value.rv != SUCCESS { return -1; }
      ret := 0;
    }

    /** A revocation also looks at the type of the answer. The client's own node stays as it is. */
    method SecKeyRevoke(enc: Encrypt, reply: Bytes, mapped: bool) returns (ret: int)
      requires Ready()
      requires Sized(enc) && forall i :: 0 <= i < shm.slots.Length ==> IsInt32(shm.slots[i].keyId)
      modifies this`sent
      ensures ret == 0 || ret == -1
      ensures ret == 0 <==> Active(mapped).Some? && DecodeResponse(reply).Some?
                            && DecodeResponse(reply).value.kind == 3
                            && DecodeResponse(reply).value.rv == 0
      ensures Active(mapped).None? ==> sent == old(sent)
      ensures Active(mapped).Some? ==>
                var req := ProofOf(KEYREVOKE, Active(mapped).value, enc);
                ValidRequest(req) && sent == old(sent) + [EncodeRequest(req)]
      ensures Active(mapped).Some? <==> mapped && HasValid()
      ensures Active(mapped).Some? ==> exists b :: sent == old(sent) + [b] && Proves(b, 3, enc)
    {
      hide DecodeResponse, EncodeRequest, ProofRequest;
      var ok := SendProof(KEYREVOKE, enc, mapped);
      if !ok { return -1; }
      var codec := new RespondCodec.OfString(reply);
      var resMsg := codec.MsgDecode();
      if resMsg.None? || resMsg.value.kind != KEYREVOKE || resMsg.value.rv != SUCCESS { return -1; }
      ret := 0;
    }
  }
}
