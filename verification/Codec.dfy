/**
 The requests and replies of the protocol as octets: RequestCodec and RespondCodec over the two
 generated messages.
 */
module Codec {
  import opened Bytes
  import opened Wire
  import opened Message
  import opened TransitData
  import opened KeyServer

  /** A reply as the other side sees it: the key ID is not sent. */
  datatype Received = Received(kind: int, rv: int, client: Bytes, server: Bytes, data: Bytes)

  function OnWire(r: Response): Received { Received(r.kind, r.rv, r.client, r.server, r.data) }

  function RequestMsgOf(r: Request): Msg {
    Msg([IntV(r.kind), BytesV(r.client), BytesV(r.authCode), BytesV(r.server), BytesV([]), BytesV(r.data),
        IntV(r.keyId)], [])
  }

  function RespondMsgOf(r: Response): Msg {
    Msg([IntV(r.kind), IntV(r.rv), BytesV(r.client), BytesV(r.server), BytesV([]), BytesV([]), BytesV(r.data)], [])
  }

  /** The message can be serialized: its integers and its lengths are 32 bits wide. */
  predicate ValidRequest(r: Request) {
    IsInt32(r.kind) && IsInt32(r.keyId) && |r.client| < TWO31 && |r.authCode| < TWO31 && |r.server| < TWO31
      && |r.data| < TWO31
  }

  predicate ValidResponse(r: Response) {
    IsInt32(r.kind) && IsInt32(r.rv) && |r.client| < TWO31 && |r.server| < TWO31 && |r.data| < TWO31
  }

  lemma RequestIsValid(r: Request)
    requires ValidRequest(r)
    ensures ValidMsg(REQUEST, RequestMsgOf(r))
  {
  }

  lemma ResponseIsValid(r: Response)
    requires ValidResponse(r)
    ensures ValidMsg(RESPOND, RespondMsgOf(r))
  {
  }

  function EncodeRequest(r: Request): Bytes
    requires ValidRequest(r)
  {
    RequestIsValid(r);
    Serialize(REQUEST, RequestMsgOf(r))
  }

  function EncodeResponse(r: Response): Bytes
    requires ValidResponse(r)
  {
    ResponseIsValid(r);
    Serialize(RESPOND, RespondMsgOf(r))
  }

  function Int(v: Value): int { if v.IntV? then v.n else 0 }

  function Octets(v: Value): Bytes { if v.BytesV? then v.b else [] }

  function DecodeRequest(b: Bytes): Option<Request> {
    match Parse(REQUEST, b)
    case None => None
    case Some(m) =>
      Some(Request(Int(m.vals[0]), Octets(m.vals[1]), Octets(m.vals[3]), Octets(m.vals[2]), Octets(m.vals[5]),
          Int(m.vals[6])))
  }

  function DecodeResponse(b: Bytes): Option<Received> {
    match Parse(RESPOND, b)
    case None => None
    case Some(m) =>
      Some(Received(Int(m.vals[0]), Int(m.vals[1]), Octets(m.vals[2]), Octets(m.vals[3]), Octets(m.vals[6])))
  }

  lemma RequestRoundTrip(r: Request)
    requires ValidRequest(r)
    ensures DecodeRequest(EncodeRequest(r)) == Some(r)
  {
    RequestIsValid(r);
    RoundTrip(REQUEST, RequestMsgOf(r));
    hide Parse, Serialize;
  }

  lemma ResponseRoundTrip(r: Response)
    requires ValidResponse(r)
    ensures DecodeResponse(EncodeResponse(r)) == Some(OnWire(r))
  {
    ResponseIsValid(r);
    RoundTrip(RESPOND, RespondMsgOf(r));
    hide Parse, Serialize;
  }

  // ---------------------------------------------------------------- the codec objects

  class RequestCodec {
    const msg: RequestMsg
    var encstr: Bytes

    constructor OfString(encoded: Bytes)
      ensures fresh(msg) && encstr == encoded
    {
      msg := new RequestMsg();
      encstr := encoded;
    }

    constructor OfInfo(info: Request)
      requires ValidRequest(info)
      ensures fresh(msg) && msg.Valid() && msg.Contents() == RequestMsgOf(info)
    {
      RequestIsValid(info);
      msg := new RequestMsg();
      encstr := [];
      new;
      msg.msgType := info.kind;
      msg.clientId := info.client;
      msg.authCode := info.authCode;
      msg.serverId := info.server;
      msg.data := info.data;
      msg.sign := [];
      msg.keyId := info.keyId;
    }

    method MsgEncode() returns (b: Bytes)
      requires msg.Valid()
      ensures b == Serialize(REQUEST, msg.Contents())
    {
      b := msg.SerializeAsString();
    }

    method MsgDecode() returns (r: Option<Request>)
      modifies msg
      ensures r == DecodeRequest(encstr)
    {
      var ok := msg.ParseFromString(encstr);
      hide Parse;
      if !ok { return None; }
      r := Some(Request(msg.msgType, msg.clientId, msg.serverId, msg.authCode, msg.data, msg.keyId));
    }
  }

  class RespondCodec {
    const msg: RespondMsg
    var encstr: Bytes

    constructor OfString(encoded: Bytes)
      ensures fresh(msg) && encstr == encoded
    {
      msg := new RespondMsg();
      encstr := encoded;
    }

    constructor OfInfo(info: Response)
      requires ValidResponse(info)
      ensures fresh(msg) && msg.Valid() && msg.Contents() == RespondMsgOf(info)
    {
      ResponseIsValid(info);
      msg := new RespondMsg();
      encstr := [];
      new;
      msg.msgType := info.kind;
      msg.rv := info.rv;
      msg.clientId := info.client;
      msg.serverId := info.server;
      msg.sign := [];
      msg.authCode := [];
      msg.data := info.data;
    }

    method MsgEncode() returns (b: Bytes)
      requires msg.Valid()
      ensures b == Serialize(RESPOND, msg.Contents())
    {
      b := msg.SerializeAsString();
    }

    method MsgDecode() returns (r: Option<Received>)
      modifies msg
      ensures r == DecodeResponse(encstr)
    {
      var ok := msg.ParseFromString(encstr);
      hide Parse;
      if !ok { return None; }
      r := Some(Received(msg.msgType, msg.rv, msg.clientId, msg.serverId, msg.data));
    }
  }

  // ---------------------------------------------------------------- zero octets

  predicate NoZero(vals: seq<Value>) { forall i :: 0 <= i < |vals| && vals[i].BytesV? ==> 0 !in vals[i].b }

  /** The record of a value that is not a default holds a zero octet only if the value does. */
  lemma RecordNoZero(num: nat, v: Value)
    requires num > 0 && !IsDefault(v) && (v.IntV? ==> IsInt32(v.n))
    ensures 0 !in Encode(RecordOf(num, v)) <==> (v.BytesV? ==> 0 !in v.b)
  {
    VarintHasNoZero(num * 8 + WireType(RecordOf(num, v).payload));
    match v
    case IntV(n) => VarintHasNoZero(SignExtend64(n));
    case BytesV(b) => VarintHasNoZero(|b|);
  }

  lemma {:induction false} FieldsNoZero(sc: Schema, vals: seq<Value>, from: nat)
    requires |vals| == |sc| && (forall i :: 0 <= i < |sc| ==> ValidValue(sc[i], vals[i])) && from <= |sc|
    ensures 0 !in EncodeAll(FieldRecords(sc, vals, from)) <==> NoZero(vals[from..])
    decreases |sc| - from
  {
    if from < |sc| {
      FieldsNoZero(sc, vals, from + 1);
      assert ValidValue(sc[from], vals[from]);
      assert vals[from..] == [vals[from]] + vals[from + 1..];
      assert NoZero(vals[from..]) <==> (vals[from].BytesV? ==> 0 !in vals[from].b) && NoZero(vals[from + 1..]);
      var rest := FieldRecords(sc, vals, from + 1);
      hide NoZero, Encode, RecordOf;
      if IsDefault(vals[from]) {
        assert FieldRecords(sc, vals, from) == [] + rest == rest;
      } else {
        var r := RecordOf(from + 1, vals[from]);
        RecordNoZero(from + 1, vals[from]);
        assert FieldRecords(sc, vals, from) == [r] + rest;
        assert ([r] + rest)[1..] == rest;
        assert EncodeAll([r] + rest) == Encode(r) + EncodeAll(rest);
      }
    }
  }

  /** Without unknown fields, a message is printed without a zero octet exactly when its octet
      strings hold none: tags and lengths are minimal varints of positive numbers. */
  lemma NoZeroInNoZeroOut(sc: Schema, m: Msg)
    requires ValidMsg(sc, m) && m.unknown == []
    ensures 0 !in Serialize(sc, m) <==> NoZero(m.vals)
  {
    FieldsNoZero(sc, m.vals, 0);
    assert FieldRecords(sc, m.vals, 0) + [] == FieldRecords(sc, m.vals, 0);
    assert m.vals[0..] == m.vals;
  }

  /** Decoding a reply as a C string is decoding it whole when its names and its data hold no NUL. */
  lemma CStringDecodes(r: Response)
    requires ValidResponse(r) && 0 !in r.client && 0 !in r.server && 0 !in r.data
    ensures 0 !in EncodeResponse(r) && DecodeResponse(CString(EncodeResponse(r))) == Some(OnWire(r))
  {
    ResponseIsValid(r);
    NoZeroInNoZeroOut(RESPOND, RespondMsgOf(r));
    ResponseRoundTrip(r);
    assert NoZero(RespondMsgOf(r).vals);
    hide DecodeResponse, Serialize, NoZero, ValidMsg;
  }

  lemma PremasterText(env: Env, st: Store, fd: int, req: Request, luck: Luck)
    requires req.kind == PREKEY
    ensures var r := Serve(env, st, fd, req, luck).1; 0 !in r.client && 0 !in r.server && 0 !in r.data
  {
    PremasterUnfolds(env, st, fd, req, luck);
    hide Serve, Storable, InsertRow, CString, AuthKey, EndeKey, ToDecimal;
  }

  /** Every reply that clientPremaster can build has no zero octet, so the client's C string decode
      equals the full one. */
  lemma PremasterReplyHasNoZero(env: Env, st: Store, fd: int, req: Request, luck: Luck)
    requires req.kind == PREKEY && ValidResponse(Serve(env, st, fd, req, luck).1)
    ensures var r := Serve(env, st, fd, req, luck).1;
            0 !in EncodeResponse(r) && DecodeResponse(CString(EncodeResponse(r))) == Some(OnWire(r))
  {
    PremasterText(env, st, fd, req, luck);
    var r := Serve(env, st, fd, req, luck).1;
    hide Serve, EncodeResponse, DecodeResponse, ValidResponse, CString;
    CStringDecodes(r);
  }
}
