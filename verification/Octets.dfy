/**
 The octets themselves: what each field of a request and of a reply looks like between the two
 programs, with its tag as a number.
 */
module Octets {
  import opened Bytes
  import opened Wire
  import opened WireIO
  import opened Message
  import opened TransitData
  import opened KeyServer
  import opened Codec

  // ---------------------------------------------------------------- varints and records

  /** Groups of seven bits, the least significant first. */
  function Septets(b: Bytes): nat { if b == [] then 0 else b[0] % 128 + 128 * Septets(b[1..]) }

  /** All octets but the last say that more come. */
  predicate OneVarint(b: Bytes) { b != [] && forall i :: 0 <= i < |b| ==> (b[i] >= 128 <==> i < |b| - 1) }

  /** The varint of a number is the one of its septets that has no needless octet. */
  lemma {:induction false} VarintWrites(v: nat)
    ensures var b := EncVarint(v);
            OneVarint(b) && Septets(b) == v && (|b| > 1 ==> b[|b| - 1] != 0)
    decreases v
  {
    if v < 128 {
      assert Septets([v][1..]) == 0;
    } else {
      VarintWrites(v / 128);
      var (b, rest) := (EncVarint(v), EncVarint(v / 128));
      assert b[1..] == rest;
      forall i | 0 <= i < |b| ensures b[i] >= 128 <==> i < |b| - 1 {
        if i > 0 { assert b[i] == rest[i - 1]; }
      }
      assert |rest| == 1 ==> rest[0] == v / 128;
    }
  }

  /** Any one varint of at most `max` octets at the front is read as its septets, needless octets included. */
  lemma {:induction false} VarintReads(b: Bytes, rest: Bytes, max: nat)
    requires OneVarint(b)
    ensures |b| <= max ==> ReadVarint(b + rest, max) == Some((Septets(b), |b|))
    ensures |b| > max ==> ReadVarint(b + rest, max).None?
    decreases |b|
  {
    assert (b + rest)[0] == b[0];
    if max > 0 && |b| > 1 {
      assert (b + rest)[1..] == b[1..] + rest;
      assert b[0] >= 128;
      forall i | 0 <= i < |b[1..]| ensures b[1..][i] >= 128 <==> i < |b[1..]| - 1 { assert b[1..][i] == b[i + 1]; }
      VarintReads(b[1..], rest, max - 1);
    } else if |b| == 1 {
      assert Septets(b[1..]) == 0;
    }
  }

  /** A record with a small field number, by wire type. */
  lemma RecordOctets(num: nat, u: nat, b: Bytes, fields: seq<Record>)
    requires 0 < num < 16
    ensures Encode(Record(num, VarintP(u))) == [8 * num] + EncVarint(u)
    ensures Encode(Record(num, Fixed64P(b))) == [8 * num + 1] + b
    ensures Encode(Record(num, LenP(b))) == [8 * num + 2] + (EncVarint(|b|) + b)
    ensures Encode(Record(num, GroupP(fields))) == [8 * num + 3] + (EncodeAll(fields) + [8 * num + 4])
    ensures Encode(Record(num, Fixed32P(b))) == [8 * num + 5] + b
  {
    hide EncodeAll;
  }

  // ---------------------------------------------------------------- fields

  /** A number after its tag; zero is left out, and a negative one is sent as 64 bits. */
  function Number(tag: byte, n: int): Bytes {
    if n == 0 then [] else [tag] + EncVarint(if n < 0 then n % 0x1_0000_0000_0000_0000 else n)
  }

  /** A string after its tag and its length; an empty one is left out. */
  function Text(tag: byte, b: Bytes): Bytes { if b == [] then [] else [tag] + EncVarint(|b|) + b }

  lemma FieldIsNumber(num: nat, n: int)
    requires 0 < num < 16 && IsInt32(n)
    ensures FieldBytes(num, IntV(n)) == Number(8 * num, n)
  {
    RecordOctets(num, SignExtend64(n), [], []);
    hide Encode, EncVarint;
  }

  lemma FieldIsText(num: nat, b: Bytes)
    requires 0 < num < 16
    ensures FieldBytes(num, BytesV(b)) == Text(8 * num + 2, b)
  {
    RecordOctets(num, 0, b, []);
    hide Encode, EncVarint;
    assert [(8 * num + 2) as byte] + (EncVarint(|b|) + b) == [(8 * num + 2) as byte] + EncVarint(|b|) + b;
  }

  // ---------------------------------------------------------------- the two messages

  lemma SevenFields(sc: Schema, m: Msg)
    requires ValidMsg(sc, m) && |sc| == 7 && m.unknown == []
    ensures forall i :: 0 <= i < 7 ==> ValidValue(sc[i], m.vals[i])
    ensures Serialize(sc, m) ==
            FieldBytes(1, m.vals[0]) + FieldBytes(2, m.vals[1]) + FieldBytes(3, m.vals[2]) + FieldBytes(4, m.vals[3])
            + FieldBytes(5, m.vals[4]) + FieldBytes(6, m.vals[5]) + FieldBytes(7, m.vals[6])
  {
    hide Serialize, Suffix, FieldBytes, EncodeAll;
    StartOfSuffix(sc, m);
    SuffixStep(sc, m, 0);
    SuffixStep(sc, m, 1);
    SuffixStep(sc, m, 2);
    SuffixStep(sc, m, 3);
    SuffixStep(sc, m, 4);
    SuffixStep(sc, m, 5);
    SuffixStep(sc, m, 6);
    SuffixEnd(sc, m);
    NoRecords();
  }

  lemma NoRecords()
    ensures EncodeAll([]) == []
  {
  }

  /** A request as octets: its type in field 1, the client's name in 2, the code in 3, the server's name in 4,
      the data in 6 and the key ID in 7. */
  lemma RequestOctets(r: Request)
    requires ValidRequest(r)
    ensures EncodeRequest(r) == Number(8, r.kind) + Text(18, r.client) + Text(26, r.authCode) + Text(34, r.server)
                                + Text(50, r.data) + Number(56, r.keyId)
  {
    RequestIsValid(r);
    SevenFields(REQUEST, RequestMsgOf(r));
    FieldIsNumber(1, r.kind);
    FieldIsText(2, r.client);
    FieldIsText(3, r.authCode);
    FieldIsText(4, r.server);
    FieldIsText(5, []);
    FieldIsText(6, r.data);
    FieldIsNumber(7, r.keyId);
    hide Serialize, FieldBytes, Number, Text, ValidMsg;
    NoText(42, Number(8, r.kind) + Text(18, r.client) + Text(26, r.authCode) + Text(34, r.server));
  }

  lemma NoText(tag: byte, before: Bytes)
    ensures before + Text(tag, []) == before
  {
  }

  /** A reply as octets: its type in field 1, its outcome in 2, the client's name in 3, the server's in 4 and the
      data in 7. */
  lemma ResponseOctets(r: Response)
    requires ValidResponse(r)
    ensures EncodeResponse(r) == Number(8, r.kind) + Number(16, r.rv) + Text(26, r.client) + Text(34, r.server)
                                 + Text(58, r.data)
  {
    ResponseIsValid(r);
    SevenFields(RESPOND, RespondMsgOf(r));
    FieldIsNumber(1, r.kind);
    FieldIsNumber(2, r.rv);
    FieldIsText(3, r.client);
    FieldIsText(4, r.server);
    FieldIsText(5, []);
    FieldIsText(6, []);
    FieldIsText(7, r.data);
    hide Serialize, FieldBytes, Number, Text, ValidMsg;
    var before := Number(8, r.kind) + Number(16, r.rv) + Text(26, r.client) + Text(34, r.server);
    NoText(42, before);
    NoText(50, before);
  }
}
