/** The two message classes of transit_data.proto, as generated. */
module TransitData {
  import opened Bytes
  import opened Wire
  import opened Message
  import opened WireIO

  const REQUEST: Schema := [IntField, BytesField, BytesField, BytesField, BytesField, BytesField, IntField]
  const RESPOND: Schema := [IntField, IntField, BytesField, BytesField, BytesField, BytesField, BytesField]

  // ---------------------------------------------------------------- shared by both classes

  lemma ParseStart(sc: Schema, m: Msg, buf: Bytes)
    requires |m.vals| == |sc|
    ensures buf[0..] == buf && ReadAll(buf) == Prepend([], ReadAll(buf)) && ApplyAll(sc, m, []) == m
  {
    hide ReadAll;
    assert ReadAll(buf).Some? ==> [] + ReadAll(buf).value == ReadAll(buf).value;
  }

  lemma ParseEnd(done: seq<Record>)
    ensures Prepend(done, ReadAll([])) == Some(done)
  {
    assert done + [] == done;
  }

  lemma NoTag(b: Bytes)
    requires ReadTag(b).None?
    ensures ReadRecord(b).None?
  {
  }

  /** How the record at the start of b depends on its tag. */
  lemma TaggedRecord(b: Bytes)
    requires ReadTag(b).Some?
    ensures var Tag(num, wireType, n) := ReadTag(b).value;
            && (num == 0 || wireType == 4 ==> ReadRecord(b).None?)
            && (num != 0 && wireType != 3 ==>
                  ReadRecord(b) == match ReadScalar(wireType, b[n..])
                                   case None => None
                                   case Some((p, m)) => Some((Record(num, p), n + m)))
            && (wireType == 0 && ReadScalar(0, b[n..]).Some? ==> ReadScalar(0, b[n..]).value.0.VarintP?)
            && (wireType == 2 && ReadScalar(2, b[n..]).Some? ==> ReadScalar(2, b[n..]).value.0.LenP?)
            && (ReadRecord(b).Some? ==> ReadRecord(b).value.0.num == num
                                        && WireType(ReadRecord(b).value.0.payload) == wireType)
  {
    hide ReadTag, ReadVarint, ReadGroup;
  }

  /** One turn of the loop, told apart by the tag alone. */
  lemma ApplyCases(sc: Schema, m: Msg, r: Record)
    requires ValidMsg(sc, m) && ValidRecord(r)
    ensures ValidMsg(sc, Apply(sc, m, r))
    ensures var t := WireType(r.payload);
            if 1 <= r.num <= |sc| && t == (if sc[r.num - 1] == IntField then 0 else 2)
            then Apply(sc, m, r) == m.(vals := m.vals[r.num - 1 := ValueOf(r.payload)])
            else Apply(sc, m, r) == m.(unknown := m.unknown + [r])
  {
  }

  /** Octets that a field adds to the size. */
  function FieldSize(v: Value): nat
    requires if v.IntV? then IsInt32(v.n) else |v.b| < TWO31
  {
    match v
    case IntV(n) => if n == 0 then 0 else 1 + Int32Size(n)
    case BytesV(b) => if b == [] then 0 else 1 + LengthDelimitedSize(b)
  }

  lemma FieldSizeOf(sc: Schema, m: Msg, k: nat)
    requires ValidMsg(sc, m) && k < |sc| && k < 15
    ensures ValidValue(sc[k], m.vals[k])
    ensures |Suffix(sc, m, k)| == FieldSize(m.vals[k]) + |Suffix(sc, m, k + 1)|
  {
    SuffixStep(sc, m, k);
    FieldBytesOf(k + 1, m.vals[k]);
    hide Suffix, EncVarint, FieldBytes;
  }

  lemma StartOfSuffix(sc: Schema, m: Msg)
    requires ValidMsg(sc, m)
    ensures Serialize(sc, m) == Suffix(sc, m, 0)
  {
  }

  lemma SizeIsSum(sc: Schema, m: Msg)
    requires ValidMsg(sc, m) && |sc| == 7
    ensures forall i :: 0 <= i < 7 ==> ValidValue(sc[i], m.vals[i])
    ensures |Serialize(sc, m)| ==
            FieldSize(m.vals[0]) + FieldSize(m.vals[1]) + FieldSize(m.vals[2]) + FieldSize(m.vals[3]) +
            FieldSize(m.vals[4]) + FieldSize(m.vals[5]) + FieldSize(m.vals[6]) + |EncodeAll(m.unknown)|
  {
    hide Serialize, Suffix, FieldSize, EncodeAll;
    StartOfSuffix(sc, m);
    FieldSizeOf(sc, m, 0);
    FieldSizeOf(sc, m, 1);
    FieldSizeOf(sc, m, 2);
    FieldSizeOf(sc, m, 3);
    FieldSizeOf(sc, m, 4);
    FieldSizeOf(sc, m, 5);
    FieldSizeOf(sc, m, 6);
    SuffixEnd(sc, m);
  }

  /** The next field's octets come off the front of what remains to be written. */
  lemma EmitStep(sc: Schema, m: Msg, num: nat, before: Bytes, all: Bytes)
    requires ValidMsg(sc, m) && 1 <= num <= |sc| && before + Suffix(sc, m, num - 1) == all
    ensures ValidValue(sc[num - 1], m.vals[num - 1])
    ensures before + FieldBytes(num, m.vals[num - 1]) + Suffix(sc, m, num) == all
    ensures |all| == |before| + |FieldBytes(num, m.vals[num - 1])| + |Suffix(sc, m, num)|
  {
    SuffixStep(sc, m, num - 1);
    hide *;
    Regroup(before, FieldBytes(num, m.vals[num - 1]), Suffix(sc, m, num), Suffix(sc, m, num - 1), all);
  }

  lemma SkipStep(sc: Schema, m: Msg, num: nat, before: Bytes, all: Bytes)
    requires ValidMsg(sc, m) && 1 <= num <= |sc| && before + Suffix(sc, m, num - 1) == all
    requires IsDefault(m.vals[num - 1])
    ensures before + Suffix(sc, m, num) == all
  {
    EmitStep(sc, m, num, before, all);
    DefaultIsSilent(num, m.vals[num - 1]);
    hide *;
    assert before + [] == before;
  }

  lemma DefaultIsSilent(num: nat, v: Value)
    requires v.IntV? ==> IsInt32(v.n)
    ensures IsDefault(v) ==> FieldBytes(num, v) == []
  {
  }

  lemma Regroup(before: Bytes, piece: Bytes, rest: Bytes, whole: Bytes, all: Bytes)
    requires whole == piece + rest && before + whole == all
    ensures before + piece + rest == all && |all| == |before| + |piece| + |rest|
  {
  }

  /** Writes a varint field unless it is zero. */
  method EmitInt(ghost sc: Schema, ghost m: Msg, num: nat, n: int, target: array<byte>, pos: nat, ghost all: Bytes)
    returns (end: nat)
    requires ValidMsg(sc, m) && 1 <= num <= |sc| < 16 && m.vals[num - 1] == IntV(n)
    requires pos <= target.Length && target[..pos] + Suffix(sc, m, num - 1) == all && |all| <= target.Length
    modifies target
    ensures end <= target.Length && target[..end] + Suffix(sc, m, num) == all
  {
    EmitStep(sc, m, num, target[..pos], all);
    hide Suffix, Encode, ValidMsg, FieldBytes, RecordOf;
    end := pos;
    if n == 0 {
      SkipStep(sc, m, num, target[..pos], all);
    } else {
      end := WriteInt(num, n, target, end);
    }
  }

  /** Writes a length-delimited field unless it is empty. */
  method EmitBytes(ghost sc: Schema, ghost m: Msg, num: nat, b: Bytes, target: array<byte>, pos: nat, ghost all: Bytes)
    returns (end: nat)
    requires ValidMsg(sc, m) && 1 <= num <= |sc| < 16 && m.vals[num - 1] == BytesV(b)
    requires pos <= target.Length && target[..pos] + Suffix(sc, m, num - 1) == all && |all| <= target.Length
    modifies target
    ensures end <= target.Length && target[..end] + Suffix(sc, m, num) == all
  {
    EmitStep(sc, m, num, target[..pos], all);
    hide Suffix, Encode, ValidMsg, FieldBytes, RecordOf;
    end := pos;
    if b == [] {
      SkipStep(sc, m, num, target[..pos], all);
    } else {
      end := WriteBytes(num, b, target, end);
    }
  }

  /** Merging field by field: a field of the second message counts unless it is the default. */
  lemma MergeOfRequestMsg(msgType: int, clientId: Bytes, authCode: Bytes, serverId: Bytes, sign: Bytes, data: Bytes,
                          keyId: int, unknown: seq<Record>,
                          msgType2: int, clientId2: Bytes, authCode2: Bytes, serverId2: Bytes, sign2: Bytes,
                          data2: Bytes, keyId2: int, unknown2: seq<Record>)
    ensures Merge(Msg([IntV(msgType), BytesV(clientId), BytesV(authCode), BytesV(serverId), BytesV(sign),
                       BytesV(data), IntV(keyId)], unknown),
                  Msg([IntV(msgType2), BytesV(clientId2), BytesV(authCode2), BytesV(serverId2), BytesV(sign2),
                      BytesV(data2), IntV(keyId2)], unknown2)) ==
            Msg([IntV(if msgType2 != 0 then msgType2 else msgType),
                 BytesV(if clientId2 != [] then clientId2 else clientId),
                 BytesV(if authCode2 != [] then authCode2 else authCode),
                 BytesV(if serverId2 != [] then serverId2 else serverId),
                 BytesV(if sign2 != [] then sign2 else sign),
                 BytesV(if data2 != [] then data2 else data),
                 IntV(if keyId2 != 0 then keyId2 else keyId)],
                unknown + unknown2)
  {
  }

  /** A request: type = 1, clientId = 2, authCode = 3, serverId = 4, sign = 5, data = 6, keyid = 7. */
  class RequestMsg {
    var msgType: int
    var clientId: Bytes
    var authCode: Bytes
    var serverId: Bytes
    var sign: Bytes
    var data: Bytes
    var keyId: int
    var unknownFields: seq<Record>

    /** The message this object stands for. */
    ghost function Contents(): Msg
      reads this
    {
      Msg([IntV(msgType), BytesV(clientId), BytesV(authCode), BytesV(serverId), BytesV(sign), BytesV(data),
          IntV(keyId)],
          unknownFields)
    }

    ghost predicate Valid()
      reads this
    {
      ValidMsg(REQUEST, Contents())
    }

    constructor ()
      ensures Valid() && Contents() == Empty(REQUEST)
    {
      msgType := 0;
      clientId := [];
      authCode := [];
      serverId := [];
      sign := [];
      data := [];
      keyId := 0;
      unknownFields := [];
    }

    method Clear()
      modifies this
      ensures Valid() && Contents() == Empty(REQUEST)
    {
      msgType := 0;
      clientId := [];
      authCode := [];
      serverId := [];
      sign := [];
      data := [];
      keyId := 0;
      unknownFields := [];
    }

    /** The parse loop: adds the records of buf to what the message holds already. */
    method InternalParse(buf: Bytes) returns (ok: bool)
      requires Valid()
      modifies this
      ensures Valid()
      ensures ok <==> ReadAll(buf).Some?
      ensures ok ==> Contents() == ApplyAll(REQUEST, old(Contents()), ReadAll(buf).value)
    {
      hide ReadTag, ReadScalar, ReadRecord, ReadAll, ApplyAll, Apply, ValidMsg, Known, Prepend, WireType;
      ghost var start := Contents();
      ghost var done: seq<Record> := [];
      var ptr := 0;
      ParseStart(REQUEST, start, buf);
      while ptr < |buf|
        invariant ptr <= |buf| && Valid()
        invariant ReadAll(buf) == Prepend(done, ReadAll(buf[ptr..]))
        invariant Contents() == ApplyAll(REQUEST, start, done)
      {
        var b := buf[ptr..];
        ParseStep(REQUEST, start, buf, ptr, done);
        var tag := ReadTag(b);
        if tag.None? {
          NoTag(b);
          return false;
        }
        var Tag(num, wireType, n) := tag.value;
        TaggedRecord(b);
        ghost var before := Contents();
        if ReadRecord(b).Some? { ApplyCases(REQUEST, before, ReadRecord(b).value.0); }
        if num == 1 && wireType == 0 {
          var v := ReadScalar(0, b[n..]);
          if v.None? { return false; }
          msgType := ToInt32(v.value.0.u);
          ptr := ptr + n + v.value.1;
        } else if num == 2 && wireType == 2 {
          var v := ReadScalar(2, b[n..]);
          if v.None? { return false; }
          clientId := v.value.0.b;
          ptr := ptr + n + v.value.1;
        } else if num == 3 && wireType == 2 {
          var v := ReadScalar(2, b[n..]);
          if v.None? { return false; }
          authCode := v.value.0.b;
          ptr := ptr + n + v.value.1;
        } else if num == 4 && wireType == 2 {
          var v := ReadScalar(2, b[n..]);
          if v.None? { return false; }
          serverId := v.value.0.b;
          ptr := ptr + n + v.value.1;
        } else if num == 5 && wireType == 2 {
          var v := ReadScalar(2, b[n..]);
          if v.None? { return false; }
          sign := v.value.0.b;
          ptr := ptr + n + v.value.1;
        } else if num == 6 && wireType == 2 {
          var v := ReadScalar(2, b[n..]);
          if v.None? { return false; }
          data := v.value.0.b;
          ptr := ptr + n + v.value.1;
        } else if num == 7 && wireType == 0 {
          var v := ReadScalar(0, b[n..]);
          if v.None? { return false; }
          keyId := ToInt32(v.value.0.u);
          ptr := ptr + n + v.value.1;
        } else {
          if num == 0 || wireType == 4 { return false; }
          var u := ReadRecord(b);
          if u.None? { return false; }
          unknownFields := unknownFields + [u.value.0];
          ptr := ptr + u.value.1;
        }
        ghost var r := ReadRecord(b).value.0;
        assert Contents() == Apply(REQUEST, before, r);
        done := done + [r];
      }
      assert buf[ptr..] == [];
      ParseEnd(done);
      ok := true;
    }

    method ParseFromString(buf: Bytes) returns (ok: bool)
      modifies this
      ensures Valid()
      ensures ok <==> Parse(REQUEST, buf).Some?
      ensures ok ==> Parse(REQUEST, buf) == Some(Contents())
    {
      Clear();
      ok := InternalParse(buf);
    }

    /** Writes the message at position pos of the output. */
    method InternalSerialize(target: array<byte>, pos: nat) returns (end: nat)
      requires Valid() && pos + |Serialize(REQUEST, Contents())| <= target.Length
      modifies target
      ensures end == pos + |Serialize(REQUEST, Contents())|
      ensures target[..end] == old(target[..pos]) + Serialize(REQUEST, Contents())
    {
      ghost var m := Contents();
      ghost var all := target[..pos] + Serialize(REQUEST, m);
      hide Serialize, Suffix, EncodeAll, ValidMsg;
      StartOfSuffix(REQUEST, m);
      end := pos;
      end := EmitInt(REQUEST, m, 1, msgType, target, end, all);
      end := EmitBytes(REQUEST, m, 2, clientId, target, end, all);
      end := EmitBytes(REQUEST, m, 3, authCode, target, end, all);
      end := EmitBytes(REQUEST, m, 4, serverId, target, end, all);
      end := EmitBytes(REQUEST, m, 5, sign, target, end, all);
      end := EmitBytes(REQUEST, m, 6, data, target, end, all);
      end := EmitInt(REQUEST, m, 7, keyId, target, end, all);
      SuffixEnd(REQUEST, m);
      end := WriteRaw(EncodeAll(unknownFields), target, end);
    }

    /** The size, added up in the order in which the fields are laid out in memory. */
    method ByteSizeLong() returns (totalSize: nat)
      requires Valid()
      ensures totalSize == |Serialize(REQUEST, Contents())|
    {
      ghost var m := Contents();
      SizeIsSum(REQUEST, m);
      hide Serialize, EncodeAll, EncVarint, ValidMsg, Int32Size, LengthDelimitedSize;
      totalSize := 0;
      ghost var done := totalSize;
      if clientId != [] { totalSize := totalSize + 1 + LengthDelimitedSize(clientId); }
      assert totalSize == done + FieldSize(m.vals[1]);
      done := totalSize;
      if authCode != [] { totalSize := totalSize + 1 + LengthDelimitedSize(authCode); }
      assert totalSize == done + FieldSize(m.vals[2]);
      done := totalSize;
      if serverId != [] { totalSize := totalSize + 1 + LengthDelimitedSize(serverId); }
      assert totalSize == done + FieldSize(m.vals[3]);
      done := totalSize;
      if sign != [] { totalSize := totalSize + 1 + LengthDelimitedSize(sign); }
      assert totalSize == done + FieldSize(m.vals[4]);
      done := totalSize;
      if data != [] { totalSize := totalSize + 1 + LengthDelimitedSize(data); }
      assert totalSize == done + FieldSize(m.vals[5]);
      done := totalSize;
      if msgType != 0 { totalSize := totalSize + 1 + Int32Size(msgType); }
      assert totalSize == done + FieldSize(m.vals[0]);
      done := totalSize;
      if keyId != 0 { totalSize := totalSize + 1 + Int32Size(keyId); }
      totalSize := totalSize + UnknownFieldsSize(unknownFields);
    }

    method SerializeAsString() returns (out: Bytes)
      requires Valid()
      ensures out == Serialize(REQUEST, Contents())
    {
      var size := ByteSizeLong();
      var target := new byte[size];
      var end := InternalSerialize(target, 0);
      out := target[..end];
    }

    method MergeFrom(from: RequestMsg)
      requires Valid() && from.Valid() && from != this
      modifies this
      ensures Valid() && Contents() == Merge(old(Contents()), from.Contents())
    {
      hide Merge, ValidMsg;
      ghost var m, f := Contents(), from.Contents();
      MergedIsValid(REQUEST, m, f);
      MergeOfRequestMsg(msgType, clientId, authCode, serverId, sign, data, keyId, unknownFields,
                       from.msgType, from.clientId, from.authCode, from.serverId, from.sign, from.data, from.keyId,
                       from.unknownFields);
      if from.clientId != [] { clientId := from.clientId; }
      if from.authCode != [] { authCode := from.authCode; }
      if from.serverId != [] { serverId := from.serverId; }
      if from.sign != [] { sign := from.sign; }
      if from.data != [] { data := from.data; }
      if from.msgType != 0 { msgType := from.msgType; }
      if from.keyId != 0 { keyId := from.keyId; }
      unknownFields := unknownFields + from.unknownFields;
    }

    method CopyFrom(from: RequestMsg)
      requires Valid() && from.Valid()
      modifies this
      ensures Valid() && Contents() == old(from.Contents())
    {
      if from == this { return; }
      Clear();
      MergeFrom(from);
      MergeIntoEmpty(REQUEST, from.Contents());
    }
  }

  /** Merging field by field: a field of the second message counts unless it is the default. */
  lemma MergeOfRespondMsg(msgType: int, rv: int, clientId: Bytes, serverId: Bytes, sign: Bytes, authCode: Bytes,
                          data: Bytes, unknown: seq<Record>,
                          msgType2: int, rv2: int, clientId2: Bytes, serverId2: Bytes, sign2: Bytes,
                          authCode2: Bytes, data2: Bytes, unknown2: seq<Record>)
    ensures Merge(Msg([IntV(msgType), IntV(rv), BytesV(clientId), BytesV(serverId), BytesV(sign), BytesV(authCode),
                       BytesV(data)], unknown),
                  Msg([IntV(msgType2), IntV(rv2), BytesV(clientId2), BytesV(serverId2), BytesV(sign2),
                      BytesV(authCode2), BytesV(data2)], unknown2)) ==
            Msg([IntV(if msgType2 != 0 then msgType2 else msgType),
                 IntV(if rv2 != 0 then rv2 else rv),
                 BytesV(if clientId2 != [] then clientId2 else clientId),
                 BytesV(if serverId2 != [] then serverId2 else serverId),
                 BytesV(if sign2 != [] then sign2 else sign),
                 BytesV(if authCode2 != [] then authCode2 else authCode),
                 BytesV(if data2 != [] then data2 else data)],
                unknown + unknown2)
  {
  }

  /** A reply: type = 1, rv = 2, clientId = 3, serverId = 4, sign = 5, authCode = 6, data = 7. */
  class RespondMsg {
    var msgType: int
    var rv: int
    var clientId: Bytes
    var serverId: Bytes
    var sign: Bytes
    var authCode: Bytes
    var data: Bytes
    var unknownFields: seq<Record>

    /** The message this object stands for. */
    ghost function Contents(): Msg
      reads this
    {
      Msg([IntV(msgType), IntV(rv), BytesV(clientId), BytesV(serverId), BytesV(sign), BytesV(authCode), BytesV(data)],
          unknownFields)
    }

    ghost predicate Valid()
      reads this
    {
      ValidMsg(RESPOND, Contents())
    }

    constructor ()
      ensures Valid() && Contents() == Empty(RESPOND)
    {
      msgType := 0;
      rv := 0;
      clientId := [];
      serverId := [];
      sign := [];
      authCode := [];
      data := [];
      unknownFields := [];
    }

    method Clear()
      modifies this
      ensures Valid() && Contents() == Empty(RESPOND)
    {
      msgType := 0;
      rv := 0;
      clientId := [];
      serverId := [];
      sign := [];
      authCode := [];
      data := [];
      unknownFields := [];
    }

    /** The parse loop: adds the records of buf to what the message holds already. */
    method InternalParse(buf: Bytes) returns (ok: bool)
      requires Valid()
      modifies this
      ensures Valid()
      ensures ok <==> ReadAll(buf).Some?
      ensures ok ==> Contents() == ApplyAll(RESPOND, old(Contents()), ReadAll(buf).value)
    {
      hide ReadTag, ReadScalar, ReadRecord, ReadAll, ApplyAll, Apply, ValidMsg, Known, Prepend, WireType;
      ghost var start := Contents();
      ghost var done: seq<Record> := [];
      var ptr := 0;
      ParseStart(RESPOND, start, buf);
      while ptr < |buf|
        invariant ptr <= |buf| && Valid()
        invariant ReadAll(buf) == Prepend(done, ReadAll(buf[ptr..]))
        invariant Contents() == ApplyAll(RESPOND, start, done)
      {
        var b := buf[ptr..];
        ParseStep(RESPOND, start, buf, ptr, done);
        var tag := ReadTag(b);
        if tag.None? {
          NoTag(b);
          return false;
        }
        var Tag(num, wireType, n) := tag.value;
        TaggedRecord(b);
        ghost var before := Contents();
        if ReadRecord(b).Some? { ApplyCases(RESPOND, before, ReadRecord(b).value.0); }
        if num == 1 && wireType == 0 {
          var v := ReadScalar(0, b[n..]);
          if v.None? { return false; }
          msgType := ToInt32(v.value.0.u);
          ptr := ptr + n + v.value.1;
        } else if num == 2 && wireType == 0 {
          var v := ReadScalar(0, b[n..]);
          if v.None? { return false; }
          rv := ToInt32(v.value.0.u);
          ptr := ptr + n + v.value.1;
        } else if num == 3 && wireType == 2 {
          var v := ReadScalar(2, b[n..]);
          if v.None? { return false; }
          clientId := v.value.0.b;
          ptr := ptr + n + v.value.1;
        } else if num == 4 && wireType == 2 {
          var v := ReadScalar(2, b[n..]);
          if v.None? { return false; }
          serverId := v.value.0.b;
          ptr := ptr + n + v.value.1;
        } else if num == 5 && wireType == 2 {
          var v := ReadScalar(2, b[n..]);
          if v.None? { return false; }
          sign := v.value.0.b;
          ptr := ptr + n + v.value.1;
        } else if num == 6 && wireType == 2 {
          var v := ReadScalar(2, b[n..]);
          if v.None? { return false; }
          authCode := v.value.0.b;
          ptr := ptr + n + v.value.1;
        } else if num == 7 && wireType == 2 {
          var v := ReadScalar(2, b[n..]);
          if v.None? { return false; }
          data := v.value.0.b;
          ptr := ptr + n + v.value.1;
        } else {
          if num == 0 || wireType == 4 { return false; }
          var u := ReadRecord(b);
          if u.None? { return false; }
          unknownFields := unknownFields + [u.value.0];
          ptr := ptr + u.value.1;
        }
        ghost var r := ReadRecord(b).value.0;
        assert Contents() == Apply(RESPOND, before, r);
        done := done + [r];
      }
      assert buf[ptr..] == [];
      ParseEnd(done);
      ok := true;
    }

    method ParseFromString(buf: Bytes) returns (ok: bool)
      modifies this
      ensures Valid()
      ensures ok <==> Parse(RESPOND, buf).Some?
      ensures ok ==> Parse(RESPOND, buf) == Some(Contents())
    {
      Clear();
      ok := InternalParse(buf);
    }

    /** Writes the message at position pos of the output. */
    method InternalSerialize(target: array<byte>, pos: nat) returns (end: nat)
      requires Valid() && pos + |Serialize(RESPOND, Contents())| <= target.Length
      modifies target
      ensures end == pos + |Serialize(RESPOND, Contents())|
      ensures target[..end] == old(target[..pos]) + Serialize(RESPOND, Contents())
    {
      ghost var m := Contents();
      ghost var all := target[..pos] + Serialize(RESPOND, m);
      hide Serialize, Suffix, EncodeAll, ValidMsg;
      StartOfSuffix(RESPOND, m);
      end := pos;
      end := EmitInt(RESPOND, m, 1, msgType, target, end, all);
      end := EmitInt(RESPOND, m, 2, rv, target, end, all);
      end := EmitBytes(RESPOND, m, 3, clientId, target, end, all);
      end := EmitBytes(RESPOND, m, 4, serverId, target, end, all);
      end := EmitBytes(RESPOND, m, 5, sign, target, end, all);
      end := EmitBytes(RESPOND, m, 6, authCode, target, end, all);
      end := EmitBytes(RESPOND, m, 7, data, target, end, all);
      SuffixEnd(RESPOND, m);
      end := WriteRaw(EncodeAll(unknownFields), target, end);
    }

    /** The size, added up in the order in which the fields are laid out in memory. */
    method ByteSizeLong() returns (totalSize: nat)
      requires Valid()
      ensures totalSize == |Serialize(RESPOND, Contents())|
    {
      ghost var m := Contents();
      SizeIsSum(RESPOND, m);
      hide Serialize, EncodeAll, EncVarint, ValidMsg, Int32Size, LengthDelimitedSize;
      totalSize := 0;
      ghost var done := totalSize;
      if clientId != [] { totalSize := totalSize + 1 + LengthDelimitedSize(clientId); }
      assert totalSize == done + FieldSize(m.vals[2]);
      done := totalSize;
      if serverId != [] { totalSize := totalSize + 1 + LengthDelimitedSize(serverId); }
      assert totalSize == done + FieldSize(m.vals[3]);
      done := totalSize;
      if sign != [] { totalSize := totalSize + 1 + LengthDelimitedSize(sign); }
      assert totalSize == done + FieldSize(m.vals[4]);
      done := totalSize;
      if authCode != [] { totalSize := totalSize + 1 + LengthDelimitedSize(authCode); }
      assert totalSize == done + FieldSize(m.vals[5]);
      done := totalSize;
      if data != [] { totalSize := totalSize + 1 + LengthDelimitedSize(data); }
      assert totalSize == done + FieldSize(m.vals[6]);
      done := totalSize;
      if msgType != 0 { totalSize := totalSize + 1 + Int32Size(msgType); }
      assert totalSize == done + FieldSize(m.vals[0]);
      done := totalSize;
      if rv != 0 { totalSize := totalSize + 1 + Int32Size(rv); }
      totalSize := totalSize + UnknownFieldsSize(unknownFields);
    }

    method SerializeAsString() returns (out: Bytes)
      requires Valid()
      ensures out == Serialize(RESPOND, Contents())
    {
      var size := ByteSizeLong();
      var target := new byte[size];
      var end := InternalSerialize(target, 0);
      out := target[..end];
    }

    method MergeFrom(from: RespondMsg)
      requires Valid() && from.Valid() && from != this
      modifies this
      ensures Valid() && Contents() == Merge(old(Contents()), from.Contents())
    {
      hide Merge, ValidMsg;
      ghost var m, f := Contents(), from.Contents();
      MergedIsValid(RESPOND, m, f);
      MergeOfRespondMsg(msgType, rv, clientId, serverId, sign, authCode, data, unknownFields,
                       from.msgType, from.rv, from.clientId, from.serverId, from.sign, from.authCode, from.data,
                       from.unknownFields);
      if from.clientId != [] { clientId := from.clientId; }
      if from.serverId != [] { serverId := from.serverId; }
      if from.sign != [] { sign := from.sign; }
      if from.authCode != [] { authCode := from.authCode; }
      if from.data != [] { data := from.data; }
      if from.msgType != 0 { msgType := from.msgType; }
      if from.rv != 0 { rv := from.rv; }
      unknownFields := unknownFields + from.unknownFields;
    }

    method CopyFrom(from: RespondMsg)
      requires Valid() && from.Valid()
      modifies this
      ensures Valid() && Contents() == old(from.Contents())
    {
      if from == this { return; }
      Clear();
      MergeFrom(from);
      MergeIntoEmpty(RESPOND, from.Contents());
    }
  }
}
