/** The writers and size functions that generated code calls, and what they add to the output. */
module WireIO {
  import opened Bytes
  import opened Wire
  import opened Message

  // ---------------------------------------------------------------- sizes

  /** Octets of a 32-bit varint, by comparison with the thresholds. */
  function VarintSize32(v: nat): (n: nat)
    requires v < TWO32
    ensures n == |EncVarint(v)|
  {
    var n := if v < 0x80 then 1
             else if v < 0x4000 then 2
             else if v < 0x20_0000 then 3
             else if v < 0x1000_0000 then 4
             else 5;
    VarintSizes(v);
    n
  }

  lemma VarintSizes(v: nat)
    requires v < TWO32
    ensures v < 0x80 ==> |EncVarint(v)| == 1
    ensures 0x80 <= v < 0x4000 ==> |EncVarint(v)| == 2
    ensures 0x4000 <= v < 0x20_0000 ==> |EncVarint(v)| == 3
    ensures 0x20_0000 <= v < 0x1000_0000 ==> |EncVarint(v)| == 4
    ensures 0x1000_0000 <= v ==> |EncVarint(v)| == 5
  {
    assert Pow128(1) == 0x80 && Pow128(2) == 0x4000;
    assert Pow128(3) == 0x20_0000 && Pow128(4) == 0x1000_0000 && Pow128(5) > TWO32;
    var k := if v < 0x80 then 1 else if v < 0x4000 then 2 else if v < 0x20_0000 then 3
             else if v < 0x1000_0000 then 4 else 5;
    VarintFits(v, k);
    if k > 1 { VarintNeeds(v, k - 1); }
  }

  /** Size of an int32 or enum: negatives are sign-extended and always take ten octets. */
  function Int32Size(n: int): (s: nat)
    requires IsInt32(n)
    ensures s == |EncVarint(SignExtend64(n))|
  {
    if n < 0 then
      NegativeTakesTen(SignExtend64(n));
      10
    else VarintSize32(n)
  }

  lemma NegativeTakesTen(v: nat)
    requires TWO64 - TWO31 <= v < TWO64
    ensures |EncVarint(v)| == 10
  {
    VarintWidths(v);
    assert Pow128(9) == 0x8000_0000_0000_0000;
    VarintNeeds(v, 9);
  }

  lemma {:induction false} VarintNeeds(v: nat, k: nat)
    requires v >= Pow128(k)
    ensures |EncVarint(v)| > k
    decreases k
  {
    if k > 0 {
      VarintNeeds(v / 128, k - 1);
    }
  }

  function LengthDelimitedSize(b: Bytes): (s: nat)
    requires |b| < TWO31
    ensures s == |EncVarint(|b|) + b|
  {
    VarintSize32(|b|) + |b|
  }

  function RecordSize(r: Record): (s: nat)
    ensures s == |Encode(r)|
    decreases r, 1
  {
    |EncTag(r.num, WireType(r.payload))| +
    match r.payload
    case VarintP(u) => |EncVarint(u)|
    case Fixed64P(b) => |b|
    case LenP(b) => |EncVarint(|b|)| + |b|
    case GroupP(fs) => UnknownFieldsSize(fs) + |EncTag(r.num, 4)|
    case Fixed32P(b) => |b|
  }

  function UnknownFieldsSize(rs: seq<Record>): (s: nat)
    ensures s == |EncodeAll(rs)|
    decreases rs, 0
  {
    if rs == [] then 0 else RecordSize(rs[0]) + UnknownFieldsSize(rs[1..])
  }

  // ---------------------------------------------------------------- the output, field by field

  function FieldBytes(num: nat, v: Value): Bytes
    requires v.IntV? ==> IsInt32(v.n)
  {
    if IsDefault(v) then [] else Encode(RecordOf(num, v))
  }

  /** What remains to be written once the fields numbered 1 to k are out. */
  function Suffix(sc: Schema, m: Msg, k: nat): Bytes
    requires ValidMsg(sc, m)
  {
    EncodeAll(FieldRecords(sc, m.vals, k) + m.unknown)
  }

  lemma SuffixStep(sc: Schema, m: Msg, k: nat)
    requires ValidMsg(sc, m) && k < |sc|
    ensures ValidValue(sc[k], m.vals[k])
    ensures Suffix(sc, m, k) == FieldBytes(k + 1, m.vals[k]) + Suffix(sc, m, k + 1)
  {
    hide Encode;
    assert ValidValue(sc[k], m.vals[k]);
    if !IsDefault(m.vals[k]) {
      var r := RecordOf(k + 1, m.vals[k]);
      var rest := FieldRecords(sc, m.vals, k + 1) + m.unknown;
      assert FieldRecords(sc, m.vals, k) + m.unknown == [r] + rest;
      assert ([r] + rest)[1..] == rest;
    } else {
      assert FieldRecords(sc, m.vals, k) == FieldRecords(sc, m.vals, k + 1);
    }
  }

  lemma SuffixEnd(sc: Schema, m: Msg)
    requires ValidMsg(sc, m)
    ensures Suffix(sc, m, |sc|) == EncodeAll(m.unknown)
  {
    assert FieldRecords(sc, m.vals, |sc|) + m.unknown == m.unknown;
  }

  lemma FieldBytesOf(num: nat, v: Value)
    requires num < 16 && if v.IntV? then IsInt32(v.n) else |v.b| < TWO31
    ensures match v
            case IntV(n) => n != 0 ==> FieldBytes(num, v) == EncTag(num, 0) + EncVarint(SignExtend64(n))
                                       && |FieldBytes(num, v)| == 1 + Int32Size(n)
            case BytesV(b) => b != [] ==> FieldBytes(num, v) == EncTag(num, 2) + (EncVarint(|b|) + b)
                                          && |FieldBytes(num, v)| == 1 + LengthDelimitedSize(b)
    ensures IsDefault(v) ==> FieldBytes(num, v) == []
  {
  }

  // ---------------------------------------------------------------- the writers

  method WriteVarint(v: nat, target: array<byte>, pos: nat) returns (end: nat)
    requires pos + |EncVarint(v)| <= target.Length
    modifies target
    ensures end == pos + |EncVarint(v)|
    ensures target[..end] == old(target[..pos]) + EncVarint(v)
  {
    var rest := v;
    end := pos;
    ghost var sofar: Bytes := [];
    while rest >= 128
      invariant pos <= end && end + |EncVarint(rest)| <= target.Length
      invariant EncVarint(v) == sofar + EncVarint(rest)
      invariant end == pos + |sofar| && target[..end] == old(target[..pos]) + sofar
    {
      EncVarintStep(sofar, rest);
      target[end] := rest % 128 + 128;
      assert target[..end + 1] == target[..end] + [target[end]];
      sofar := sofar + [rest % 128 + 128];
      end := end + 1;
      rest := rest / 128;
    }
    target[end] := rest;
    end := end + 1;
    assert target[..end] == target[..end - 1] + [target[end - 1]];
  }

  lemma EncVarintStep(sofar: Bytes, v: nat)
    requires v >= 128
    ensures sofar + EncVarint(v) == sofar + [v % 128 + 128] + EncVarint(v / 128)
    ensures |EncVarint(v)| == 1 + |EncVarint(v / 128)|
  {
  }

  method WriteRaw(b: Bytes, target: array<byte>, pos: nat) returns (end: nat)
    requires pos + |b| <= target.Length
    modifies target
    ensures end == pos + |b|
    ensures target[..end] == old(target[..pos]) + b
  {
    for i := 0 to |b|
      invariant target[..pos] == old(target[..pos])
      invariant target[pos..pos + i] == b[..i]
    {
      target[pos + i] := b[i];
      assert target[pos..pos + i + 1] == target[pos..pos + i] + [b[i]];
    }
    end := pos + |b|;
    assert target[..end] == target[..pos] + target[pos..end];
  }

  /** A varint field: WriteEnumToArray and WriteInt32ToArray. */
  method WriteInt(num: nat, n: int, target: array<byte>, pos: nat) returns (end: nat)
    requires num < 16 && IsInt32(n) && n != 0
    requires pos + |FieldBytes(num, IntV(n))| <= target.Length
    modifies target
    ensures end == pos + |FieldBytes(num, IntV(n))|
    ensures target[..end] == old(target[..pos]) + FieldBytes(num, IntV(n))
  {
    FieldBytesOf(num, IntV(n));
    hide FieldBytes, EncVarint;
    end := WriteVarint(num * 8, target, pos);
    end := WriteVarint(SignExtend64(n), target, end);
  }

  lemma Nested(a: Bytes, b: Bytes, c: Bytes, d: Bytes)
    ensures a + b + c + d == a + (b + (c + d))
  {
  }

  method WriteBytes(num: nat, b: Bytes, target: array<byte>, pos: nat) returns (end: nat)
    requires num < 16 && b != [] && |b| < TWO31
    requires pos + |FieldBytes(num, BytesV(b))| <= target.Length
    modifies target
    ensures end == pos + |FieldBytes(num, BytesV(b))|
    ensures target[..end] == old(target[..pos]) + FieldBytes(num, BytesV(b))
  {
    FieldBytesOf(num, BytesV(b));
    ghost var before, tag, size := target[..pos], EncVarint(num * 8 + 2), EncVarint(|b|);
    Nested(before, tag, size, b);
    hide FieldBytes, EncVarint;
    end := WriteVarint(num * 8 + 2, target, pos);
    end := WriteVarint(|b|, target, end);
    end := WriteRaw(b, target, end);
  }

  // ---------------------------------------------------------------- the parse loop

  lemma ApplyOne(sc: Schema, m: Msg, r: Record)
    requires |m.vals| == |sc|
    ensures ApplyAll(sc, m, [r]) == Apply(sc, m, r)
  {
    assert [r][1..] == [];
  }

  /** One record read from position ptr: what it does to the records seen so far. */
  lemma ParseStep(sc: Schema, start: Msg, buf: Bytes, ptr: nat, done: seq<Record>)
    requires |start.vals| == |sc| && ptr < |buf| && ReadAll(buf) == Prepend(done, ReadAll(buf[ptr..]))
    ensures ReadRecord(buf[ptr..]).None? ==> ReadAll(buf).None?
    ensures ReadRecord(buf[ptr..]).Some? ==>
              var (r, n) := ReadRecord(buf[ptr..]).value;
              && ptr + n <= |buf|
              && ValidRecord(r)
              && ReadAll(buf) == Prepend(done + [r], ReadAll(buf[ptr + n..]))
              && ApplyAll(sc, start, done + [r]) == Apply(sc, ApplyAll(sc, start, done), r)
  {
    hide ReadRecord, ReadAll, Apply, ApplyAll, ValidRecord;
    var b := buf[ptr..];
    ReadAllUnfold(b);
    if ReadRecord(b).Some? {
      hide Prepend;
      var (r, n) := ReadRecord(b).value;
      ReadIsValid(b);
      DropTwice(buf, ptr, n);
      PrependTwice(done, [r], ReadAll(buf[ptr + n..]));
      ApplyAllAppend(sc, start, done, [r]);
      ApplyOne(sc, ApplyAll(sc, start, done), r);
    }
  }

  lemma DropTwice(b: Bytes, i: nat, j: nat)
    requires i + j <= |b|
    ensures b[i..][j..] == b[i + j..]
  {
  }
}
