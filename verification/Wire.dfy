/**
 The record layer of the Protocol Buffers wire format (the "Encoding" specification, sections
 "Base 128 Varints", "Message Structure", "Length-Delimited Records" and "Groups"): what the
 generated code reads and writes through the library.
 */
module Wire {
  import opened Bytes

  // ---------------------------------------------------------------- varints

  function EncVarint(v: nat): (b: Bytes)
    ensures b != []
  {
    if v < 128 then [v] else [v % 128 + 128] + EncVarint(v / 128)
  }

  /** Reads a varint of at most `max` octets: its value and how many octets it took. */
  function ReadVarint(b: Bytes, max: nat): (r: Option<(nat, nat)>)
    ensures r.Some? ==> 0 < r.value.1 <= |b| && r.value.1 <= max
    decreases max
  {
    if max == 0 || b == [] then None
    else if b[0] < 128 then Some((b[0] as int, 1))
    else match ReadVarint(b[1..], max - 1)
      case None => None
      case Some((v, n)) => Some(((b[0] as int - 128) + 128 * v, n + 1))
  }

  lemma {:induction false} VarintRoundTrip(v: nat, rest: Bytes, max: nat)
    requires |EncVarint(v)| <= max
    ensures ReadVarint(EncVarint(v) + rest, max) == Some((v, |EncVarint(v)|))
    decreases v
  {
    var e := EncVarint(v) + rest;
    if v >= 128 {
      assert e[0] == v % 128 + 128;
      assert e[1..] == EncVarint(v / 128) + rest;
      VarintRoundTrip(v / 128, rest, max - 1);
    }
  }

  /** A varint is read from its own octets only. */
  lemma {:induction false} VarintIsLocal(b: Bytes, rest: Bytes, max: nat)
    requires ReadVarint(b, max).Some?
    ensures ReadVarint(b + rest, max) == ReadVarint(b, max)
    decreases max
  {
    if b[0] >= 128 {
      assert (b + rest)[1..] == b[1..] + rest;
      VarintIsLocal(b[1..], rest, max - 1);
    }
  }

  /** 128 to the power k. */
  function Pow128(k: nat): (p: nat)
    ensures p >= 1
  {
    if k == 0 then 1 else 128 * Pow128(k - 1)
  }

  lemma {:induction false} VarintFits(v: nat, k: nat)
    requires 0 < k && v < Pow128(k)
    ensures |EncVarint(v)| <= k
    decreases v
  {
    if v >= 128 {
      assert k > 1;
      VarintFits(v / 128, k - 1);
    }
  }

  lemma VarintWidths(v: nat)
    ensures v < TWO32 ==> |EncVarint(v)| <= 5
    ensures v < TWO64 ==> |EncVarint(v)| <= 10
  {
    assert Pow128(5) == 0x8_0000_0000;
    assert Pow128(10) == Pow128(5) * Pow128(5);
    if v < TWO32 { VarintFits(v, 5); }
    if v < TWO64 { VarintFits(v, 10); }
  }

  /** A varint written by the encoder holds a zero octet only when it is the varint of zero. */
  lemma {:induction false} VarintHasNoZero(v: nat)
    requires v > 0
    ensures 0 !in EncVarint(v)
    decreases v
  {
    if v >= 128 {
      VarintHasNoZero(v / 128);
    }
  }

  // ---------------------------------------------------------------- records

  datatype Payload =
    | VarintP(u: nat)
    | Fixed64P(b8: Bytes)
    | LenP(b: Bytes)
    | GroupP(fields: seq<Record>)
    | Fixed32P(b4: Bytes)

  datatype Record = Record(num: nat, payload: Payload)

  function WireType(p: Payload): (t: nat)
    ensures t < 8 && t != 4
  {
    match p
    case VarintP(_) => 0
    case Fixed64P(_) => 1
    case LenP(_) => 2
    case GroupP(_) => 3
    case Fixed32P(_) => 5
  }

  /** Field numbers are 29 bits wide and not zero. */
  predicate ValidNumber(n: nat) { 0 < n < 0x2000_0000 }

  predicate ValidRecord(r: Record)
    decreases r, 1
  {
    && ValidNumber(r.num)
    && match r.payload
       case VarintP(u) => u < TWO64
       case Fixed64P(b) => |b| == 8
       case LenP(b) => |b| < TWO31
       case GroupP(fs) => ValidRecords(fs)
       case Fixed32P(b) => |b| == 4
  }

  predicate ValidRecords(rs: seq<Record>)
    decreases rs, 0
  {
    forall i :: 0 <= i < |rs| ==> ValidRecord(rs[i])
  }

  function EncTag(num: nat, wireType: nat): (b: Bytes)
    ensures b != []
  {
    EncVarint(num * 8 + wireType)
  }

  function EncScalar(p: Payload): Bytes
    requires !p.GroupP?
  {
    match p
    case VarintP(u) => EncVarint(u)
    case Fixed64P(b) => b
    case LenP(b) => EncVarint(|b|) + b
    case Fixed32P(b) => b
  }

  function Encode(r: Record): (b: Bytes)
    ensures b != []
    decreases r, 1
  {
    EncTag(r.num, WireType(r.payload)) +
    if r.payload.GroupP? then EncodeAll(r.payload.fields) + EncTag(r.num, 4) else EncScalar(r.payload)
  }

  function EncodeAll(rs: seq<Record>): Bytes
    decreases rs, 0
  {
    if rs == [] then [] else Encode(rs[0]) + EncodeAll(rs[1..])
  }

  /** A tag is a field number and a wire type; `size` octets were read for it. */
  datatype Tag = Tag(num: nat, wireType: nat, size: nat)

  /** At most five octets, of whose value 32 bits are kept. */
  function ReadTag(b: Bytes): (r: Option<Tag>)
    ensures r.Some? ==> r.value.wireType < 8 && 0 < r.value.size <= |b|
  {
    match ReadVarint(b, 5)
    case None => None
    case Some((v, n)) => Some(Tag(v % TWO32 / 8, v % 8, n))
  }

  /** The length of a length-delimited payload; it must fit an int. */
  function ReadSize(b: Bytes): (r: Option<(nat, nat)>)
    ensures r.Some? ==> r.value.0 < TWO31 && 0 < r.value.1 <= |b|
  {
    match ReadVarint(b, 5)
    case None => None
    case Some((v, n)) => if v < TWO31 then Some((v, n)) else None
  }

  /** A payload that is not a group. */
  function ReadScalar(wireType: nat, b: Bytes): (r: Option<(Payload, nat)>)
    ensures r.Some? ==> r.value.1 <= |b|
  {
    match wireType
    case 0 =>
      (match ReadVarint(b, 10)
       case None => None
       case Some((v, n)) => Some((VarintP(v % TWO64), n)))
    case 1 => if |b| < 8 then None else Some((Fixed64P(b[..8]), 8))
    case 2 =>
      (match ReadSize(b)
       case None => None
       case Some((len, n)) => if |b| < n + len then None else Some((LenP(b[n..n + len]), n + len)))
    case 5 => if |b| < 4 then None else Some((Fixed32P(b[..4]), 4))
    case _ => None
  }

  /** The record at the start of b and the number of octets it takes. */
  function ReadRecord(b: Bytes): (r: Option<(Record, nat)>)
    ensures r.Some? ==> 0 < r.value.1 <= |b|
    decreases |b|, 1
  {
    match ReadTag(b)
    case None => None
    case Some(Tag(num, wireType, n)) =>
      if num == 0 then None
      else if wireType == 3 then
        match ReadGroup(num, b[n..])
        case None => None
        case Some((fs, m)) => Some((Record(num, GroupP(fs)), n + m))
      else
        match ReadScalar(wireType, b[n..])
        case None => None
        case Some((p, m)) => Some((Record(num, p), n + m))
  }

  /** The records of a group up to and including its end tag. */
  function ReadGroup(num: nat, b: Bytes): (r: Option<(seq<Record>, nat)>)
    ensures r.Some? ==> r.value.1 <= |b|
    decreases |b|, 2
  {
    match ReadTag(b)
    case None => None
    case Some(Tag(k, wireType, n)) =>
      if k == num && wireType == 4 then Some(([], n)) else
      match ReadRecord(b)
      case None => None
      case Some((r, m)) =>
        match ReadGroup(num, b[m..])
        case None => None
        case Some((rs, k)) => Some(([r] + rs, m + k))
  }

  /** All the records of b, when b is made of well-formed records and nothing else. */
  function ReadAll(b: Bytes): Option<seq<Record>>
    decreases |b|
  {
    if b == [] then Some([]) else
    match ReadRecord(b)
    case None => None
    case Some((r, n)) =>
      match ReadAll(b[n..])
      case None => None
      case Some(rs) => Some([r] + rs)
  }

  lemma ReadAllUnfold(b: Bytes)
    requires b != []
    ensures ReadRecord(b).None? ==> ReadAll(b).None?
    ensures ReadRecord(b).Some? ==>
              ReadAll(b) == Prepend([ReadRecord(b).value.0], ReadAll(b[ReadRecord(b).value.1..]))
  {
    hide ReadRecord;
  }

  // ---------------------------------------------------------------- round trip

  lemma TagRoundTrip(num: nat, t: nat, rest: Bytes)
    requires ValidNumber(num) && t < 8
    ensures ReadTag(EncTag(num, t) + rest) == Some(Tag(num, t, |EncTag(num, t)|))
  {
    hide ReadVarint, EncVarint;
    VarintWidths(num * 8 + t);
    VarintRoundTrip(num * 8 + t, rest, 5);
  }

  lemma ScalarRoundTrip(p: Payload, rest: Bytes)
    requires !p.GroupP? && ValidRecord(Record(1, p))
    ensures ReadScalar(WireType(p), EncScalar(p) + rest) == Some((p, |EncScalar(p)|))
  {
    hide ReadVarint, EncVarint;
    var body := EncScalar(p);
    match p {
      case VarintP(u) =>
        VarintWidths(u);
        VarintRoundTrip(u, rest, 10);
      case Fixed64P(b) =>
        assert (body + rest)[..8] == b;
      case LenP(b) =>
        VarintWidths(|b|);
        VarintRoundTrip(|b|, b + rest, 5);
        assert body + rest == EncVarint(|b|) + (b + rest);
        assert (body + rest)[|EncVarint(|b|)|..|EncVarint(|b|)| + |b|] == b;
      case Fixed32P(b) =>
        assert (body + rest)[..4] == b;
    }
  }

  /** What is written for a record reads back as that record, whatever follows it. */
  lemma {:induction false} RecordRoundTrip(r: Record, rest: Bytes)
    requires ValidRecord(r)
    ensures ReadRecord(Encode(r) + rest) == Some((r, |Encode(r)|))
    decreases r
  {
    hide ReadTag, ReadScalar, ReadGroup, EncTag, EncScalar, EncodeAll;
    var head := EncTag(r.num, WireType(r.payload));
    if r.payload.GroupP? {
      var body := EncodeAll(r.payload.fields) + EncTag(r.num, 4);
      TagRoundTrip(r.num, 3, body + rest);
      GroupRoundTrip(r.num, r.payload.fields, rest);
      assert Encode(r) + rest == head + (body + rest);
      assert (head + (body + rest))[|head|..] == body + rest;
    } else {
      var body := EncScalar(r.payload);
      TagRoundTrip(r.num, WireType(r.payload), body + rest);
      ScalarRoundTrip(r.payload, rest);
      assert Encode(r) + rest == head + (body + rest);
      assert (head + (body + rest))[|head|..] == body + rest;
    }
  }

  lemma EncodeAllCons(rs: seq<Record>, end: Bytes, rest: Bytes)
    requires rs != []
    ensures EncodeAll(rs) + end == Encode(rs[0]) + (EncodeAll(rs[1..]) + end)
    ensures EncodeAll(rs) + end + rest == Encode(rs[0]) + (EncodeAll(rs[1..]) + end + rest)
  {
    hide Encode;
    assert EncodeAll(rs) == Encode(rs[0]) + EncodeAll(rs[1..]);
  }

  lemma {:induction false} GroupRoundTrip(num: nat, fs: seq<Record>, rest: Bytes)
    requires ValidNumber(num) && ValidRecords(fs)
    ensures ReadGroup(num, EncodeAll(fs) + EncTag(num, 4) + rest) == Some((fs, |EncodeAll(fs) + EncTag(num, 4)|))
    decreases fs
  {
    hide ReadTag, ReadScalar, EncTag, EncScalar, Encode, ReadRecord;
    var end := EncTag(num, 4);
    if fs == [] {
      assert EncodeAll(fs) + end + rest == end + rest;
      TagRoundTrip(num, 4, rest);
    } else {
      var after := EncodeAll(fs[1..]) + end + rest;
      EncodeAllCons(fs, end, rest);
      hide ReadGroup, EncodeAll;
      RecordRoundTrip(fs[0], after);
      GroupRoundTrip(num, fs[1..], rest);
      GroupStep(num, fs[0], after);
      assert [fs[0]] + fs[1..] == fs;
    }
  }

  /** A record never starts with an end-group tag, so a group goes on after it. */
  lemma {:induction false} GroupStep(num: nat, r: Record, after: Bytes)
    requires ValidRecord(r) && ReadGroup(num, after).Some?
    requires ReadRecord(Encode(r) + after) == Some((r, |Encode(r)|))
    ensures var (fs, n) := ReadGroup(num, after).value;
            ReadGroup(num, Encode(r) + after) == Some(([r] + fs, |Encode(r)| + n))
  {
    hide ReadTag, ReadScalar, EncTag, EncScalar, ReadRecord;
    var b := Encode(r) + after;
    var head := EncTag(r.num, WireType(r.payload));
    var tail := Encode(r)[|head|..] + after;
    assert b == head + tail;
    TagRoundTrip(r.num, WireType(r.payload), tail);
    assert b[|Encode(r)|..] == after;
  }

  /** Puts records in front of the outcome of reading what follows them. */
  function Prepend(rs: seq<Record>, r: Option<seq<Record>>): Option<seq<Record>> {
    match r case None => None case Some(ss) => Some(rs + ss)
  }

  lemma PrependCons(rs: seq<Record>, r: Option<seq<Record>>)
    requires rs != []
    ensures Prepend([rs[0]], Prepend(rs[1..], r)) == Prepend(rs, r)
  {
    if r.Some? {
      assert [rs[0]] + (rs[1..] + r.value) == rs + r.value;
    }
  }

  lemma PrependTwice(rs: seq<Record>, ss: seq<Record>, r: Option<seq<Record>>)
    ensures Prepend(rs, Prepend(ss, r)) == Prepend(rs + ss, r)
  {
    if r.Some? {
      assert rs + (ss + r.value) == rs + ss + r.value;
    }
  }

  /** Sequences of records: encoding then reading is the identity, up to what follows. */
  lemma {:induction false} AllRoundTrip(rs: seq<Record>, rest: Bytes)
    requires ValidRecords(rs)
    ensures ReadAll(EncodeAll(rs) + rest) == Prepend(rs, ReadAll(rest))
    decreases |rs|
  {
    if rs == [] {
      assert EncodeAll(rs) + rest == rest;
      assert ReadAll(rest).Some? ==> rs + ReadAll(rest).value == ReadAll(rest).value;
    } else {
      var tail := EncodeAll(rs[1..]) + rest;
      assert EncodeAll(rs) + rest == Encode(rs[0]) + tail;
      hide ReadAll, ReadRecord;
      AllRoundTrip(rs[1..], rest);
      AllStep(rs[0], tail);
      PrependCons(rs, ReadAll(rest));
    }
  }

  lemma AllStep(r: Record, tail: Bytes)
    requires ValidRecord(r)
    ensures ReadAll(Encode(r) + tail) == Prepend([r], ReadAll(tail))
  {
    hide ReadRecord;
    RecordRoundTrip(r, tail);
    assert (Encode(r) + tail)[|Encode(r)|..] == tail;
  }

  lemma {:induction false} EncodeAllAppend(rs: seq<Record>, ss: seq<Record>)
    ensures EncodeAll(rs + ss) == EncodeAll(rs) + EncodeAll(ss)
    decreases |rs|
  {
    if rs == [] {
      assert rs + ss == ss;
    } else {
      assert (rs + ss)[1..] == rs[1..] + ss;
      EncodeAllAppend(rs[1..], ss);
    }
  }

  // ---------------------------------------------------------------- reading is local and yields valid records

  lemma TagIsLocal(b: Bytes, rest: Bytes)
    requires ReadTag(b).Some?
    ensures ReadTag(b + rest) == ReadTag(b)
  {
    hide ReadVarint;
    VarintIsLocal(b, rest, 5);
  }

  lemma SliceOfAppend(b: Bytes, rest: Bytes, lo: nat, hi: nat)
    requires lo <= hi <= |b|
    ensures (b + rest)[lo..hi] == b[lo..hi]
  {
  }

  lemma ScalarIsLocal(wireType: nat, b: Bytes, rest: Bytes)
    requires ReadScalar(wireType, b).Some?
    ensures ReadScalar(wireType, b + rest) == ReadScalar(wireType, b)
  {
    hide ReadVarint;
    match wireType
    case 0 => VarintIsLocal(b, rest, 10);
    case 1 => assert (b + rest)[..8] == b[..8];
    case 2 =>
      VarintIsLocal(b, rest, 5);
      var (len, n) := ReadSize(b).value;
      SliceOfAppend(b, rest, n, n + len);
    case 5 => assert (b + rest)[..4] == b[..4];
    case _ =>
  }

  lemma {:induction false} RecordIsLocal(b: Bytes, rest: Bytes)
    requires ReadRecord(b).Some?
    ensures ReadRecord(b + rest) == ReadRecord(b)
    decreases |b|, 1
  {
    hide ReadTag, ReadScalar, ReadGroup;
    TagIsLocal(b, rest);
    var Tag(num, wireType, n) := ReadTag(b).value;
    assert (b + rest)[n..] == b[n..] + rest;
    if wireType == 3 {
      GroupIsLocal(num, b[n..], rest);
    } else {
      ScalarIsLocal(wireType, b[n..], rest);
    }
  }

  lemma {:induction false} GroupIsLocal(num: nat, b: Bytes, rest: Bytes)
    requires ReadGroup(num, b).Some?
    ensures ReadGroup(num, b + rest) == ReadGroup(num, b)
    decreases |b|, 2
  {
    hide ReadTag, ReadScalar, ReadRecord;
    TagIsLocal(b, rest);
    if !(ReadTag(b).value.num == num && ReadTag(b).value.wireType == 4) {
      RecordIsLocal(b, rest);
      var m := ReadRecord(b).value.1;
      assert (b + rest)[m..] == b[m..] + rest;
      GroupIsLocal(num, b[m..], rest);
    }
  }

  lemma NothingFirst(b: Bytes)
    ensures ReadAll([] + b) == Prepend([], ReadAll(b))
  {
    assert [] + b == b;
    if ReadAll(b).Some? { assert [] + ReadAll(b).value == ReadAll(b).value; }
    hide ReadRecord;
  }

  /** The first record of a concatenation is that of its first part. */
  lemma FirstOfBoth(a: Bytes, b: Bytes)
    requires a != [] && ReadRecord(a).Some?
    ensures ReadAll(a + b) == Prepend([ReadRecord(a).value.0], ReadAll(a[ReadRecord(a).value.1..] + b))
  {
    ReadAllUnfold(a + b);
    RecordIsLocal(a, b);
    assert (a + b)[ReadRecord(a).value.1..] == a[ReadRecord(a).value.1..] + b;
    hide *;
  }

  /** The records of a concatenation are the records of its parts, even for encodings the
      writer would not have chosen. */
  lemma {:induction false} ReadAllAppend(a: Bytes, b: Bytes)
    requires ReadAll(a).Some?
    ensures ReadAll(a + b) == Prepend(ReadAll(a).value, ReadAll(b))
    decreases |a|
  {
    if a == [] {
      NothingFirst(b);
      hide ReadRecord;
    } else {
      hide ReadRecord;
      ReadAllUnfold(a);
      FirstOfBoth(a, b);
      hide ReadAll;
      var (r, n) := ReadRecord(a).value;
      ReadAllAppend(a[n..], b);
      PrependTwice([r], ReadAll(a[n..]).value, ReadAll(b));
    }
  }

  lemma {:induction false} ReadIsValid(b: Bytes)
    requires ReadRecord(b).Some?
    ensures ValidRecord(ReadRecord(b).value.0)
    decreases |b|, 1
  {
    var Tag(num, wireType, n) := ReadTag(b).value;
    if wireType == 3 {
      GroupIsValid(num, b[n..]);
    }
  }

  lemma {:induction false} GroupIsValid(num: nat, b: Bytes)
    requires ReadGroup(num, b).Some?
    ensures ValidRecords(ReadGroup(num, b).value.0)
    decreases |b|, 2
  {
    hide ReadTag, ReadScalar, ReadRecord;
    if !(ReadTag(b).value.num == num && ReadTag(b).value.wireType == 4) {
      ReadIsValid(b);
      GroupIsValid(num, b[ReadRecord(b).value.1..]);
    }
  }

  lemma {:induction false} ReadAllIsValid(b: Bytes)
    requires ReadAll(b).Some?
    ensures ValidRecords(ReadAll(b).value)
    decreases |b|
  {
    hide ReadRecord;
    if b != [] {
      ReadIsValid(b);
      ReadAllIsValid(b[ReadRecord(b).value.1..]);
    }
  }
}
