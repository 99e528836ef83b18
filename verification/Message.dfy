/**
 What a generated message class means: a value for each field of a schema, and the records it
 did not recognise. Fields are numbered from 1; a varint field holds an int32 (or an enum,
 which is stored as one), the others hold octet strings.
 */
module Message {
  import opened Bytes
  import opened Wire

  datatype Kind = IntField | BytesField
  type Schema = seq<Kind>

  datatype Value = IntV(n: int) | BytesV(b: Bytes)
  datatype Msg = Msg(vals: seq<Value>, unknown: seq<Record>)

  function Default(k: Kind): Value { if k == IntField then IntV(0) else BytesV([]) }

  predicate IsDefault(v: Value) { v == IntV(0) || v == BytesV([]) }

  predicate ValidValue(k: Kind, v: Value) {
    match v
    case IntV(n) => k == IntField && IsInt32(n)
    case BytesV(b) => k == BytesField && |b| < TWO31
  }

  /** The record is one the parse loop stores in a field: right number, right wire type. */
  predicate Known(sc: Schema, r: Record) {
    1 <= r.num <= |sc| && if sc[r.num - 1] == IntField then r.payload.VarintP? else r.payload.LenP?
  }

  predicate ValidMsg(sc: Schema, m: Msg) {
    && |sc| < 0x1000_0000
    && |m.vals| == |sc|
    && (forall i :: 0 <= i < |sc| ==> ValidValue(sc[i], m.vals[i]))
    && ValidRecords(m.unknown)
    && (forall i :: 0 <= i < |m.unknown| ==> !Known(sc, m.unknown[i]))
  }

  function Empty(sc: Schema): Msg { Msg(seq(|sc|, i requires 0 <= i < |sc| => Default(sc[i])), []) }

  // ---------------------------------------------------------------- printing

  function RecordOf(num: nat, v: Value): Record
    requires v.IntV? ==> IsInt32(v.n)
  {
    match v
    case IntV(n) => Record(num, VarintP(SignExtend64(n)))
    case BytesV(b) => Record(num, LenP(b))
  }

  /** The records of the fields numbered above `from`, defaults skipped, lowest number first. */
  function FieldRecords(sc: Schema, vals: seq<Value>, from: nat): seq<Record>
    requires |vals| == |sc| && forall i :: 0 <= i < |sc| ==> ValidValue(sc[i], vals[i])
    decreases |sc| - from
  {
    if from >= |sc| then []
    else
      assert ValidValue(sc[from], vals[from]);
      (if IsDefault(vals[from]) then [] else [RecordOf(from + 1, vals[from])]) +
      FieldRecords(sc, vals, from + 1)
  }

  function Records(sc: Schema, m: Msg): seq<Record>
    requires ValidMsg(sc, m)
  {
    FieldRecords(sc, m.vals, 0) + m.unknown
  }

  function Serialize(sc: Schema, m: Msg): Bytes
    requires ValidMsg(sc, m)
  {
    EncodeAll(Records(sc, m))
  }

  // ---------------------------------------------------------------- parsing and merging

  function ValueOf(p: Payload): Value {
    match p
    case VarintP(u) => IntV(ToInt32(u))
    case LenP(b) => BytesV(b)
    case _ => BytesV([])
  }

  /** One turn of the parse loop. */
  function Apply(sc: Schema, m: Msg, r: Record): Msg
    requires |m.vals| == |sc|
  {
    if Known(sc, r) then m.(vals := m.vals[r.num - 1 := ValueOf(r.payload)])
    else m.(unknown := m.unknown + [r])
  }

  function ApplyAll(sc: Schema, m: Msg, rs: seq<Record>): (m': Msg)
    requires |m.vals| == |sc|
    ensures |m'.vals| == |sc|
    decreases |rs|
  {
    if rs == [] then m else ApplyAll(sc, Apply(sc, m, rs[0]), rs[1..])
  }

  function Parse(sc: Schema, b: Bytes): Option<Msg> {
    match ReadAll(b)
    case None => None
    case Some(rs) => Some(ApplyAll(sc, Empty(sc), rs))
  }

  function Merge(a: Msg, b: Msg): Msg
    requires |a.vals| == |b.vals|
  {
    Msg(seq(|a.vals|, i requires 0 <= i < |a.vals| => if IsDefault(b.vals[i]) then a.vals[i] else b.vals[i]),
        a.unknown + b.unknown)
  }

  lemma {:induction false} ApplyAllAppend(sc: Schema, m: Msg, rs: seq<Record>, ss: seq<Record>)
    requires |m.vals| == |sc|
    ensures ApplyAll(sc, m, rs + ss) == ApplyAll(sc, ApplyAll(sc, m, rs), ss)
    decreases |rs|
  {
    if rs == [] {
      assert rs + ss == ss;
    } else {
      assert (rs + ss)[1..] == rs[1..] + ss;
      ApplyAllAppend(sc, Apply(sc, m, rs[0]), rs[1..], ss);
    }
  }

  /** Unknown records are kept, in order, and touch nothing else. */
  lemma {:induction false} ApplyUnknown(sc: Schema, m: Msg, us: seq<Record>)
    requires |m.vals| == |sc| && forall i :: 0 <= i < |us| ==> !Known(sc, us[i])
    ensures ApplyAll(sc, m, us) == m.(unknown := m.unknown + us)
    decreases |us|
  {
    if us == [] {
      assert m.unknown + us == m.unknown;
    } else {
      ApplyUnknown(sc, Apply(sc, m, us[0]), us[1..]);
      assert m.unknown + [us[0]] + us[1..] == m.unknown + us;
    }
  }

  /** The fields below `from` come from a, the others from the merge. */
  function MergedFrom(a: seq<Value>, b: seq<Value>, from: nat): seq<Value>
    requires |a| == |b|
  {
    seq(|a|, i requires 0 <= i < |a| => if i < from || IsDefault(b[i]) then a[i] else b[i])
  }

  lemma {:induction false} ApplyFields(sc: Schema, m: Msg, vals: seq<Value>, from: nat)
    requires |m.vals| == |vals| == |sc| < 0x1000_0000
    requires forall i :: 0 <= i < |sc| ==> ValidValue(sc[i], vals[i])
    ensures ApplyAll(sc, m, FieldRecords(sc, vals, from)) == m.(vals := MergedFrom(m.vals, vals, from))
    decreases |sc| - from
  {
    if from >= |sc| {
      assert MergedFrom(m.vals, vals, from) == m.vals;
    } else if IsDefault(vals[from]) {
      assert FieldRecords(sc, vals, from) == FieldRecords(sc, vals, from + 1);
      ApplyFields(sc, m, vals, from + 1);
      assert MergedFrom(m.vals, vals, from) == MergedFrom(m.vals, vals, from + 1);
    } else {
      var r := RecordOf(from + 1, vals[from]);
      var m' := Apply(sc, m, r);
      assert ValidValue(sc[from], vals[from]);
      if vals[from].IntV? { SignExtendRoundTrip(vals[from].n); }
      assert m'.vals == m.vals[from := vals[from]];
      ApplyFields(sc, m', vals, from + 1);
      assert FieldRecords(sc, vals, from) == [r] + FieldRecords(sc, vals, from + 1);
      assert MergedFrom(m.vals, vals, from) == MergedFrom(m'.vals, vals, from + 1);
    }
  }

  /** Applying the records of b to any message merges b into it. */
  lemma ApplyIsMerge(sc: Schema, m: Msg, b: Msg)
    requires |m.vals| == |sc| && ValidMsg(sc, b)
    ensures ApplyAll(sc, m, Records(sc, b)) == Merge(m, b)
  {
    ApplyAllAppend(sc, m, FieldRecords(sc, b.vals, 0), b.unknown);
    ApplyFields(sc, m, b.vals, 0);
    ApplyUnknown(sc, m.(vals := MergedFrom(m.vals, b.vals, 0)), b.unknown);
    assert MergedFrom(m.vals, b.vals, 0) == Merge(m, b).vals;
  }

  lemma MergeIntoEmpty(sc: Schema, a: Msg)
    requires ValidMsg(sc, a)
    ensures Merge(Empty(sc), a) == a
  {
    forall i | 0 <= i < |sc| ensures Merge(Empty(sc), a).vals[i] == a.vals[i] {
      assert ValidValue(sc[i], a.vals[i]);
    }
    assert Merge(Empty(sc), a).vals == a.vals;
    assert [] + a.unknown == a.unknown;
  }

  lemma {:induction false} FieldRecordsAreValid(sc: Schema, vals: seq<Value>, from: nat)
    requires |vals| == |sc| < 0x1000_0000 && forall i :: 0 <= i < |sc| ==> ValidValue(sc[i], vals[i])
    ensures ValidRecords(FieldRecords(sc, vals, from))
    decreases |sc| - from
  {
    if from < |sc| {
      FieldRecordsAreValid(sc, vals, from + 1);
      assert ValidValue(sc[from], vals[from]);
    }
  }

  lemma RecordsAreValid(sc: Schema, m: Msg)
    requires ValidMsg(sc, m)
    ensures ValidRecords(Records(sc, m))
  {
    FieldRecordsAreValid(sc, m.vals, 0);
  }

  // ---------------------------------------------------------------- the main laws of the codec

  /** Concatenation is merge: parsing two serialized messages back to back merges them. */
  lemma ConcatenationIsMerge(sc: Schema, a: Msg, b: Msg)
    requires ValidMsg(sc, a) && ValidMsg(sc, b)
    ensures Parse(sc, Serialize(sc, a) + Serialize(sc, b)) == Some(Merge(a, b))
  {
    var (ra, rb) := (Records(sc, a), Records(sc, b));
    RecordsAreValid(sc, a);
    RecordsAreValid(sc, b);
    AllRoundTrip(rb, []);
    assert Serialize(sc, b) + [] == Serialize(sc, b) && rb + [] == rb;
    AllRoundTrip(ra, Serialize(sc, b));
    ApplyAllAppend(sc, Empty(sc), ra, rb);
    ApplyIsMerge(sc, Empty(sc), a);
    MergeIntoEmpty(sc, a);
    ApplyIsMerge(sc, a, b);
  }

  lemma RoundTrip(sc: Schema, a: Msg)
    requires ValidMsg(sc, a)
    ensures Parse(sc, Serialize(sc, a)) == Some(a)
  {
    RecordsAreValid(sc, a);
    AllRoundTrip(Records(sc, a), []);
    assert Serialize(sc, a) + [] == Serialize(sc, a) && Records(sc, a) + [] == Records(sc, a);
    ApplyIsMerge(sc, Empty(sc), a);
    MergeIntoEmpty(sc, a);
  }

  lemma SerializeIsInjective(sc: Schema, a: Msg, b: Msg)
    requires ValidMsg(sc, a) && ValidMsg(sc, b) && Serialize(sc, a) == Serialize(sc, b)
    ensures a == b
  {
    RoundTrip(sc, a);
    RoundTrip(sc, b);
  }

  // ---------------------------------------------------------------- the declarative reading

  /** The records that the loop stores in field `num`, in order; num 0 stands for the unknown ones. */
  function Selected(sc: Schema, rs: seq<Record>, num: nat): seq<Record> {
    if rs == [] then []
    else (if Class(sc, rs[0]) == num then [rs[0]] else []) + Selected(sc, rs[1..], num)
  }

  function Class(sc: Schema, r: Record): nat { if Known(sc, r) then r.num else 0 }

  /** The last one wins, and the default stands when there is none. */
  function LastValue(start: Value, rs: seq<Record>): Value {
    if rs == [] then start else ValueOf(rs[|rs| - 1].payload)
  }

  predicate Reads(sc: Schema, start: Msg, rs: seq<Record>, m: Msg)
    requires |start.vals| == |sc|
  {
    && |m.vals| == |sc|
    && (forall i :: 0 <= i < |sc| ==> m.vals[i] == LastValue(start.vals[i], Selected(sc, rs, i + 1)))
    && m.unknown == start.unknown + Selected(sc, rs, 0)
  }

  lemma LastValueStep(start: Value, x: Record, xs: seq<Record>)
    ensures LastValue(start, [x] + xs) == LastValue(ValueOf(x.payload), xs)
  {
  }

  lemma {:induction false} LoopReads(sc: Schema, m: Msg, rs: seq<Record>)
    requires |m.vals| == |sc|
    ensures Reads(sc, m, rs, ApplyAll(sc, m, rs))
    decreases |rs|
  {
    if rs == [] {
      assert m.unknown + [] == m.unknown;
    } else {
      var m1 := Apply(sc, m, rs[0]);
      var end := ApplyAll(sc, m, rs);
      LoopReads(sc, m1, rs[1..]);
      forall i | 0 <= i < |sc|
        ensures end.vals[i] == LastValue(m.vals[i], Selected(sc, rs, i + 1))
      {
        if Class(sc, rs[0]) == i + 1 {
          LastValueStep(m.vals[i], rs[0], Selected(sc, rs[1..], i + 1));
        } else {
          assert Selected(sc, rs, i + 1) == Selected(sc, rs[1..], i + 1);
        }
      }
      if Class(sc, rs[0]) == 0 {
        assert m.unknown + [rs[0]] + Selected(sc, rs[1..], 0) == m.unknown + ([rs[0]] + Selected(sc, rs[1..], 0));
      } else {
        assert Selected(sc, rs, 0) == Selected(sc, rs[1..], 0);
      }
    }
  }

  lemma ReadsIsUnique(sc: Schema, start: Msg, rs: seq<Record>, m: Msg, m': Msg)
    requires |start.vals| == |sc| && Reads(sc, start, rs, m) && Reads(sc, start, rs, m')
    ensures m == m'
  {
    assert m.vals == m'.vals;
  }

  /** The parse loop refines the declarative reading: on any octets made of well-formed
      records, the result is the one and only message that the reading allows. */
  lemma ParseRefinesReading(sc: Schema, b: Bytes, m: Msg)
    requires ReadAll(b).Some?
    ensures Parse(sc, b) == Some(m) <==> Reads(sc, Empty(sc), ReadAll(b).value, m)
  {
    var rs := ReadAll(b).value;
    LoopReads(sc, Empty(sc), rs);
    if Reads(sc, Empty(sc), rs, m) {
      ReadsIsUnique(sc, Empty(sc), rs, m, ApplyAll(sc, Empty(sc), rs));
    }
  }

  /** Reordering records in a way that keeps, for each known field and for the unknown records,
      their own order, changes nothing. */
  lemma OrderAcrossFieldsIsIrrelevant(sc: Schema, b: Bytes, c: Bytes)
    requires ReadAll(b).Some? && ReadAll(c).Some?
    requires forall num :: 0 <= num <= |sc| ==>
               Selected(sc, ReadAll(b).value, num) == Selected(sc, ReadAll(c).value, num)
    ensures Parse(sc, b) == Parse(sc, c)
  {
    var (rs, ss) := (ReadAll(b).value, ReadAll(c).value);
    LoopReads(sc, Empty(sc), rs);
    LoopReads(sc, Empty(sc), ss);
    assert Reads(sc, Empty(sc), rs, ApplyAll(sc, Empty(sc), ss));
    ReadsIsUnique(sc, Empty(sc), rs, ApplyAll(sc, Empty(sc), rs), ApplyAll(sc, Empty(sc), ss));
  }

  lemma {:induction false} SelectedAppend(sc: Schema, rs: seq<Record>, ss: seq<Record>, num: nat)
    ensures Selected(sc, rs + ss, num) == Selected(sc, rs, num) + Selected(sc, ss, num)
    decreases |rs|
  {
    if rs == [] {
      assert rs + ss == ss;
    } else {
      assert (rs + ss)[1..] == rs[1..] + ss;
      hide Known, Class;
      SelectedAppend(sc, rs[1..], ss, num);
    }
  }

  /** In particular, two well-formed parts that share no field may be swapped. */
  lemma DisjointPartsCommute(sc: Schema, b: Bytes, c: Bytes)
    requires ReadAll(b).Some? && ReadAll(c).Some?
    requires forall num :: 0 <= num <= |sc| ==>
               Selected(sc, ReadAll(b).value, num) == [] || Selected(sc, ReadAll(c).value, num) == []
    ensures Parse(sc, b + c).Some? && Parse(sc, b + c) == Parse(sc, c + b)
  {
    var (rs, ss) := (ReadAll(b).value, ReadAll(c).value);
    ReadAllAppend(b, c);
    ReadAllAppend(c, b);
    forall num | 0 <= num <= |sc|
      ensures Selected(sc, rs + ss, num) == Selected(sc, ss + rs, num)
    {
      SelectedAppend(sc, rs, ss, num);
      SelectedAppend(sc, ss, rs, num);
    }
    OrderAcrossFieldsIsIrrelevant(sc, b + c, c + b);
  }

  /** A message that was parsed is valid, and so is a merge. */
  lemma {:induction false} ApplyAllIsValid(sc: Schema, m: Msg, rs: seq<Record>)
    requires ValidMsg(sc, m) && ValidRecords(rs)
    ensures ValidMsg(sc, ApplyAll(sc, m, rs))
    decreases |rs|
  {
    if rs != [] {
      assert ValidRecord(rs[0]);
      ApplyAllIsValid(sc, Apply(sc, m, rs[0]), rs[1..]);
    }
  }

  lemma ParsedIsValid(sc: Schema, b: Bytes)
    requires |sc| < 0x1000_0000 && Parse(sc, b).Some?
    ensures ValidMsg(sc, Parse(sc, b).value)
  {
    ReadAllIsValid(b);
    ApplyAllIsValid(sc, Empty(sc), ReadAll(b).value);
  }

  lemma MergedIsValid(sc: Schema, a: Msg, b: Msg)
    requires ValidMsg(sc, a) && ValidMsg(sc, b)
    ensures ValidMsg(sc, Merge(a, b))
  {
  }
}
