/**
 SecKeyShm: a fixed array of nodes in shared memory, used as a table keyed by (client, server).
 The spec functions say what one call does to the slots; `Table` is the map the slots stand for.
 */
module SlotTable {
  import opened Bytes

  datatype Node = Node(status: int, keyId: int, client: Bytes, server: Bytes, endeKey: Bytes, authKey: Bytes)

  type Pair = (Bytes, Bytes)

  const ZERO: Node := Node(0, 0, [], [], [], [])

  function PairOf(n: Node): Pair { (n.client, n.server) }

  // ---------------------------------------------------------------- one call

  /** The first slot for the pair, or the number of slots. */
  function FindPair(slots: seq<Node>, p: Pair): (i: nat)
    ensures i <= |slots| && (i < |slots| ==> PairOf(slots[i]) == p)
    ensures forall k :: 0 <= k < i ==> PairOf(slots[k]) != p
  {
    if slots == [] || PairOf(slots[0]) == p then 0 else 1 + FindPair(slots[1..], p)
  }

  function FindZero(slots: seq<Node>): (i: nat)
    ensures i <= |slots| && (i < |slots| ==> slots[i] == ZERO)
    ensures forall k :: 0 <= k < i ==> slots[k] != ZERO
  {
    if slots == [] || slots[0] == ZERO then 0 else 1 + FindZero(slots[1..])
  }

  function FindKey(slots: seq<Node>, k: int): (i: nat)
    ensures i <= |slots| && (i < |slots| ==> slots[i].keyId == k)
    ensures forall j :: 0 <= j < i ==> slots[j].keyId != k
  {
    if slots == [] || slots[0].keyId == k then 0 else 1 + FindKey(slots[1..], k)
  }

  /** shmWrite: overwrite the pair's slot, or else fill the first all-zero one. */
  function Write(slots: seq<Node>, node: Node): (r: (seq<Node>, bool))
    ensures |r.0| == |slots|
  {
    var i := FindPair(slots, PairOf(node));
    if i < |slots| then (slots[i := node], true) else
    var j := FindZero(slots);
    if j < |slots| then (slots[j := node], true) else (slots, false)
  }

  function Read(slots: seq<Node>, p: Pair): Option<Node> {
    var i := FindPair(slots, p);
    if i < |slots| then Some(slots[i]) else None
  }

  /** updateStatue: the first slot with that key ID. */
  function Mark(slots: seq<Node>, k: int, state: int): (r: (seq<Node>, bool))
    ensures |r.0| == |slots|
  {
    var i := FindKey(slots, k);
    if i < |slots| then (slots[i := slots[i].(status := state)], true) else (slots, false)
  }

  /** Some slot has the pair or is unused. */
  predicate HasRoom(slots: seq<Node>, p: Pair) {
    exists i :: 0 <= i < |slots| && (PairOf(slots[i]) == p || slots[i] == ZERO)
  }

  lemma RoomIsWritable(slots: seq<Node>, node: Node)
    ensures Write(slots, node).1 <==> HasRoom(slots, PairOf(node))
  {
  }

  /** A write that finds room puts the node in the table; one that does not changes nothing. */
  lemma WrittenIsThere(slots: seq<Node>, node: Node)
    ensures if HasRoom(slots, PairOf(node)) then node in Write(slots, node).0 else Write(slots, node).0 == slots
  {
    var i := FindPair(slots, PairOf(node));
    var at := if i < |slots| then i else FindZero(slots);
    assert at < |slots| ==> Write(slots, node).0[at] == node;
  }

  // ---------------------------------------------------------------- the map the slots stand for

  /** Occupied slots have different pairs, never the pair of two empty names. */
  predicate Distinct(slots: seq<Node>) {
    && (forall i :: 0 <= i < |slots| && slots[i] != ZERO ==> PairOf(slots[i]) != ([], []))
    && (forall i, j :: 0 <= i < j < |slots| && slots[i] != ZERO && slots[j] != ZERO ==>
                         PairOf(slots[i]) != PairOf(slots[j]))
  }

  function Table(slots: seq<Node>): (m: map<Pair, Node>)
    requires Distinct(slots)
  {
    map i | 0 <= i < |slots| && slots[i] != ZERO :: PairOf(slots[i]) := slots[i]
  }

  predicate HasZero(slots: seq<Node>) { exists i :: 0 <= i < |slots| && slots[i] == ZERO }

  lemma TableAt(slots: seq<Node>, p: Pair, i: nat)
    requires Distinct(slots) && i < |slots| && slots[i] != ZERO && PairOf(slots[i]) == p
    ensures p in Table(slots) && Table(slots)[p] == slots[i]
  {
  }

  lemma InTable(slots: seq<Node>, p: Pair) returns (i: nat)
    requires Distinct(slots) && p in Table(slots)
    ensures i < |slots| && slots[i] != ZERO && PairOf(slots[i]) == p && Table(slots)[p] == slots[i]
  {
    i :| i < |slots| && slots[i] != ZERO && PairOf(slots[i]) == p;
  }

  /** Two tables agree when they agree on every pair. */
  lemma SameTable(slots: seq<Node>, m: map<Pair, Node>)
    requires Distinct(slots)
    requires forall i :: 0 <= i < |slots| && slots[i] != ZERO ==>
               PairOf(slots[i]) in m && m[PairOf(slots[i])] == slots[i]
    requires forall p :: p in m ==> exists i :: 0 <= i < |slots| && slots[i] != ZERO && PairOf(slots[i]) == p
    ensures Table(slots) == m
  {
    assert Table(slots).Keys == m.Keys;
  }

  /** shmRead finds what the table holds; the only exception is the pair of two empty names, which
      matches an unused slot. */
  lemma ReadRefines(slots: seq<Node>, p: Pair)
    requires Distinct(slots)
    ensures (Read(slots, p) == if p in Table(slots) then Some(Table(slots)[p]) else None)
            <==> !(p == ([], []) && HasZero(slots))
  {
    var i := FindPair(slots, p);
    if i < |slots| && slots[i] != ZERO { TableAt(slots, p, i); }
    if p in Table(slots) { var j := InTable(slots, p); }
  }

  /** shmWrite is an insertion: it fails exactly when the pair is absent and no slot is all zero,
      and then changes nothing; other pairs keep their nodes. */
  lemma WriteRefines(slots: seq<Node>, node: Node)
    requires Distinct(slots) && PairOf(node) != ([], [])
    ensures var (slots', ok) := Write(slots, node);
            && Distinct(slots')
            && (ok <==> PairOf(node) in Table(slots) || HasZero(slots))
            && Table(slots') == (if ok then Table(slots)[PairOf(node) := node] else Table(slots))
  {
    var p := PairOf(node);
    var (slots', ok) := Write(slots, node);
    var i := FindPair(slots, p);
    if p in Table(slots) { var k := InTable(slots, p); }
    if i < |slots| { TableAt(slots, p, i); }
    if ok {
      var at := if i < |slots| then i else FindZero(slots);
      assert slots' == slots[at := node] && node != ZERO;
      assert forall k :: 0 <= k < |slots| && k != at && slots[k] != ZERO ==> PairOf(slots[k]) != p;
      var m := Table(slots)[p := node];
      forall k | 0 <= k < |slots'| && slots'[k] != ZERO
        ensures PairOf(slots'[k]) in m && m[PairOf(slots'[k])] == slots'[k]
      {
        if k != at { TableAt(slots, PairOf(slots[k]), k); }
      }
      forall q | q in m
        ensures exists k :: 0 <= k < |slots'| && slots'[k] != ZERO && PairOf(slots'[k]) == q
      {
        if q == p {
          assert slots'[at] != ZERO;
        } else {
          var k := InTable(slots, q);
          assert slots'[k] == slots[k];
        }
      }
      SameTable(slots', m);
    }
  }

  /** The table with the status of one key changed. */
  function MarkKey(m: map<Pair, Node>, k: int, state: int): map<Pair, Node> {
    map p | p in m :: if m[p].keyId == k then m[p].(status := state) else m[p]
  }

  predicate UniqueKeys(slots: seq<Node>) {
    forall i, j :: 0 <= i < j < |slots| && slots[i] != ZERO && slots[j] != ZERO ==> slots[i].keyId != slots[j].keyId
  }

  /** What updateStatue does to every slot when key IDs are unique. */
  lemma MarkedSlots(slots: seq<Node>, k: int, state: int)
    requires Distinct(slots) && UniqueKeys(slots) && k > 0
    ensures var (slots', ok) := Mark(slots, k, state);
            && (ok <==> exists i :: 0 <= i < |slots| && slots[i] != ZERO && slots[i].keyId == k)
            && forall i :: 0 <= i < |slots| ==>
                 && (slots'[i] == ZERO <==> slots[i] == ZERO)
                 && PairOf(slots'[i]) == PairOf(slots[i])
                 && slots'[i].keyId == slots[i].keyId
                 && (slots[i] != ZERO ==>
                       slots'[i] == if slots[i].keyId == k then slots[i].(status := state) else slots[i])
  {
    var at := FindKey(slots, k);
    if at < |slots| { assert slots[at] != ZERO; }
  }

  /** updateStatue changes exactly that key's status, and says so exactly when the key is there. */
  lemma MarkRefines(slots: seq<Node>, k: int, state: int)
    requires Distinct(slots) && UniqueKeys(slots) && k > 0
    ensures var (slots', ok) := Mark(slots, k, state);
            && Distinct(slots') && UniqueKeys(slots')
            && (ok <==> exists p :: p in Table(slots) && Table(slots)[p].keyId == k)
            && Table(slots') == MarkKey(Table(slots), k, state)
  {
    MarkedIsDistinct(slots, k, state);
    MarkedSlots(slots, k, state);
    var (slots', ok) := Mark(slots, k, state);
    hide Mark, Table, MarkKey, Distinct, UniqueKeys;
    if i: nat :| i < |slots| && slots[i] != ZERO && slots[i].keyId == k { TableAt(slots, PairOf(slots[i]), i); }
    if p :| p in Table(slots) && Table(slots)[p].keyId == k { var i := InTable(slots, p); }
    MarkedTable(slots, slots', k, state);
  }

  lemma MarkedIsDistinct(slots: seq<Node>, k: int, state: int)
    requires Distinct(slots) && UniqueKeys(slots) && k > 0
    ensures Distinct(Mark(slots, k, state).0) && UniqueKeys(Mark(slots, k, state).0)
  {
    MarkedSlots(slots, k, state);
    hide Mark;
  }

  lemma MarkedTable(slots: seq<Node>, slots': seq<Node>, k: int, state: int)
    requires Distinct(slots) && Distinct(slots') && |slots'| == |slots|
    requires forall i :: 0 <= i < |slots| ==>
               && (slots'[i] == ZERO <==> slots[i] == ZERO)
               && (slots[i] != ZERO ==>
                     slots'[i] == if slots[i].keyId == k then slots[i].(status := state) else slots[i])
    ensures Table(slots') == MarkKey(Table(slots), k, state)
  {
    hide Table, Distinct;
    var m := MarkKey(Table(slots), k, state);
    forall i | 0 <= i < |slots'| && slots'[i] != ZERO
      ensures PairOf(slots'[i]) in m && m[PairOf(slots'[i])] == slots'[i]
    {
      TableAt(slots, PairOf(slots[i]), i);
    }
    forall q | q in m
      ensures exists i :: 0 <= i < |slots'| && slots'[i] != ZERO && PairOf(slots'[i]) == q
    {
      var i := InTable(slots, q);
      assert slots'[i] != ZERO && PairOf(slots'[i]) == q;
    }
    SameTable(slots', m);
  }

  // ---------------------------------------------------------------- runs: a bounded map

  datatype Op = WriteOp(node: Node) | ReadOp(p: Pair) | MarkOp(k: int, state: int)
  datatype Result = Done(ok: bool) | Got(node: Option<Node>)

  function OnSlots(slots: seq<Node>, op: Op): (seq<Node>, Result) {
    match op
    case WriteOp(node) => var (s, ok) := Write(slots, node); (s, Done(ok))
    case ReadOp(p) => (slots, Got(Read(slots, p)))
    case MarkOp(k, state) => var (s, ok) := Mark(slots, k, state); (s, Done(ok))
  }

  /** The same operation on a map that holds at most `cap` pairs. */
  function OnMap(cap: nat, m: map<Pair, Node>, op: Op): (map<Pair, Node>, Result) {
    match op
    case WriteOp(node) =>
      if PairOf(node) in m || |m| < cap then (m[PairOf(node) := node], Done(true)) else (m, Done(false))
    case ReadOp(p) => (m, Got(if p in m then Some(m[p]) else None))
    case MarkOp(k, state) => (MarkKey(m, k, state), Done(exists p :: p in m && m[p].keyId == k))
  }

  function RunSlots(slots: seq<Node>, ops: seq<Op>): (seq<Node>, seq<Result>)
    decreases |ops|
  {
    if ops == [] then (slots, []) else
    var (s, r) := OnSlots(slots, ops[0]);
    var (s', rs) := RunSlots(s, ops[1..]);
    (s', [r] + rs)
  }

  function RunMap(cap: nat, m: map<Pair, Node>, ops: seq<Op>): (map<Pair, Node>, seq<Result>)
    decreases |ops|
  {
    if ops == [] then (m, []) else
    var (m1, r) := OnMap(cap, m, ops[0]);
    var (m', rs) := RunMap(cap, m1, ops[1..]);
    (m', [r] + rs)
  }

  /** Pairs are not both empty, and a key that is marked has a positive ID. */
  predicate Proper(op: Op) {
    match op
    case WriteOp(n) => PairOf(n) != ([], [])
    case ReadOp(p) => p != ([], [])
    case MarkOp(k, _) => k > 0
  }

  /** A key ID is positive and only written with its own pair. */
  predicate OwnWrite(owner: map<int, Pair>, op: Op) {
    op.WriteOp? ==> op.node.keyId > 0 && op.node.keyId in owner && owner[op.node.keyId] == PairOf(op.node)
  }

  /** If anything is marked, key IDs have owners. */
  predicate Orderly(owner: map<int, Pair>, ops: seq<Op>) {
    && (forall i :: 0 <= i < |ops| ==> Proper(ops[i]))
    && ((exists i :: 0 <= i < |ops| && ops[i].MarkOp?) ==> forall i :: 0 <= i < |ops| ==> OwnWrite(owner, ops[i]))
  }

  predicate Owned(owner: map<int, Pair>, slots: seq<Node>) {
    && Distinct(slots)
    && forall i :: 0 <= i < |slots| && slots[i] != ZERO ==>
      slots[i].keyId in owner && owner[slots[i].keyId] == PairOf(slots[i])
  }

  /** As many pairs as occupied slots. */
  lemma {:induction false} TableSize(slots: seq<Node>)
    requires Distinct(slots)
    ensures |Table(slots)| <= |slots|
    ensures |Table(slots)| < |slots| <==> HasZero(slots)
    decreases |slots|
  {
    if slots != [] {
      var n := |slots| - 1;
      var most := slots[..n];
      assert forall i :: 0 <= i < n ==> most[i] == slots[i];
      TableSize(most);
      hide Table;
      if slots[n] == ZERO {
        assert Table(slots) == Table(most) by { SameTableSub(slots, most); }
        assert HasZero(slots);
      } else {
        var p := PairOf(slots[n]);
        TableAt(slots, p, n);
        assert p !in Table(most) by { if p in Table(most) { var i := InTable(most, p); } }
        SameTableAdd(slots, most, p);
        assert HasZero(slots) <==> HasZero(most) by { ZeroBelow(slots, n); }
      }
    }
  }

  lemma SameTableSub(slots: seq<Node>, most: seq<Node>)
    requires Distinct(slots) && Distinct(most) && slots != [] && most == slots[..|slots| - 1]
             && slots[|slots| - 1] == ZERO
    ensures Table(slots) == Table(most)
  {
    forall i | 0 <= i < |slots| && slots[i] != ZERO
      ensures PairOf(slots[i]) in Table(most) && Table(most)[PairOf(slots[i])] == slots[i]
    {
      assert most[i] == slots[i];
      TableAt(most, PairOf(most[i]), i);
    }
    forall p | p in Table(most) ensures exists i :: 0 <= i < |slots| && slots[i] != ZERO && PairOf(slots[i]) == p {
      var i := InTable(most, p);
      assert slots[i] == most[i];
    }
    SameTable(slots, Table(most));
  }

  lemma SameTableAdd(slots: seq<Node>, most: seq<Node>, p: Pair)
    requires Distinct(slots) && Distinct(most) && slots != [] && most == slots[..|slots| - 1]
    requires slots[|slots| - 1] != ZERO && PairOf(slots[|slots| - 1]) == p && p !in Table(most)
    ensures Table(slots) == Table(most)[p := slots[|slots| - 1]]
  {
    var m := Table(most)[p := slots[|slots| - 1]];
    forall i | 0 <= i < |slots| && slots[i] != ZERO
      ensures PairOf(slots[i]) in m && m[PairOf(slots[i])] == slots[i]
    {
      if i < |most| {
        assert most[i] == slots[i];
        TableAt(most, PairOf(most[i]), i);
      }
    }
    forall q | q in m ensures exists i :: 0 <= i < |slots| && slots[i] != ZERO && PairOf(slots[i]) == q {
      if q == p {
        assert slots[|slots| - 1] != ZERO;
      } else {
        var i := InTable(most, q);
        assert slots[i] == most[i];
      }
    }
    SameTable(slots, m);
  }

  lemma ZeroBelow(slots: seq<Node>, n: nat)
    requires n + 1 == |slots| && slots[n] != ZERO
    ensures HasZero(slots) <==> HasZero(slots[..n])
  {
    if HasZero(slots) {
      var z :| 0 <= z < |slots| && slots[z] == ZERO;
      assert slots[..n][z] == ZERO;
    }
  }

  lemma OwnedIsUnique(owner: map<int, Pair>, slots: seq<Node>)
    requires Owned(owner, slots)
    ensures UniqueKeys(slots)
  {
  }

  lemma WriteIsOwned(owner: map<int, Pair>, slots: seq<Node>, node: Node)
    requires Owned(owner, slots) && Proper(WriteOp(node)) && OwnWrite(owner, WriteOp(node))
    ensures Owned(owner, Write(slots, node).0)
  {
    WriteRefines(slots, node);
  }

  lemma MarkIsOwned(owner: map<int, Pair>, slots: seq<Node>, k: int, state: int)
    requires Owned(owner, slots) && k > 0
    ensures Owned(owner, Mark(slots, k, state).0)
  {
    OwnedIsUnique(owner, slots);
    MarkRefines(slots, k, state);
    MarkedSlots(slots, k, state);
    hide Mark;
  }

  lemma OpRefines(owner: map<int, Pair>, slots: seq<Node>, op: Op)
    requires Owned(owner, slots) && Proper(op) && OwnWrite(owner, op)
    ensures var (slots', r) := OnSlots(slots, op);
            Owned(owner, slots') && |slots'| == |slots| && OnMap(|slots|, Table(slots), op) == (Table(slots'), r)
  {
    OwnedIsUnique(owner, slots);
    hide Write, Read, Mark, Table, MarkKey, UniqueKeys;
    match op
    case WriteOp(node) =>
      WriteIsOwned(owner, slots, node);
      WriteRefines(slots, node);
      TableSize(slots);
    case ReadOp(p) => ReadRefines(slots, p);
    case MarkOp(k, state) =>
      MarkIsOwned(owner, slots, k, state);
      MarkRefines(slots, k, state);
  }

  /** The slot table refines a bounded map: from all zeros, every sequence of operations gives the
      same answers as on a map of at most that many pairs, and ends standing for that map. */
  lemma {:induction false} RunRefines(owner: map<int, Pair>, slots: seq<Node>, ops: seq<Op>)
    requires Owned(owner, slots) && forall i :: 0 <= i < |ops| ==> Proper(ops[i]) && OwnWrite(owner, ops[i])
    ensures var (slots', rs) := RunSlots(slots, ops);
            Owned(owner, slots') && RunMap(|slots|, Table(slots), ops) == (Table(slots'), rs)
    decreases |ops|
  {
    if ops != [] {
      hide OnSlots, OnMap, Owned, Proper, OwnWrite;
      OpRefines(owner, slots, ops[0]);
      OwnedIsDistinct(owner, OnSlots(slots, ops[0]).0);
      RunRefines(owner, OnSlots(slots, ops[0]).0, ops[1..]);
    }
  }

  lemma OwnedIsDistinct(owner: map<int, Pair>, slots: seq<Node>)
    requires Owned(owner, slots)
    ensures Distinct(slots)
  {
  }

  lemma UnmarkedOpRefines(slots: seq<Node>, op: Op)
    requires Distinct(slots) && Proper(op) && !op.MarkOp?
    ensures var (slots', r) := OnSlots(slots, op);
            Distinct(slots') && |slots'| == |slots| && OnMap(|slots|, Table(slots), op) == (Table(slots'), r)
  {
    hide Write, Read, Table, Distinct;
    match op
    case WriteOp(node) =>
      WriteRefines(slots, node);
      TableSize(slots);
    case ReadOp(p) => ReadRefines(slots, p);
  }

  /** Without markings, key IDs may be written with any pair. */
  lemma {:induction false} UnmarkedRunRefines(slots: seq<Node>, ops: seq<Op>)
    requires Distinct(slots) && forall i :: 0 <= i < |ops| ==> Proper(ops[i]) && !ops[i].MarkOp?
    ensures var (slots', rs) := RunSlots(slots, ops);
            Distinct(slots') && RunMap(|slots|, Table(slots), ops) == (Table(slots'), rs)
    decreases |ops|
  {
    if ops != [] {
      hide OnSlots, OnMap, Distinct, Proper;
      UnmarkedOpRefines(slots, ops[0]);
      UnmarkedRunRefines(OnSlots(slots, ops[0]).0, ops[1..]);
    }
  }

  /** From all zeros, every orderly sequence of operations answers as a bounded map does. */
  lemma ZeroedTableIsAMap(owner: map<int, Pair>, n: nat, ops: seq<Op>)
    requires Orderly(owner, ops)
    ensures var zeroed := seq(n, i => ZERO);
            var (slots', rs) := RunSlots(zeroed, ops);
            Distinct(slots') && RunMap(n, map[], ops) == (Table(slots'), rs)
  {
    var zeroed := seq(n, i => ZERO);
    assert Table(zeroed) == map[] by { SameTable(zeroed, map[]); }
    if exists i :: 0 <= i < |ops| && ops[i].MarkOp? {
      RunRefines(owner, zeroed, ops);
      OwnedIsDistinct(owner, RunSlots(zeroed, ops).0);
    } else {
      UnmarkedRunRefines(zeroed, ops);
    }
  }

  // ---------------------------------------------------------------- the table object

  class SecKeyShm {
    const slots: array<Node>

    constructor (maxNode: nat)
      ensures fresh(slots) && slots[..] == seq(maxNode, i => ZERO)
    {
      slots := new Node[maxNode](_ => ZERO);
    }

    /** `mapped` says whether the shared memory could be attached. */
    method ShmWrite(node: Node, mapped: bool) returns (ret: int)
      modifies slots
      ensures !mapped ==> ret == -1 && slots[..] == old(slots[..])
      ensures mapped ==> var (s, ok) := Write(old(slots[..]), node);
                         slots[..] == s && ret == if ok then 0 else -1
      ensures ret == 0 ==> node in slots[..]
      // into the first slot of these names, or else into the first one that is all zero
      ensures ret == 0 ==>
                exists i :: && 0 <= i < slots.Length && slots[..] == old(slots[..])[i := node]
                            && if (old(slots[i]).client, old(slots[i]).server) == (node.client, node.server)
                               then forall k :: 0 <= k < i ==>
                                      (slots[k].client, slots[k].server) != (node.client, node.server)
                               else old(slots[i]) == Node(0, 0, [], [], [], [])
                                    && forall k :: 0 <= k < slots.Length && k != i ==>
                                         && (slots[k].client, slots[k].server) != (node.client, node.server)
                                         && (k < i ==> slots[k] != Node(0, 0, [], [], [], []))
      ensures ret == -1 && mapped ==>
                && slots[..] == old(slots[..])
                && forall k :: 0 <= k < slots.Length ==>
                     && slots[k] != Node(0, 0, [], [], [], [])
                     && (slots[k].client, slots[k].server) != (node.client, node.server)
    {
      if !mapped { return -1; }
      var i := 0;
      while i < slots.Length
        invariant i <= slots.Length
        invariant forall k :: 0 <= k < i ==> PairOf(slots[k]) != PairOf(node)
      {
        if slots[i].client == node.client && slots[i].server == node.server {
          slots[i] := node;
          return 0;
        }
        i := i + 1;
      }
      ret := -1;
      i := 0;
      while i < slots.Length
        invariant i <= slots.Length
        invariant forall k :: 0 <= k < i ==> slots[k] != ZERO
      {
        if slots[i] == ZERO {
          slots[i] := node;
          return 0;
        }
        i := i + 1;
      }
    }

    method ShmRead(p: Pair, mapped: bool) returns (ret: int, node: Node)
      ensures !mapped ==> ret == -1
      ensures mapped ==> match Read(slots[..], p)
                         case Some(n) => ret == 0 && node == n
                         case None => ret == -1
      ensures ret == 0 ==> exists i :: 0 <= i < slots.Length && node == slots[i]
                                       && (node.client, node.server) == p
                                       && forall k :: 0 <= k < i ==> (slots[k].client, slots[k].server) != p
      ensures ret != 0 && mapped ==> forall k :: 0 <= k < slots.Length ==> (slots[k].client, slots[k].server) != p
    {
      node := ZERO;
      if !mapped { return -1, node; }
      var i := 0;
      while i < slots.Length
        invariant i <= slots.Length
        invariant forall k :: 0 <= k < i ==> PairOf(slots[k]) != p
      {
        if slots[i].client == p.0 && slots[i].server == p.1 {
          return 0, slots[i];
        }
        i := i + 1;
      }
      ret := -1;
    }

    method UpdateStatue(keyId: int, state: int, mapped: bool) returns (ret: int)
      modifies slots
      ensures !mapped ==> ret == -1 && slots[..] == old(slots[..])
      ensures mapped ==> var (s, ok) := Mark(old(slots[..]), keyId, state);
                         slots[..] == s && ret == if ok then 1 else -1
      ensures ret == 1 ==> exists i :: && 0 <= i < slots.Length && old(slots[i]).keyId == keyId
                                       && slots[..] == old(slots[..])[i := old(slots[i]).(status := state)]
                                       && forall k :: 0 <= k < i ==> slots[k].keyId != keyId
      ensures ret == -1 && mapped ==>
                slots[..] == old(slots[..]) && forall k :: 0 <= k < slots.Length ==> slots[k].keyId != keyId
    {
      if !mapped { return -1; }
      var i := 0;
      while i < slots.Length
        invariant i <= slots.Length
        invariant forall k :: 0 <= k < i ==> slots[k].keyId != keyId
      {
        if slots[i].keyId == keyId {
          slots[i] := slots[i].(status := state);
          return 1;
        }
        i := i + 1;
      }
      ret := -1;
    }
  }
}
