/**
 The keys in the shared-memory table against those in the database: what every run of interleaved
 handlers keeps, exactly when a slot and its row have the same keys, and a run in which they differ.
 */
module KeyCache {
  import opened Bytes
  import opened SlotTable
  import opened SqlText
  import opened KeyServer

  /** The keys in a node are those of the database row with its key ID. */
  predicate Agrees(st: Store, n: Node) {
    n.keyId in st.rows && n.authKey == st.rows[n.keyId].authKey && n.endeKey == st.rows[n.keyId].endeKey
  }

  /** The row has what the database made of the keys in the node. */
  predicate IssuedAs(env: Env, st: Store, n: Node) {
    && n.keyId in st.rows
    && st.rows[n.keyId].authKey == Column(env, n.authKey) && st.rows[n.keyId].endeKey == Column(env, n.endeKey)
  }

  /** A node was issued with its row, or has been read from it, or its row was lost. */
  predicate Related(env: Env, st: Store, n: Node) { n.keyId in st.lost || Agrees(st, n) || IssuedAs(env, st, n) }

  /** Both keys are stored as they are. */
  predicate Kept(env: Env, n: Node) { Column(env, n.authKey) == n.authKey && Column(env, n.endeKey) == n.endeKey }

  /** The database keeps text without quotes and backslashes, and lengthens none. */
  ghost predicate GoodStore(env: Env) {
    && (forall t :: Clean(t) ==> env.stored(t) == Some(t))
    && (forall t :: env.stored(t).Some? ==> |env.stored(t).value| <= |t|)
  }

  lemma DatabaseIsGood(env: Env)
    requires env.stored == DATABASE
    ensures GoodStore(env)
  {
    forall t | Clean(t) ensures env.stored(t) == Some(t) { CleanIsStored(t); }
  }

  /** A text is read as it was written exactly when the literal leaves it as it is. */
  lemma ColumnKeepsExactlyWhen(env: Env, t: Bytes)
    requires env.stored == DATABASE && 0 !in t
    ensures Column(env, t) == t <==> Unchanged(t)
  {
    StoredAsItIsExactlyWhen(t);
    if Literal(t).Some? && Column(env, t) == t {
      assert CString(Literal(t).value) <= Literal(t).value && |Literal(t).value| <= |t|;
    }
    hide Unchanged;
  }

  /** Both keys are stored as they are exactly when they hold no quote, and no backslash except before
      a percent sign or an underscore. */
  lemma KeptExactlyWhen(env: Env, n: Node)
    requires env.stored == DATABASE && 0 !in n.authKey && 0 !in n.endeKey
    ensures Kept(env, n) <==> Unchanged(n.authKey) && Unchanged(n.endeKey)
  {
    ColumnKeepsExactlyWhen(env, n.authKey);
    ColumnKeepsExactlyWhen(env, n.endeKey);
    hide Column, Unchanged;
  }

  /** The statement stays the insertion of a node exactly when each of its four texts can be cut into
      pieces, so that no quote stands alone and no backslash is left over. */
  lemma StorableExactlyWhen(env: Env, n: Node)
    requires env.stored == DATABASE
    ensures Storable(env, n) <==> Whole(n.client) && Whole(n.server) && Whole(n.authKey) && Whole(n.endeKey)
  {
    StaysOneLiteralExactlyWhen(n.client);
    StaysOneLiteralExactlyWhen(n.server);
    StaysOneLiteralExactlyWhen(n.authKey);
    StaysOneLiteralExactlyWhen(n.endeKey);
    hide Literal, Whole;
  }

  predicate RowsOk(st: Store) {
    && st.nextId > 0
    && (forall k :: k in st.rows ==> 0 < k < st.nextId && k !in st.lost)
    && (forall k :: k in st.lost ==> 0 < k < st.nextId)
    && (forall k :: k in st.rows ==>
          && 0 !in st.rows[k].authKey && 0 !in st.rows[k].endeKey
          && (st.rows[k].state == 0 || st.rows[k].state == 1))
  }

  predicate SlotsOk(env: Env, st: Store) {
    forall i :: 0 <= i < |st.slots| && st.slots[i] != ZERO ==> TextNode(st.slots[i]) && Related(env, st, st.slots[i])
  }

  /** The keys are C strings. */
  predicate TextNode(n: Node) { 0 !in n.authKey && 0 !in n.endeKey }

  predicate JobOk(env: Env, st: Store, job: Job) {
    match job
    case Insert(node, _) => TextNode(node)
    case Cache(node, _) => TextNode(node) && Related(env, st, node)
    case MarkSlot(req) => req.keyId in st.rows
    case StoreState(req) => req.keyId in st.rows
    case _ => true
  }

  predicate CacheInv(env: Env, s: State) {
    && RowsOk(s.store) && SlotsOk(env, s.store)
    && forall fd :: fd in s.jobs ==> JobOk(env, s.store, s.jobs[fd])
  }

  /** A write puts the node in one slot and leaves the others. */
  lemma WrittenSlots(slots: seq<Node>, node: Node)
    ensures var (slots', ok) := Write(slots, node);
            && (forall i :: 0 <= i < |slots| ==> slots'[i] == slots[i] || slots'[i] == node)
            && (!ok ==> slots' == slots)
  {
  }

  /** A marking changes one status at most. */
  lemma MarkedSlot(slots: seq<Node>, k: int)
    ensures forall i :: 0 <= i < |slots| ==>
              && Mark(slots, k, 0).0[i].(status := slots[i].status) == slots[i]
              && (Mark(slots, k, 0).0[i].status == slots[i].status || Mark(slots, k, 0).0[i].status == 0)
  {
  }

  /** Rows are only added, and only their state changes; what is lost stays so. */
  predicate Grows(st: Store, st': Store) {
    && st.lost <= st'.lost
    && forall k :: k in st.rows ==> k in st'.rows && st'.rows[k].(state := st.rows[k].state) == st.rows[k]
  }

  lemma GrowingKeepsSlots(env: Env, st: Store, st': Store)
    requires SlotsOk(env, st) && Grows(st, st') && st'.slots == st.slots
    ensures SlotsOk(env, st')
  {
  }

  lemma InsertKeepsCache(env: Env, st: Store, node: Node, luck: InsertLuck)
    requires RowsOk(st) && SlotsOk(env, st)
    ensures var st' := SaveRow(env, st, node, luck);
            && RowsOk(st') && SlotsOk(env, st') && Grows(st, st')
            && Related(env, st', node.(keyId := st.nextId, status := 1))
  {
    hide SlotsOk;
    GrowingKeepsSlots(env, st, SaveRow(env, st, node, luck));
  }

  lemma ClearKeepsCache(env: Env, st: Store, k: int)
    requires RowsOk(st) && SlotsOk(env, st)
    ensures var st' := ClearState(st, k); RowsOk(st') && SlotsOk(env, st') && Grows(st, st')
  {
    hide SlotsOk;
    GrowingKeepsSlots(env, st, ClearState(st, k));
  }

  lemma WriteKeepsCache(env: Env, st: Store, node: Node)
    requires RowsOk(st) && SlotsOk(env, st) && TextNode(node) && Related(env, st, node)
    ensures var st' := st.(slots := Write(st.slots, node).0);
            RowsOk(st') && SlotsOk(env, st') && Grows(st, st')
  {
    WrittenSlots(st.slots, node);
    hide Write;
  }

  lemma MarkKeepsCache(env: Env, st: Store, k: int)
    requires RowsOk(st) && SlotsOk(env, st)
    ensures var st' := st.(slots := Mark(st.slots, k, 0).0);
            RowsOk(st') && SlotsOk(env, st') && Grows(st, st')
  {
    MarkedSlot(st.slots, k);
    hide Mark;
  }

  lemma VerifyKeepsCache(env: Env, st: Store, fd: int, req: Request, ok: bool)
    requires RowsOk(st) && SlotsOk(env, st)
    ensures JobOk(env, st, VerifyKey(env, st, req, ok))
    ensures var (st', job') := VerifyPremaster(env, st, fd, req);
            RowsOk(st') && SlotsOk(env, st') && JobOk(env, st', job') && Grows(st, st')
  {
    GrowingKeepsSlots(env, st, VerifyPremaster(env, st, fd, req).0);
    hide SlotsOk;
  }

  lemma SavingKeepsCache(env: Env, st: Store, fd: int, node: Node, req: Request, luck: Luck)
    requires RowsOk(st) && SlotsOk(env, st) && TextNode(node)
    ensures var (st', job') := Act(env, st, fd, Insert(node, req), luck);
            RowsOk(st') && SlotsOk(env, st') && JobOk(env, st', job') && Grows(st, st')
  {
    assert Grows(st, st);
    assert SaveRow(env, st, node, LosesId) == InsertRow(env, st, node) by { UnlostIsInserted(env, st, node); }
    InsertKeepsCache(env, st, node, luck.insert);
    hide Write, RowsOk, SlotsOk, Grows, SaveRow, InsertRow, Related, Storable;
  }

  lemma ActKeepsCache(env: Env, st: Store, fd: int, job: Job, luck: Luck)
    requires RowsOk(st) && SlotsOk(env, st) && JobOk(env, st, job) && !job.Reply?
    ensures var (st', job') := Act(env, st, fd, job, luck);
            RowsOk(st') && SlotsOk(env, st') && JobOk(env, st', job') && Grows(st, st')
  {
    assert Grows(st, st);
    hide Write, Mark, RowsOk, SlotsOk, Grows, SaveRow, InsertRow, ClearState, VerifyPremaster, VerifyKey, Related,
         Storable, CString;
    match job
    case Random(req) => NoncesAreNotCached(env, st, st.nonces[fd := (req.data, luck.nonce)]);
    case Premaster(req) => VerifyKeepsCache(env, st, fd, req, true);
    case Insert(node, req) => SavingKeepsCache(env, st, fd, node, req, luck);
    case Cache(node, req) => WriteKeepsCache(env, st, node);
    case Query(req) => VerifyKeepsCache(env, st, fd, req, luck.queryOk);
    case MarkSlot(req) => MarkKeepsCache(env, st, req.keyId);
    case StoreState(req) => ClearKeepsCache(env, st, req.keyId);
  }

  lemma UnlostIsInserted(env: Env, st: Store, node: Node)
    ensures SaveRow(env, st, node, LosesId) == InsertRow(env, st, node)
  {
  }

  lemma NoncesAreNotCached(env: Env, st: Store, nonces: map<int, (Bytes, Bytes)>)
    requires RowsOk(st) && SlotsOk(env, st)
    ensures var st' := st.(nonces := nonces); RowsOk(st') && SlotsOk(env, st') && Grows(st, st')
  {
    GrowingKeepsSlots(env, st, st.(nonces := nonces));
    hide SlotsOk;
  }

  lemma JobOkGrows(env: Env, st: Store, st': Store, job: Job)
    requires JobOk(env, st, job) && Grows(st, st')
    ensures JobOk(env, st', job)
  {
  }

  lemma CacheStep(env: Env, s: State, e: Event)
    requires CacheInv(env, s)
    ensures CacheInv(env, Next(env, s, e))
  {
    hide Act;
    if Enabled(s, e) && e.Step? {
      var (st', job') := Act(env, s.store, e.fd, s.jobs[e.fd], e.luck);
      ActKeepsCache(env, s.store, e.fd, s.jobs[e.fd], e.luck);
      hide JobOk;
      forall fd | fd in s.jobs && fd != e.fd ensures JobOk(env, st', s.jobs[fd]) {
        JobOkGrows(env, s.store, st', s.jobs[fd]);
      }
    }
  }

  lemma {:induction false} CacheInEveryRun(env: Env, s: State, es: seq<Event>)
    requires CacheInv(env, s)
    ensures CacheInv(env, Run(env, s, es))
    decreases |es|
  {
    if es != [] {
      CacheStep(env, s, es[0]);
      CacheInEveryRun(env, Next(env, s, es[0]), es[1..]);
    }
  }

  /** The cache and the store after every step of every run of interleaved handlers, whatever the
      state decoding: each occupied slot has a row with its key ID exactly when the commit of its
      insertion was not lost, and that row holds its keys, or what the database made of them. So a slot
      that has a row agrees with it if its keys hold no quote, and no backslash except before a percent
      sign or an underscore. */
  lemma CacheAgreesWithStore(env: Env, maxNode: nat, es: seq<Event>, i: nat)
    requires var slots := Run(env, Init(maxNode), es).store.slots; i < |slots| && slots[i] != ZERO
    ensures var st := Run(env, Init(maxNode), es).store;
            var n := st.slots[i];
            && (n.keyId in st.rows <==> n.keyId !in st.lost)
            && (n.keyId in st.rows ==> Agrees(st, n) || IssuedAs(env, st, n))
            && (n.keyId in st.rows && env.stored == DATABASE && Unchanged(n.authKey) && Unchanged(n.endeKey) ==>
              Agrees(st, n))
  {
    CacheInEveryRun(env, Init(maxNode), es);
    var st := Run(env, Init(maxNode), es).store;
    assert SlotsOk(env, st) && RowsOk(st);
    hide Run, Column, Unchanged;
    if env.stored == DATABASE { KeptExactlyWhen(env, st.slots[i]); }
  }

  /** Whether an insertion of this step would be lost. */
  predicate Loses(e: Event) { e.Step? && e.luck.insert.LosesCommit? }

  /** Without lost commits every occupied slot has its row. */
  lemma {:induction false} DurableRunsLoseNothing(env: Env, s: State, es: seq<Event>)
    requires s.store.lost == {} && forall i :: 0 <= i < |es| ==> !Loses(es[i])
    ensures Run(env, s, es).store.lost == {}
    decreases |es|
  {
    if es != [] {
      if es[0].Step? && Enabled(s, es[0]) { ActLosesNothing(env, s.store, es[0].fd, s.jobs[es[0].fd], es[0].luck); }
      hide Act;
      DurableRunsLoseNothing(env, Next(env, s, es[0]), es[1..]);
    }
  }

  lemma ActLosesNothing(env: Env, st: Store, fd: int, job: Job, luck: Luck)
    requires !job.Reply? && !luck.insert.LosesCommit?
    ensures Act(env, st, fd, job, luck).0.lost == st.lost
  {
    hide Write, Mark, Verified, Answer, NodeOf, AuthKey, EndeKey, Storable;
  }

  /** The slot of a key just issued agrees with its row exactly when the commit was not lost and both
      keys hold no quote, and no backslash except before a percent sign or an underscore. */
  lemma IssuedSlotAgreesExactlyWhen(env: Env, st: Store, fd: int, req: Request, luck: Luck)
    requires env.stored == DATABASE && RowsOk(st)
    requires req.kind == PREKEY && Distinct(st.slots) && (CString(req.client), CString(req.server)) != ([], [])
    requires Serve(env, st, fd, req, luck).1.rv == SUCCESS
    ensures var st' := Serve(env, st, fd, req, luck).0;
            var p := (CString(req.client), CString(req.server));
            var (cn, sn) := TakeNonces(st, fd);
            var authKey := CString(cn[..if |cn| < 4 then |cn| else 4] + sn + env.dec(req.data));
            var endeKey := CString(cn + sn[..if |sn| < 4 then |sn| else 4] + env.dec(req.data));
            && Distinct(st'.slots) && p in Table(st'.slots)
            && Table(st'.slots)[p] == Node(1, st.nextId, p.0, p.1, endeKey, authKey)
            && (Agrees(st', Table(st'.slots)[p])
                <==> !luck.insert.LosesCommit? && Unchanged(authKey) && Unchanged(endeKey))
  {
    PremasterAnswers(env, st, fd, req, luck);
    var (cn, sn) := TakeNonces(st, fd);
    var authKey := cn[..if |cn| < 4 then |cn| else 4] + sn + env.dec(req.data);
    var endeKey := cn + sn[..if |sn| < 4 then |sn| else 4] + env.dec(req.data);
    var n := NodeOf(req, 1, st.nextId, authKey, endeKey);
    KeptExactlyWhen(env, n);
    assert st.nextId !in st.rows;
    hide Serve, Table, Distinct, HasZero, Column, IntToString, Unchanged, CString, RowsOk, TakeNonces;
  }

  const BACKSLASHED: Bytes := [97, BACKSLASH, 98]

  /** A backslash before a `b` is stored as a backspace. */
  lemma BackslashIsStored()
    ensures Literal([1]) == Some([1]) && Literal([]) == Some([])
    ensures Literal(BACKSLASHED + [49]) == Some([97, 8, 49])
    ensures CString([97, 8, 49]) == [97, 8, 49] && CString(BACKSLASHED + [49]) == BACKSLASHED + [49]
  {
    CleanIsStored([1]);
    assert Literal([49]) == Some([49]) by { CleanIsStored([49]); }
    assert (BACKSLASHED + [49])[1..] == [BACKSLASH, 98, 49];
    assert [BACKSLASH, 98, 49][2..] == [49];
    assert Literal([BACKSLASH, 98, 49]) == Prefixed([8], Literal([49]));
    assert [97] + ([8] + [49]) == [97, 8, 49];
    assert 0 !in [97, 8, 49] && 0 !in BACKSLASHED + [49];
  }

  /** A client whose nonce holds a backslash is issued a key that the slot and the row have differently. */
  lemma BackslashSeparates(env: Env, maxNode: nat, c: Bytes) returns (es: seq<Event>, i: nat)
    requires env.stored == DATABASE && env.dec(c) == [] && maxNode > 0
    ensures var st := Run(env, Init(maxNode), es).store;
            i < |st.slots| && st.slots[i] != ZERO && !Agrees(st, st.slots[i])
  {
    var luck := Luck([49], Works, true, true, Updates);
    var s := Init(maxNode);
    var ask := Request(RANDOMNUM, [1], [], [], BACKSLASHED, 0);
    SessionServes(env, s, 1, ask, luck);
    FinishUnfolds(env, s.store, 1, Random(ask), luck);
    var s1 := Run(env, s, Session(1, ask, luck));
    assert s1.store == s.store.(nonces := map[1 := (BACKSLASHED, [49])]);
    assert HasZero(s1.store.slots) by { assert s1.store.slots[0] == ZERO; }
    var key := BACKSLASHED + [49];
    var req := Request(PREKEY, [1], [], env.hmac(key, env.hash(c)), c, 0);
    BackslashKeyIsIssued(env, s1.store, req, luck);
    SessionServes(env, s1, 1, req, luck);
    RunAppend(env, s, Session(1, ask, luck), Session(1, req, luck));
    es := Session(1, ask, luck) + Session(1, req, luck);
    hide Run, Session, Serve, Table, Distinct;
    i := InTable(Run(env, s, es).store.slots, ([1], []));
  }

  lemma BackslashKeyIsIssued(env: Env, st: Store, req: Request, luck: Luck)
    requires env.stored == DATABASE && env.dec(req.data) == []
    requires 1 in st.nonces && st.nonces[1] == (BACKSLASHED, [49])
    requires req.kind == PREKEY && req.client == [1] && req.server == [] && luck.insert.Works? && luck.mapped
    requires req.authCode == env.hmac(BACKSLASHED + [49], env.hash(req.data))
    requires Distinct(st.slots) && HasZero(st.slots) && RowsOk(st)
    ensures var st' := Serve(env, st, 1, req, luck).0;
            && Distinct(st'.slots) && ([1], []) in Table(st'.slots) && !Agrees(st', Table(st'.slots)[([1], [])])
  {
    var key := BACKSLASHED + [49];
    BackslashIsStored();
    assert CString([1]) == [1] && CString([]) == [];
    assert BACKSLASHED[..3] + [49] + [] == key && BACKSLASHED + [49][..1] + [] == key;
    var node := NodeOf(req, 0, 0, key, key);
    assert node.authKey == key && Storable(env, node);
    StoredAsItIsExactlyWhen(key);
    hide Serve, Table, Distinct, HasZero, Column, Storable, Literal, CString, AuthKey, EndeKey, Unchanged, RowsOk;
    PremasterAnswers(env, st, 1, req, luck);
    IssuedSlotAgreesExactlyWhen(env, st, 1, req, luck);
  }
}
