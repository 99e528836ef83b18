/**
 Length-prefixed messages over a byte stream. What each system call does is read off a finite
 schedule: short reads, short writes, zero writes, EINTR, EAGAIN. When the schedule is used up,
 calls move as much as they can.
 */
module Framing {
  import opened Bytes

  datatype ReadEvent = Chunk(most: nat) | ReadIntr | ReadAgain | ReadFails
  datatype WriteEvent = Accepts(most: nat) | WriteIntr | WriteFails

  /** What a read finds when no octet is pending: the peer has closed, or there is nothing yet. */
  datatype End = Closed | NothingYet

  datatype Conn = Conn(pending: Bytes, plan: seq<ReadEvent>, end: End)

  datatype ReadResult = Data(b: Bytes) | Eof | Intr | Again | Err

  function Min(a: nat, b: nat): nat { if a < b then a else b }

  /** One call of read for at most n > 0 octets. */
  function ReadOnce(c: Conn, n: nat): (r: (ReadResult, Conn))
    requires n > 0
    ensures r.1.end == c.end && |r.1.plan| <= |c.plan|
    ensures r.0.Data? ==> 0 < |r.0.b| <= n && c.pending == r.0.b + r.1.pending
    ensures !r.0.Data? ==> r.1.pending == c.pending
    ensures r.0.Intr? ==> |r.1.plan| < |c.plan|
  {
    var rest := c.(plan := if c.plan == [] then [] else c.plan[1..]);
    if c.plan != [] && c.plan[0] == ReadIntr then (Intr, rest)
    else if c.plan != [] && c.plan[0] == ReadAgain then (Again, rest)
    else if c.plan != [] && c.plan[0] == ReadFails then (Err, rest)
    else if c.pending == [] then (if c.end == Closed then Eof else Again, rest)
    else
      var most := if c.plan != [] && c.plan[0].most > 0 then Min(c.plan[0].most, n) else n;
      var k := Min(most, |c.pending|);
      (Data(c.pending[..k]), rest.(pending := c.pending[k..]))
  }

  datatype ReadCode = Full | Short | Blocked | Failed

  /** readn: how it ends, the octets it has copied by then, and the connection after it. */
  function ReadFully(c: Conn, count: nat): (r: (ReadCode, Bytes, Conn))
    ensures c.pending == r.1 + r.2.pending && |r.1| <= count && r.2.end == c.end
    ensures r.0 == Full <==> |r.1| == count
    decreases |c.plan| + count
  {
    if count == 0 then (Full, [], c) else
    var (r, c') := ReadOnce(c, count);
    match r
    case Intr => ReadFully(c', count)
    case Again => (Blocked, [], c')
    case Err => (Failed, [], c')
    case Eof => (Short, [], c')
    case Data(b) =>
      var (code, got, c'') := ReadFully(c', count - |b|);
      (code, b + got, c'')
  }

  // ---------------------------------------------------------------- messages

  /** The longest body for which the receiver can compute the size of its buffer in an int. */
  const MAX_LENGTH: nat := 0x7fff_fffe

  /** A message that can be sent: not empty, and its length plus 4 fits an int. */
  predicate Sendable(m: Bytes): (b: bool)
    ensures b ==> |m| <= MAX_LENGTH
  {
    0 < |m| && |m| + 4 < TWO31
  }

  predicate Fit(ms: seq<Bytes>) { forall i :: 0 <= i < |ms| ==> |ms[i]| <= MAX_LENGTH }

  predicate AllSendable(ms: seq<Bytes>): (b: bool)
    ensures b ==> Fit(ms)
  {
    forall i :: 0 <= i < |ms| ==> Sendable(ms[i])
  }

  function Frame(m: Bytes): Bytes
    requires |m| <= MAX_LENGTH
  {
    BigEndian32(|m|) + m
  }

  function Frames(ms: seq<Bytes>): Bytes
    requires Fit(ms)
  {
    if ms == [] then [] else Frame(ms[0]) + Frames(ms[1..])
  }

  datatype Received =
    | Message(b: Bytes)
    | Nothing          // returns 0 with no data: the stream ended before a header
    | Garbage(n: nat)  // returns 0 with a buffer that was never filled
    | Overrun          // a buffer of no octets is asked to take all there are
    | PeerClosed | WouldBlock | Error | NoMemory | Timeout

  /** recvMsg of the client. */
  function ClientRecv(c: Conn): (Received, Conn) {
    var (code, head, c1) := ReadFully(c, 4);
    if code == Full then
      var n := FromBigEndian32(head);
      if n == TWO32 - 1 then (Overrun, c1) else if n > MAX_LENGTH then (NoMemory, c1) else
      var (code2, body, c2) := ReadFully(c1, n);
      (match code2
       case Full => Message(body)
       case Short => PeerClosed
       case _ => Error, c2)
    else if code == Short then (if head == [] then Nothing else PeerClosed, c1)
    else (Error, c1)
  }

  /** recvMsg of the server: EAGAIN is told apart, and a body that ends before its first octet is
      taken for a message. */
  function ServerRecv(c: Conn): (r: (Received, Conn))
    ensures r.1.end == c.end
    ensures r.0.Message? ==> |r.0.b| <= MAX_LENGTH && |c.pending| == 4 + |r.0.b| + |r.1.pending|
                             && c.pending == Frame(r.0.b) + r.1.pending
  {
    var (code, head, c1) := ReadFully(c, 4);
    if code == Full then
      var n := FromBigEndian32(head);
      if n == TWO32 - 1 then (Overrun, c1) else if n > MAX_LENGTH then (NoMemory, c1) else
      var (code2, body, c2) := ReadFully(c1, n);
      HeaderIsLength(head, n);
      assert code2 == Full ==> c.pending == Frame(body) + c2.pending by {
        assert head + (body + c2.pending) == head + body + c2.pending;
      }
      (match code2
       case Full => Message(body)
       case Short => if body == [] then Garbage(n) else PeerClosed
       case Blocked => WouldBlock
       case Failed => Error, c2)
    else if code == Short then (if head == [] then Nothing else PeerClosed, c1)
    else if code == Blocked then (WouldBlock, c1)
    else (Error, c1)
  }

  lemma HeaderIsLength(head: Bytes, n: nat)
    requires |head| == 4 && FromBigEndian32(head) == n
    ensures n < TWO32 && BigEndian32(n) == head
  {
    var a, b, c, d: int := head[0], head[1], head[2], head[3];
    assert n == 16777216 * a + 65536 * b + 256 * c + d;
    assert n / 16777216 == a;
    assert n / 65536 == 256 * a + b;
    assert n / 256 == 65536 * a + 256 * b + c;
    var w := BigEndian32(n);
    assert w[0] == a && w[1] == b && w[2] == c && w[3] == d;
    assert w == head;
  }

  /** Under every schedule, what either side receives is announced by the first four octets, the most
      significant first: a message is the octets after them, as many as they say, and leaves the rest; a
      length is refused only beyond what an int can hold with one octet more. */
  lemma LengthThenBody(c: Conn)
    ensures forall r, c' :: (r, c') == ServerRecv(c) || (r, c') == ClientRecv(c) ==>
              var p := c.pending;
              && (r.Message? ==>
                    var n := |r.b|;
                    && |p| >= 4 + n && r.b == p[4..4 + n] && c'.pending == p[4 + n..]
                    && 16777216 * (p[0] as int) + 65536 * (p[1] as int) + 256 * (p[2] as int) + p[3] as int == n)
              && (r.NoMemory? ==>
                    && |p| >= 4
                    && 16777216 * (p[0] as int) + 65536 * (p[1] as int) + 256 * (p[2] as int) + p[3] as int
                       > 0x7fff_fffe)
  {
    hide BigEndian32, ReadFully;
    var (code, head, c1) := ReadFully(c, 4);
    if code == Full {
      assert head == c.pending[..4] && c1.pending == c.pending[4..];
      assert forall i :: 0 <= i < 4 ==> head[i] == c.pending[i];
      var n := FromBigEndian32(head);
      if n <= MAX_LENGTH {
        var (_, body, c2) := ReadFully(c1, n);
        assert c.pending == head + (body + c2.pending);
      }
    }
  }

  // ---------------------------------------------------------------- receiving survives any chunking

  /** A schedule of short reads and interruptions only. */
  predicate Calm(plan: seq<ReadEvent>) { forall i :: 0 <= i < |plan| ==> plan[i].Chunk? || plan[i].ReadIntr? }

  lemma CalmRead(c: Conn, n: nat)
    requires Calm(c.plan) && 0 < n <= |c.pending|
    ensures var (r, c') := ReadOnce(c, n); Calm(c'.plan) && (r.Intr? || r.Data?)
  {
  }

  lemma CutBeyond(b: Bytes, rest: Bytes, k: nat)
    requires |b| <= k <= |b| + |rest|
    ensures (b + rest)[..k] == b + rest[..k - |b|] && (b + rest)[k..] == rest[k - |b|..]
  {
  }

  lemma {:induction false} ReadnIsFull(c: Conn, count: nat)
    requires Calm(c.plan) && count <= |c.pending|
    ensures var (code, got, c') := ReadFully(c, count);
            code == Full && got == c.pending[..count] && c'.pending == c.pending[count..] && Calm(c'.plan)
    decreases |c.plan| + count
  {
    if count > 0 {
      hide ReadOnce, Calm;
      CalmRead(c, count);
      var (r, c') := ReadOnce(c, count);
      if r.Intr? {
        ReadnIsFull(c', count);
      } else {
        ReadnIsFull(c', count - |r.b|);
        CutBeyond(r.b, c'.pending, count);
      }
    }
  }

  lemma HeaderOf(m: Bytes, rest: Bytes)
    requires |m| <= MAX_LENGTH
    ensures (Frame(m) + rest)[..4] == BigEndian32(|m|) && FromBigEndian32(BigEndian32(|m|)) == |m|
    ensures (Frame(m) + rest)[4..] == m + rest && |Frame(m)| == 4 + |m|
  {
    Word32RoundTrip(|m|);
  }

  /** Whatever the chunking, the message at the front of the stream is the one received, and the
      stream is left at its end. Both receivers agree. */
  lemma ReceivesFront(c: Conn, m: Bytes, rest: Bytes)
    requires Calm(c.plan) && |m| <= MAX_LENGTH && c.pending == Frame(m) + rest
    ensures ClientRecv(c) == ServerRecv(c)
    ensures var (r, c') := ClientRecv(c);
            r == Message(m) && c'.pending == rest && Calm(c'.plan) && c'.end == c.end
  {
    HeaderOf(m, rest);
    ReadnIsFull(c, 4);
    var c1 := ReadFully(c, 4).2;
    ReadnIsFull(c1, |m|);
    assert (m + rest)[..|m|] == m && (m + rest)[|m|..] == rest;
  }

  function ClientRecvMany(c: Conn, k: nat): (seq<Received>, Conn)
    decreases k
  {
    if k == 0 then ([], c) else
    var (r, c1) := ClientRecv(c);
    var (rs, c2) := ClientRecvMany(c1, k - 1);
    ([r] + rs, c2)
  }

  /** Framing survives any chunking: for every list of messages and every schedule of short reads
      and interruptions, the messages received are the ones sent, and the stream is left at a
      frame boundary. */
  lemma {:induction false} ReceivesAll(c: Conn, ms: seq<Bytes>, rest: Bytes)
    requires Calm(c.plan) && Fit(ms) && c.pending == Frames(ms) + rest
    ensures var (rs, c') := ClientRecvMany(c, |ms|);
            |rs| == |ms| && (forall i :: 0 <= i < |ms| ==> rs[i] == Message(ms[i])) && c'.pending == rest
    decreases |ms|
  {
    if ms == [] {
      assert c.pending == rest;
    } else {
      assert c.pending == Frame(ms[0]) + (Frames(ms[1..]) + rest);
      ReceivesFront(c, ms[0], Frames(ms[1..]) + rest);
      hide ClientRecv, Frame, Frames, Calm;
      ReceivesAll(ClientRecv(c).1, ms[1..], rest);
    }
  }

  /** The end of the stream inside a frame never yields a message on the client, whatever the schedule. */
  lemma TruncatedFrameIsNotAMessage(c: Conn, m: Bytes)
    requires |m| <= MAX_LENGTH && |c.pending| < |Frame(m)| && c.pending == Frame(m)[..|c.pending|]
    ensures !ClientRecv(c).0.Message? && !ClientRecv(c).0.Garbage?
    ensures ClientRecv(c).0.Nothing? ==> c.pending == []
  {
    var (code, head, c1) := ReadFully(c, 4);
    if code == Full {
      HeaderOf(m, []);
      assert Frame(m) + [] == Frame(m);
      assert head == Frame(m)[..4];
    } else if code == Short && head == [] {
      ShortMeansEmpty(c, 4);
    }
  }

  lemma {:induction false} ShortMeansEmpty(c: Conn, count: nat)
    requires ReadFully(c, count).0 == Short
    ensures ReadFully(c, count).2.pending == []
    decreases |c.plan| + count
  {
    var (r, c') := ReadOnce(c, count);
    assert r.Eof? ==> c'.pending == [];
    hide ReadOnce;
    if r.Intr? { ShortMeansEmpty(c', count); }
    if r.Data? { ShortMeansEmpty(c', count - |r.b|); }
  }

  lemma OneReadEndsFor(c: Conn, n: nat)
    requires n > 0
    ensures var (r, c') := ReadOnce(c, n);
            && (r.Err? ==> ReadFails in c.plan)
            && (r.Again? ==> ReadAgain in c.plan || (c.end == NothingYet && c'.pending == []))
            && (r.Eof? ==> c.end == Closed && c'.pending == [])
            && (forall e :: e in c'.plan ==> e in c.plan)
  {
  }

  /** Why a read ends before its count: a failure of the call, EAGAIN, or the end of the stream. */
  lemma {:induction false} ReadEndsFor(c: Conn, count: nat)
    ensures var (code, got, c') := ReadFully(c, count);
            && (code == Failed ==> ReadFails in c.plan)
            && (code == Blocked ==> ReadAgain in c.plan || (c.end == NothingYet && c'.pending == []))
            && (code == Short ==> c.end == Closed && c'.pending == [] && got == c.pending)
            && (forall e :: e in c'.plan ==> e in c.plan)
    decreases |c.plan| + count
  {
    if count > 0 {
      hide ReadOnce;
      OneReadEndsFor(c, count);
      var (r, c') := ReadOnce(c, count);
      if r.Intr? { ReadEndsFor(c', count); }
      if r.Data? { ReadEndsFor(c', count - |r.b|); }
    }
  }

  /** The server tells apart why it received no message: an error is a call that failed; it would block only
      on EAGAIN; and the peer has closed when the stream has ended, inside a header or a body, or (taken for
      a message) between the two. */
  lemma ServerTellsWhy(c: Conn)
    ensures var (r, c') := ServerRecv(c);
            && (r.Error? ==> ReadFails in c.plan)
            && (r.WouldBlock? ==> ReadAgain in c.plan || (c.end == NothingYet && c'.pending == []))
            && (r.Nothing? || r.PeerClosed? || r.Garbage? ==> c.end == Closed && c'.pending == [])
            && (r.Nothing? ==> c.pending == [])
            && (r.PeerClosed? ==> 0 < |c.pending| && |c.pending| != 4)
            && (r.Garbage? ==> |c.pending| == 4)
            && !r.Timeout?
  {
    ReadEndsFor(c, 4);
    var (code, head, c1) := ReadFully(c, 4);
    if code == Full && FromBigEndian32(head) <= MAX_LENGTH { ReadEndsFor(c1, FromBigEndian32(head)); }
    hide ReadFully, BigEndian32, FromBigEndian32;
  }

  /** The client takes EAGAIN for an error, and the end of the stream between header and body for a close. */
  lemma ClientTellsWhy(c: Conn)
    ensures var (r, c') := ClientRecv(c);
            && (r.Error? ==> ReadFails in c.plan || ReadAgain in c.plan || (c.end == NothingYet && c'.pending == []))
            && (r.Nothing? || r.PeerClosed? ==> c.end == Closed && c'.pending == [])
            && (r.Nothing? ==> c.pending == [])
            && (r.PeerClosed? ==> 0 < |c.pending|)
            && !r.WouldBlock? && !r.Garbage? && !r.Timeout?
  {
    ReadEndsFor(c, 4);
    var (code, head, c1) := ReadFully(c, 4);
    if code == Full && FromBigEndian32(head) <= MAX_LENGTH { ReadEndsFor(c1, FromBigEndian32(head)); }
    hide ReadFully, FromBigEndian32;
  }

  // ---------------------------------------------------------------- the server and EAGAIN

  /** workThread's reading loop on one burst of input: messages until EAGAIN. None stands for the
      cases in which it goes on with something that is not a message. */
  function Drain(c: Conn): Option<seq<Bytes>>
    decreases |c.pending|
  {
    var (r, c') := ServerRecv(c);
    match r
    case WouldBlock => Some([])
    case Message(b) => (match Drain(c') case None => None case Some(ms) => Some([b] + ms))
    case _ => None
  }

  function DrainAll(bursts: seq<Bytes>, plans: seq<seq<ReadEvent>>): Option<seq<Bytes>>
    requires |bursts| == |plans|
    decreases |bursts|
  {
    if bursts == [] then Some([]) else
    match Drain(Conn(bursts[0], plans[0], NothingYet))
    case None => None
    case Some(ms) =>
      match DrainAll(bursts[1..], plans[1..])
      case None => None
      case Some(rest) => Some(ms + rest)
  }

  function Concat(parts: seq<Bytes>): Bytes { if parts == [] then [] else parts[0] + Concat(parts[1..]) }

  /** What is drained from a burst accounts for at most all of its octets, and for all of them
      exactly when the burst is made of whole frames. */
  lemma {:induction false} DrainAccounts(c: Conn)
    requires Drain(c).Some?
    ensures var ms := Drain(c).value; Fit(ms) && Frames(ms) <= c.pending
    decreases |c.pending|
  {
    var (r, c') := ServerRecv(c);
    if r.Message? {
      DrainAccounts(c');
      var ms := Drain(c').value;
      assert ([r.b] + ms)[1..] == ms;
      assert Frames([r.b] + ms) == Frame(r.b) + Frames(ms);
    }
  }

  lemma {:induction false} DrainsWholeFrames(c: Conn, ms: seq<Bytes>)
    requires Calm(c.plan) && c.end == NothingYet && Fit(ms) && c.pending == Frames(ms)
    ensures Drain(c) == Some(ms)
    decreases |ms|
  {
    if ms == [] {
      BlockedAtOnce(c, 4);
    } else {
      ReceivesFront(c, ms[0], Frames(ms[1..]));
      DrainsWholeFrames(ServerRecv(c).1, ms[1..]);
      assert [ms[0]] + ms[1..] == ms;
    }
  }

  lemma {:induction false} BlockedAtOnce(c: Conn, count: nat)
    requires Calm(c.plan) && c.end == NothingYet && c.pending == [] && count > 0
    ensures var (code, got, _) := ReadFully(c, count); code == Blocked && got == []
    decreases |c.plan|
  {
    var (r, c') := ReadOnce(c, count);
    if r.Intr? { BlockedAtOnce(c', count); }
  }

  lemma {:induction false} FramesAppend(ms: seq<Bytes>, ns: seq<Bytes>)
    requires Fit(ms) && Fit(ns)
    ensures Fit(ms + ns) && Frames(ms + ns) == Frames(ms) + Frames(ns)
    decreases |ms|
  {
    assert Fit(ms + ns) && (ms != [] ==> Fit(ms[1..]) && |ms[0]| <= MAX_LENGTH);
    hide Frame, Fit;
    if ms == [] {
      assert ms + ns == ns;
    } else {
      var (head, tail, more) := (Frame(ms[0]), Frames(ms[1..]), Frames(ns));
      assert (ms + ns)[1..] == ms[1..] + ns && (ms + ns)[0] == ms[0];
      FramesAppend(ms[1..], ns);
      assert head + (tail + more) == head + tail + more;
    }
  }

  lemma OneFrame(m: Bytes)
    requires |m| <= MAX_LENGTH
    ensures Frames([m]) == Frame(m)
  {
    var ms: seq<Bytes> := [m];
    assert ms[1..] == [];
    assert Frame(m) + [] == Frame(m);
  }

  /** A stream is the frames of one list of messages at most. */
  lemma {:induction false} FramesAreUnique(ms: seq<Bytes>, ns: seq<Bytes>)
    requires Fit(ms) && Fit(ns) && Frames(ms) == Frames(ns)
    ensures ms == ns
    decreases |ms|
  {
    if ms != [] && ns != [] {
      HeaderOf(ms[0], Frames(ms[1..]));
      HeaderOf(ns[0], Frames(ns[1..]));
      var b := Frames(ms);
      assert b[4..] == ms[0] + Frames(ms[1..]) == ns[0] + Frames(ns[1..]);
      assert ms[0] == b[4..][..|ms[0]|] && ns[0] == b[4..][..|ns[0]|];
      assert Frames(ms[1..]) == b[4..][|ms[0]|..] && Frames(ns[1..]) == b[4..][|ns[0]|..];
      FramesAreUnique(ms[1..], ns[1..]);
    }
  }

  predicate OnBoundary(burst: Bytes, ms: seq<Bytes>) { Fit(ms) && burst == Frames(ms) }

  ghost predicate WholeFrames(burst: Bytes) { exists ms :: OnBoundary(burst, ms) }

  ghost predicate AllOnBoundaries(bursts: seq<Bytes>) {
    forall i :: 0 <= i < |bursts| ==> WholeFrames(bursts[i])
  }

  lemma FirstBurst(bursts: seq<Bytes>, ms: seq<Bytes>)
    requires bursts != [] && OnBoundary(bursts[0], ms) && AllOnBoundaries(bursts[1..])
    ensures AllOnBoundaries(bursts)
  {
    assert WholeFrames(bursts[0]);
    forall i | 0 <= i < |bursts| ensures WholeFrames(bursts[i]) {
      if i > 0 { assert bursts[i] == bursts[1..][i - 1]; }
    }
  }

  lemma {:induction false} BurstsAccount(bursts: seq<Bytes>, plans: seq<seq<ReadEvent>>)
    requires |bursts| == |plans| && DrainAll(bursts, plans).Some?
    ensures var ms := DrainAll(bursts, plans).value;
            && Fit(ms) && |Frames(ms)| <= |Concat(bursts)|
            && (|Frames(ms)| == |Concat(bursts)| ==> AllOnBoundaries(bursts))
    decreases |bursts|
  {
    hide Drain, Frames;
    if bursts == [] {
      NoFrames();
    } else {
      var c := Conn(bursts[0], plans[0], NothingYet);
      var ms := Drain(c).value;
      var rest := DrainAll(bursts[1..], plans[1..]).value;
      DrainAccounts(c);
      BurstsAccount(bursts[1..], plans[1..]);
      FramesAppend(ms, rest);
      hide DrainAll, AllOnBoundaries;
      if |Frames(ms + rest)| == |Concat(bursts)| {
        assert OnBoundary(bursts[0], ms);
        FirstBurst(bursts, ms);
      }
    }
  }

  lemma NoFrames()
    ensures Frames([]) == []
  {
  }

  lemma {:induction false} BoundariesSuffice(bursts: seq<Bytes>, plans: seq<seq<ReadEvent>>)
    requires |bursts| == |plans| && AllOnBoundaries(bursts)
    requires forall i :: 0 <= i < |plans| ==> Calm(plans[i])
    ensures DrainAll(bursts, plans).Some?
    ensures Fit(DrainAll(bursts, plans).value) && Frames(DrainAll(bursts, plans).value) == Concat(bursts)
    decreases |bursts|
  {
    hide Drain, Frames, Calm;
    if bursts == [] {
      NoFrames();
    } else {
      assert WholeFrames(bursts[0]);
      var ms :| OnBoundary(bursts[0], ms);
      DrainsWholeFrames(Conn(bursts[0], plans[0], NothingYet), ms);
      hide AllOnBoundaries;
      BoundariesSuffice(bursts[1..], plans[1..]);
      FramesAppend(ms, DrainAll(bursts[1..], plans[1..]).value);
    }
  }

  /** The server forgets what it has read of a frame when it meets EAGAIN. So it receives exactly
      the messages sent if and only if EAGAIN falls on frame boundaries only. */
  lemma ServerReceivesAllIffOnBoundaries(ms: seq<Bytes>, bursts: seq<Bytes>, plans: seq<seq<ReadEvent>>)
    requires |bursts| == |plans| && (forall i :: 0 <= i < |plans| ==> Calm(plans[i]))
    requires Fit(ms) && Concat(bursts) == Frames(ms)
    ensures DrainAll(bursts, plans) == Some(ms) <==> AllOnBoundaries(bursts)
  {
    if DrainAll(bursts, plans) == Some(ms) {
      BurstsAccount(bursts, plans);
    }
    if AllOnBoundaries(bursts) {
      BoundariesSuffice(bursts, plans);
      FramesAreUnique(DrainAll(bursts, plans).value, ms);
    }
  }

  // ---------------------------------------------------------------- the socket object

  const PARAM_ERROR: int := 3001
  const TIMEOUT_ERROR: int := 3002

  /** What waiting for the socket with select gives. */
  datatype Wait = Ready | Expired | Broken

  /** One turn of readn's loop, with what it has copied before. */
  lemma ReadnTurn(c: Conn, n: nat, before: Bytes)
    requires n > 0
    ensures var (r, c') := ReadOnce(c, n);
            var (code, got, end) := ReadFully(c, n);
            match r
            case Intr => ReadFully(c', n) == (code, got, end)
            case Again => (code, before + got, end) == (Blocked, before, c')
            case Err => (code, before + got, end) == (Failed, before, c')
            case Eof => (code, before + got, end) == (Short, before, c')
            case Data(b) =>
              var (code', more, end') := ReadFully(c', n - |b|);
              (code, before + got, end) == (code', before + b + more, end')
  {
    hide ReadOnce;
    var (r, c') := ReadOnce(c, n);
    assert before + [] == before;
    if r.Data? {
      var more := ReadFully(c', n - |r.b|).1;
      assert before + (r.b + more) == before + r.b + more;
    }
  }

  class TcpSocket {
    var conn: Conn
    var sent: Bytes
    var writePlan: seq<WriteEvent>

    constructor (conn: Conn, writePlan: seq<WriteEvent>)
      ensures this.conn == conn && this.writePlan == writePlan && sent == []
    {
      this.conn := conn;
      this.writePlan := writePlan;
      sent := [];
    }

    /** readn: copies into buf from its start; the code says how it ended. */
    method Readn(buf: array<byte>, count: nat) returns (code: ReadCode, got: nat)
      requires count <= buf.Length
      modifies this`conn, buf
      ensures got <= count && (code, buf[..got], conn) == ReadFully(old(conn), count)
    {
      hide ReadOnce;
      var nleft := count;
      got := 0;
      ghost var whole := ReadFully(conn, count).1;
      assert buf[..0] + whole == whole;
      while nleft > 0
        invariant 0 <= nleft && got + nleft == count
        invariant var (c, b, e) := ReadFully(conn, nleft);
                  ReadFully(old(conn), count) == (c, buf[..got] + b, e)
        decreases |conn.plan| + nleft
      {
        hide ReadFully;
        ReadnTurn(conn, nleft, buf[..got]);
        var (r, c') := ReadOnce(conn, nleft);
        conn := c';
        match r
        case Intr =>
        case Again => return Blocked, got;
        case Err => return Failed, got;
        case Eof => return Short, got;
        case Data(b) =>
          CopyIn(buf, got, b);
          got := got + |b|;
          nleft := nleft - |b|;
      }
      assert buf[..got] + [] == buf[..got];
      code := Full;
    }

    static method CopyIn(buf: array<byte>, at: nat, b: Bytes)
      requires at + |b| <= buf.Length
      modifies buf
      ensures buf[..at + |b|] == old(buf[..at]) + b
    {
      for i := 0 to |b|
        invariant buf[..at] == old(buf[..at])
        invariant buf[at..at + i] == b[..i]
      {
        buf[at + i] := b[i];
        assert buf[at..at + i + 1] == buf[at..at + i] + [b[i]];
      }
      assert buf[..at + |b|] == buf[..at] + buf[at..at + |b|];
    }

    /** writen: all the octets go out, in order, unless a write fails; then a prefix did. */
    method Writen(buf: Bytes) returns (ok: bool)
      modifies this`sent, this`writePlan
      ensures ok ==> sent == old(sent) + buf
      ensures !ok ==> exists k :: 0 <= k < |buf| && sent == old(sent) + buf[..k]
      ensures (forall i :: 0 <= i < |old(writePlan)| ==> !old(writePlan)[i].WriteFails?) ==>
                ok && forall i :: 0 <= i < |writePlan| ==> !writePlan[i].WriteFails?
    {
      var done := 0;
      assert old(sent) + buf[..0] == old(sent);
      while done < |buf|
        invariant 0 <= done <= |buf| && sent == old(sent) + buf[..done]
        invariant (forall i :: 0 <= i < |old(writePlan)| ==> !old(writePlan)[i].WriteFails?) ==>
                    forall i :: 0 <= i < |writePlan| ==> !writePlan[i].WriteFails?
        decreases |writePlan| + |buf| - done
      {
        var k := |buf| - done;
        if writePlan != [] {
          var e := writePlan[0];
          writePlan := writePlan[1..];
          if e.WriteIntr? { continue; }
          if e.WriteFails? { return false; }
          if e.most == 0 { continue; }
          k := Min(e.most, k);
        }
        sent := sent + buf[done..done + k];
        assert buf[..done] + buf[done..done + k] == buf[..done + k];
        done := done + k;
      }
      assert buf[..|buf|] == buf;
      ok := true;
    }

    /** sendMsg: `wait` is what writeTimeout says. A write that fails has sent a prefix of the frame. */
    method SendMsg(data: Bytes, wait: Wait) returns (ret: int)
      requires |data| + 4 < TWO31
      modifies this`sent, this`writePlan
      ensures data == [] ==> ret == 3001
      ensures data != [] && wait == Expired ==> ret == 3002
      ensures data != [] && wait == Broken ==> ret == -1
      ensures data == [] || wait != Ready ==> sent == old(sent)
      ensures data != [] && wait == Ready ==> ret == 0 || ret == -1
      ensures ret == 0 ==> sent == old(sent) + Frame(data)
      // the length in network order, then the data
      ensures ret == 0 ==> var n := |old(sent)|;
                           && |sent| == n + 4 + |data| && sent[..n] == old(sent) && sent[n + 4..] == data
                           && 16777216 * (sent[n] as int) + 65536 * (sent[n + 1] as int) + 256 * (sent[n + 2] as int)
                              + sent[n + 3] as int == |data|
      ensures data != [] && wait == Ready && ret == -1 ==>
                exists k :: 0 <= k < |Frame(data)| && sent == old(sent) + Frame(data)[..k]
      ensures data != [] && wait == Ready
              && (forall i :: 0 <= i < |old(writePlan)| ==> !old(writePlan)[i].WriteFails?) ==>
                ret == 0 && forall i :: 0 <= i < |writePlan| ==> !writePlan[i].WriteFails?
    {
      if |data| == 0 { return PARAM_ERROR; }
      if wait == Expired { return TIMEOUT_ERROR; }
      if wait == Broken { return -1; }
      var netdata := BigEndian32(|data|) + data;
      OctetWeights(|data|);
      assert netdata == Frame(data);
      hide BigEndian32;
      var ok := Writen(netdata);
      if !ok {
        ghost var k :| 0 <= k < |netdata| && sent == old(sent) + netdata[..k];
        assert sent == old(sent) + Frame(data)[..k];
      }
      ret := if ok then 0 else -1;
    }

    /** recvMsg of the server, into a buffer sized by the header. */
    method ServerRecvMsg() returns (r: Received)
      modifies this`conn
      ensures (r, conn) == ServerRecv(old(conn))
      // the first four octets, in network order, are the length of what is taken after them
      ensures r.Message? ==> var (p, n) := (old(conn).pending, |r.b|);
                             && |p| >= 4 + n && r.b == p[4..4 + n] && conn.pending == p[4 + n..]
                             && 16777216 * (p[0] as int) + 65536 * (p[1] as int) + 256 * (p[2] as int)
                                + p[3] as int == n
      ensures r.NoMemory? ==> var p := old(conn).pending;
                              && |p| >= 4
                              && 16777216 * (p[0] as int) + 65536 * (p[1] as int) + 256 * (p[2] as int)
                                 + p[3] as int > 0x7fff_fffe
    {
      LengthThenBody(conn);
      var head := new byte[4];
      var code, got := Readn(head, 4);
      if code == Short && got == 0 { return Nothing; }
      if code == Failed { return Error; }
      if code == Short { return PeerClosed; }
      if code == Blocked { return WouldBlock; }
      assert head[..] == head[..4];
      var n := FromBigEndian32(head[..]);
      if n == TWO32 - 1 { return Overrun; }
      if n > MAX_LENGTH { return NoMemory; }
      var body := new byte[n];
      code, got := Readn(body, n);
      if code == Failed { return Error; }
      if code == Short && got > 0 { return PeerClosed; }
      if code == Blocked { return WouldBlock; }
      if code == Short { return Garbage(n); }
      r := Message(body[..got]);
    }

    /** recvMsg of the client: `wait` is what readTimeout says; any failure of it is a timeout. */
    method ClientRecvMsg(wait: Wait) returns (r: Received)
      modifies this`conn
      ensures wait != Ready ==> r == Timeout && conn == old(conn)
      ensures wait == Ready ==> (r, conn) == ClientRecv(old(conn))
      ensures r.Message? ==> var (p, n) := (old(conn).pending, |r.b|);
                             && |p| >= 4 + n && r.b == p[4..4 + n] && conn.pending == p[4 + n..]
                             && 16777216 * (p[0] as int) + 65536 * (p[1] as int) + 256 * (p[2] as int)
                                + p[3] as int == n
      ensures r.NoMemory? ==> var p := old(conn).pending;
                              && |p| >= 4
                              && 16777216 * (p[0] as int) + 65536 * (p[1] as int) + 256 * (p[2] as int)
                                 + p[3] as int > 0x7fff_fffe
    {
      LengthThenBody(conn);
      if wait != Ready { return Timeout; }
      var head := new byte[4];
      var code, got := Readn(head, 4);
      if code == Short && got == 0 { return Nothing; }
      if code == Failed || code == Blocked { return Error; }
      if code == Short { return PeerClosed; }
      assert head[..] == head[..4];
      var n := FromBigEndian32(head[..]);
      if n == TWO32 - 1 { return Overrun; }
      if n > MAX_LENGTH { return NoMemory; }
      var body := new byte[n];
      code, got := Readn(body, n);
      if code == Failed || code == Blocked { return Error; }
      if code == Short { return PeerClosed; }
      r := Message(body[..got]);
    }

    /** Sending a list of messages over any finite schedule of short and zero writes and EINTR
        puts exactly their frames on the stream. */
    method SendAll(ms: seq<Bytes>)
      requires AllSendable(ms)
      requires forall i :: 0 <= i < |writePlan| ==> !writePlan[i].WriteFails?
      modifies this`sent, this`writePlan
      ensures sent == old(sent) + Frames(ms)
    {
      assert old(sent) + Frames(ms[..0]) == old(sent);
      for i := 0 to |ms|
        invariant sent == old(sent) + Frames(ms[..i])
        invariant forall i :: 0 <= i < |writePlan| ==> !writePlan[i].WriteFails?
      {
        var ret := SendMsg(ms[i], Ready);
        FramesAppend(ms[..i], [ms[i]]);
        assert ms[..i] + [ms[i]] == ms[..i + 1];
        OneFrame(ms[i]);
      }
      assert ms[..|ms|] == ms;
    }
  }
}
