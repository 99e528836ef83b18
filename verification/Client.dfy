/**
 The client's half of the protocol: the requests it builds, how it takes the replies apart, and
 the operation object that drives one exchange at a time.
 */
module Client {
  import opened Bytes
  import opened SlotTable
  import opened KeyServer
  import opened KeyCache

  // ---------------------------------------------------------------- requests

  /** The request record leaves keyId unset until a check or revocation: `noise` is what is there. */
  function NonceRequest(client: Bytes, server: Bytes, nonce: Bytes, noise: int): Request {
    Request(RANDOMNUM, client, server, [], nonce, noise)
  }

  /** A code travels through a char array: it stops at the first NUL. */
  function Signed(env: Env, kind: int, client: Bytes, server: Bytes, authKey: Bytes, data: Bytes, keyId: int): Request {
    Request(kind, client, server, CString(env.hmac(authKey, env.hash(data))), data, keyId)
  }

  /** `cipher` is what encrypting the premaster gave: encryption is randomised. */
  function PrekeyRequest(env: Env, client: Bytes, server: Bytes, cn: Bytes, sn: Bytes, premaster: Bytes, cipher: Bytes,
                         noise: int): Request
  {
    Signed(env, PREKEY, client, server, AuthKey(cn, sn, premaster), cipher, noise)
  }

  /** A check or a revocation proves both keys of the node: `cipher` is what encrypting them gave. */
  function ProofRequest(env: Env, kind: int, node: Node, cipher: Bytes): Request {
    Signed(env, kind, node.client, node.server, node.authKey, cipher, node.keyId)
  }

  function AgreedNode(client: Bytes, server: Bytes, cn: Bytes, sn: Bytes, premaster: Bytes, id: int): Node {
    Node(1, id, CString(client), CString(server),
         CString(EndeKey(cn, sn, premaster)), CString(AuthKey(cn, sn, premaster)))
  }

  // ---------------------------------------------------------------- replies

  const BUFFER: nat := 2048

  function Zeros(n: nat): (b: Bytes)
    ensures |b| == n
  {
    seq(n, i => 0)
  }

  /** The nonce and the public key, copied out of the reply through a zeroed buffer; None when the
      copying leaves the buffer. */
  function ParsePayload(data: Bytes): Option<(Bytes, Bytes)> {
    if |data| > BUFFER then None else
    var buf := data + Zeros(BUFFER - |data|);
    var n := ToInt32(FromLittleEndian32(buf[..4]));
    if n < 0 || 8 + n > BUFFER then None else
    var m := ToInt32(FromLittleEndian32(buf[4 + n..8 + n]));
    if m < 0 || 8 + n + m > BUFFER then None else Some((buf[4..4 + n], buf[8 + n..8 + n + m]))
  }

  lemma PayloadLayout(nonce: Bytes, key: Bytes, rest: Bytes)
    requires |nonce| < TWO31 && |key| < TWO31
    ensures var b := Payload(nonce, key) + rest;
            var n := |nonce|;
            && |Payload(nonce, key)| == 8 + n + |key|
            && ToInt32(FromLittleEndian32(b[..4])) == n && b[4..4 + n] == nonce
            && ToInt32(FromLittleEndian32(b[4 + n..8 + n])) == |key| && b[8 + n..8 + n + |key|] == key
  {
    hide LittleEndian32, FromLittleEndian32, ToInt32;
    Word32RoundTrip(|nonce|);
    Word32RoundTrip(|key|);
    var a, c := LittleEndian32(|nonce|), LittleEndian32(|key|);
    PayloadIs(nonce, key);
    hide Payload;
    FourParts(a, nonce, c, key + rest);
    assert a + nonce + c + key + rest == a + nonce + c + (key + rest);
    assert (key + rest)[..|key|] == key;
  }

  /** The payload parses back exactly when it fits the client's buffer. */
  lemma PayloadParsesBack(nonce: Bytes, key: Bytes)
    requires |nonce| < TWO31 && |key| < TWO31
    ensures ParsePayload(Payload(nonce, key)) == Some((nonce, key)) <==> 8 + |nonce| + |key| <= 2048
  {
    PayloadLayout(nonce, key, []);
    if |Payload(nonce, key)| <= BUFFER {
      PayloadLayout(nonce, key, Zeros(BUFFER - |Payload(nonce, key)|));
    }
    hide Payload, LittleEndian32, FromLittleEndian32, ToInt32;
  }

  predicate IsDigit(b: byte) { 48 <= b < 58 }

  /** The value of the digits up to the first other character. */
  function Digits(acc: nat, b: Bytes): nat
    decreases |b|
  {
    if b == [] || !IsDigit(b[0]) then acc else Digits(10 * acc + (b[0] - 48), b[1..])
  }

  predicate IsSpace(b: byte) { b == 32 || 9 <= b <= 13 }

  /** C's atoi: blanks, a sign, digits. */
  function Atoi(b: Bytes): int
    decreases |b|
  {
    if b == [] then 0
    else if IsSpace(b[0]) then Atoi(b[1..])
    else if b[0] == 45 then var n: int := Digits(0, b[1..]); -n
    else if b[0] == 43 then Digits(0, b[1..])
    else Digits(0, b)
  }

  lemma {:induction false} DigitsAppend(acc: nat, d: Bytes, x: byte)
    requires (forall i :: 0 <= i < |d| ==> IsDigit(d[i])) && IsDigit(x)
    ensures Digits(acc, d + [x]) == 10 * Digits(acc, d) + x - 48
    decreases |d|
  {
    if d == [] {
      assert Digits(10 * acc + (x - 48), [x][1..]) == 10 * acc + (x - 48);
    } else {
      assert (d + [x])[1..] == d[1..] + [x];
      DigitsAppend(10 * acc + (d[0] - 48), d[1..], x);
    }
  }

  lemma {:induction false} DigitsOfDecimal(n: nat)
    ensures Digits(0, ToDecimal(n)) == n
    decreases n
  {
    if n < 10 {
      assert Digits(n, ToDecimal(n)[1..]) == n;
    } else {
      DigitsOfDecimal(n / 10);
      DigitsAppend(0, ToDecimal(n / 10), 48 + n % 10);
    }
  }

  /** atoi undoes to_string. */
  lemma AtoiOfIntToString(n: int)
    ensures Atoi(IntToString(n)) == n
  {
    if n < 0 {
      DigitsOfDecimal(-n);
      assert IntToString(n)[1..] == ToDecimal(-n);
    } else {
      DigitsOfDecimal(n);
    }
  }

  lemma DecimalHasNoZero(n: int)
    ensures 0 !in IntToString(n)
  {
  }

  // ---------------------------------------------------------------- a proof of the keys is admitted

  /** A key of 1024 bits with PKCS #1 v1.5 padding (RFC 8017, section 7.2) carries 128 - 11 octets. */
  const PLAIN: nat := 118

  /** What encrypting x under the server's public key may give: something that decrypts to x, or
      nothing when x is too long. */
  predicate IsCipher(env: Env, x: Bytes, cipher: Bytes) {
    |cipher| < TWO31 && if |x| < PLAIN then env.dec(cipher) == x else cipher == []
  }

  /** Nothing decrypts to more than the key can carry; nothing, sent because encrypting failed,
      decrypts to nothing; and codes are hex digits of a SHA-256. */
  ghost predicate GoodCrypto(env: Env) {
    && (forall c :: |env.dec(c)| < PLAIN) && env.dec([]) == []
    && (forall k, d :: 0 !in env.hmac(k, d) && |env.hmac(k, d)| < 65)
  }

  lemma UseCrypto(env: Env, c: Bytes, k: Bytes, d: Bytes)
    requires GoodCrypto(env)
    ensures |env.dec(c)| < PLAIN && CString(env.hmac(k, d)) == env.hmac(k, d) && |env.hmac(k, d)| < 65
  {
  }

  /** The hypotheses on cryptography and the database can be met, with a cipher text for every text
      that is short enough. */
  lemma GoodEnvExists(decode: int -> bool, publicKey: Bytes) returns (env: Env)
    ensures GoodCrypto(env) && GoodStore(env) && env.decode == decode && env.publicKey == publicKey
    ensures forall x: Bytes :: IsCipher(env, x, if |x| < PLAIN then x else [])
  {
    env := Env(c => if |c| < PLAIN then c else [], d => [], (k, d) => [48], decode, publicKey, DATABASE);
    DatabaseIsGood(env);
  }

  /** Whoever holds the keys of a row is admitted exactly as long as the row's state decodes to true
      and both keys together are short enough to be encrypted. */
  lemma HolderIsAdmitted(env: Env, st: Store, kind: int, node: Node, cipher: Bytes, queryOk: bool)
    requires GoodCrypto(env) && Agrees(st, node) && IsCipher(env, node.authKey + node.endeKey, cipher)
    ensures Admitted(env, st, ProofRequest(env, kind, node, cipher), queryOk)
            <==> queryOk && env.decode(st.rows[node.keyId].state) && |node.authKey| + |node.endeKey| <= 117
  {
    UseCrypto(env, cipher, node.authKey, env.hash(cipher));
    hide CString, GoodCrypto;
  }

  /** In particular two keys of more than 117 octets together are refused, whatever is sent. */
  lemma LongKeysAreRefused(env: Env, st: Store, req: Request, queryOk: bool)
    requires GoodCrypto(env) && req.keyId in st.rows
    requires |st.rows[req.keyId].authKey| + |st.rows[req.keyId].endeKey| > 117
    ensures !Admitted(env, st, req, queryOk)
  {
    UseCrypto(env, req.data, [], []);
    hide GoodCrypto;
  }

  /** The code that this key gives to an empty message is not the one that the empty key gives. */
  predicate StandsOut(env: Env, authKey: Bytes) {
    authKey != [] ==> env.hmac(authKey, env.hash([])) != env.hmac([], env.hash([]))
  }

  /** The client to which a key was issued is admitted exactly when, besides, the database stored both
      keys as they are. Derived keys begin alike, so that one is not empty without the other; a key
      too long to be sent must not have the code of the empty one. */
  lemma IssuedHolderIsAdmitted(env: Env, st: Store, kind: int, node: Node, cipher: Bytes, queryOk: bool)
    requires GoodCrypto(env) && GoodStore(env) && IssuedAs(env, st, node)
             && IsCipher(env, node.authKey + node.endeKey, cipher)
    requires node.authKey == [] ==> node.endeKey == []
    requires |node.authKey| + |node.endeKey| >= PLAIN ==> StandsOut(env, node.authKey)
    ensures Admitted(env, st, ProofRequest(env, kind, node, cipher), queryOk)
            <==> queryOk && env.decode(st.rows[node.keyId].state) && |node.authKey| + |node.endeKey| <= 117
                 && Kept(env, node)
  {
    var row := st.rows[node.keyId];
    if Kept(env, node) {
      HolderIsAdmitted(env, st, kind, node, cipher, queryOk);
    } else if |node.authKey| + |node.endeKey| < PLAIN {
      ColumnIsShorter(env, node.authKey);
      ColumnIsShorter(env, node.endeKey);
      SameParts(row.authKey, row.endeKey, node.authKey, node.endeKey);
    } else if row.authKey + row.endeKey == [] {
      // nothing is sent, and the row's keys are read as empty
      var d := env.hash(cipher);
      UseCrypto(env, cipher, node.authKey, d);
      assert row.authKey == [] && node.authKey != [];
    }
    hide Column, GoodStore, CString, Kept;
  }

  lemma ColumnIsShorter(env: Env, t: Bytes)
    requires GoodStore(env)
    ensures |Column(env, t)| <= |t|
  {
  }

  /** Two texts that are no longer than two others are those if they are joined to the same text. */
  lemma SameParts(a: Bytes, b: Bytes, c: Bytes, d: Bytes)
    requires |a| <= |c| && |b| <= |d|
    ensures a + b == c + d ==> a == c && b == d
  {
    if a + b == c + d {
      assert |a + b| == |a| + |b|;
      assert a == (a + b)[..|a|] && c == (c + d)[..|c|];
      assert b == (a + b)[|a|..] && d == (c + d)[|c|..];
    }
  }
}
