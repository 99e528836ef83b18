/**
 Text between single quotes in a MySQL statement (the MySQL Reference Manual, section "String
 Literals", default SQL mode): what the server makes of text that was put there without escaping.
 */
module SqlText {
  import opened Bytes

  const QUOTE: byte := 39
  const BACKSLASH: byte := 92

  /** No quote and no backslash. */
  predicate Clean(t: Bytes) { QUOTE !in t && BACKSLASH !in t }

  /** What a backslash and the octet after it stand for; those of LIKE patterns stay as they are. */
  function Escape(b: byte): (e: Bytes)
    ensures 1 <= |e| <= 2 && (|e| == 2 <==> b == 37 || b == 95)
    ensures |e| == 2 ==> e == [BACKSLASH, b]
  {
    if b == 48 then [0]
    else if b == 98 then [8]
    else if b == 110 then [10]
    else if b == 114 then [13]
    else if b == 116 then [9]
    else if b == 90 then [26]
    else if b == 37 || b == 95 then [BACKSLASH, b]
    else [b]
  }

  /** The value of the text as one literal; None when the text ends its literal before its own end,
      or takes the closing quote into it. Two quotes stand for one. */
  function Literal(t: Bytes): (r: Option<Bytes>)
    ensures r.Some? ==> |r.value| <= |t|
    decreases |t|
  {
    if t == [] then Some([])
    else if t[0] == BACKSLASH then
      if |t| == 1 then None else Prefixed(Escape(t[1]), Literal(t[2..]))
    else if t[0] == QUOTE then
      if |t| == 1 || t[1] != QUOTE then None else Prefixed([QUOTE], Literal(t[2..]))
    else Prefixed([t[0]], Literal(t[1..]))
  }

  /** A text that stays one literal may begin with any escape: what each stands for, by its octets. */
  lemma EscapesStandFor(b: byte, t: Bytes)
    requires Literal(t).Some?
    ensures Literal([92, b] + t) == Some(
              (match b
               case 48 => [0]        // 0: NUL
               case 98 => [8]        // b: backspace
               case 110 => [10]      // n: newline
               case 114 => [13]      // r: carriage return
               case 116 => [9]       // t: tab
               case 90 => [26]       // Z: Control+Z
               case 37 => [92, 37]   // of patterns, kept as they are
               case 95 => [92, 95]
               case _ => [b]) + Literal(t).value)
    ensures Literal([39, 39] + t) == Some([39] + Literal(t).value) && Literal([39]).None? && Literal([92]).None?
  {
    assert ([92, b] + t)[2..] == t && ([39, 39] + t)[2..] == t;
  }

  function Prefixed(a: Bytes, r: Option<Bytes>): Option<Bytes> { if r.Some? then Some(a + r.value) else None }

  /** No quote, and no backslash except before a percent sign or an underscore. */
  predicate Unchanged(t: Bytes)
    decreases |t|
  {
    if t == [] then true
    else if t[0] == BACKSLASH then |t| > 1 && (t[1] == 37 || t[1] == 95) && Unchanged(t[2..])
    else t[0] != QUOTE && Unchanged(t[1..])
  }

  /** Text is stored as it is exactly when it holds no quote and only harmless backslashes. */
  lemma {:induction false} StoredAsItIsExactlyWhen(t: Bytes)
    ensures Literal(t) == Some(t) <==> Unchanged(t)
    decreases |t|
  {
    if t != [] && t[0] == BACKSLASH {
      if |t| > 1 {
        StoredAsItIsExactlyWhen(t[2..]);
        assert t == [t[0], t[1]] + t[2..];
      }
    } else if t != [] {
      StoredAsItIsExactlyWhen(t[1..]);
      assert t == [t[0]] + t[1..];
      if Literal(t) == Some(t) && t[0] != QUOTE {
        assert Literal(t[1..]).value == t[1..];
      }
    }
  }

  lemma {:induction false} CleanIsUnchanged(t: Bytes)
    requires Clean(t)
    ensures Unchanged(t)
    decreases |t|
  {
    if t != [] { CleanIsUnchanged(t[1..]); }
  }

  lemma CleanIsStored(t: Bytes)
    requires Clean(t)
    ensures Literal(t) == Some(t)
  {
    CleanIsUnchanged(t);
    StoredAsItIsExactlyWhen(t);
  }

  // ---------------------------------------------------------------- texts that stay one literal

  /** A backslash and any octet, two quotes, or one octet that is neither. */
  predicate Piece(p: Bytes) {
    || (|p| == 2 && p[0] == BACKSLASH)
    || p == [QUOTE, QUOTE]
    || (|p| == 1 && p[0] != QUOTE && p[0] != BACKSLASH)
  }

  function Joined(ps: seq<Bytes>): Bytes { if ps == [] then [] else ps[0] + Joined(ps[1..]) }

  predicate AllPieces(ps: seq<Bytes>) { forall i :: 0 <= i < |ps| ==> Piece(ps[i]) }

  /** The text can be cut into such pieces. */
  ghost predicate Whole(t: Bytes) { exists ps :: AllPieces(ps) && Joined(ps) == t }

  lemma {:induction false} PiecesAreLiteral(ps: seq<Bytes>)
    requires AllPieces(ps)
    ensures Literal(Joined(ps)).Some?
    decreases |ps|
  {
    if ps != [] {
      PiecesAreLiteral(ps[1..]);
      assert Joined(ps)[|ps[0]|..] == Joined(ps[1..]);
    }
  }

  lemma {:induction false} LiteralHasPieces(t: Bytes) returns (ps: seq<Bytes>)
    requires Literal(t).Some?
    ensures AllPieces(ps) && Joined(ps) == t
    decreases |t|
  {
    if t == [] {
      ps := [];
    } else {
      var n := if t[0] == BACKSLASH || t[0] == QUOTE then 2 else 1;
      var rest := LiteralHasPieces(t[n..]);
      ps := [t[..n]] + rest;
      assert ps[1..] == rest;
      assert t == t[..n] + t[n..];
    }
  }

  /** Text stays one literal exactly when it can be cut into pieces: no quote stands alone, and no
      backslash is left over at the end. */
  lemma StaysOneLiteralExactlyWhen(t: Bytes)
    ensures Literal(t).Some? <==> Whole(t)
  {
    if Literal(t).Some? { var ps := LiteralHasPieces(t); }
    if Whole(t) {
      var ps :| AllPieces(ps) && Joined(ps) == t;
      PiecesAreLiteral(ps);
    }
  }
}
