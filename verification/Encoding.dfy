/** Bytes, hexadecimal text, and the UTF-8 form of a JavaScript string. */
module Encoding {

  datatype Option<+T> = None | Some(value: T)

  type byte = b: int | 0 <= b < 256

  type Bytes = seq<byte>

  const ZERO_DIGEST: Bytes := seq(32, (i: nat) => 0)

  type Digest = d: Bytes | |d| == 32 witness ZERO_DIGEST

  /** SHA-256 is any function from byte strings to 32 bytes: nothing else is used of it. */
  type Sha256 = Bytes -> Digest

  /** Two different preimages of one digest, the first among `xs` and the second among `ys`. */
  ghost predicate Collision(sha: Sha256, xs: set<Bytes>, ys: set<Bytes>)
  {
    exists x, y :: x in xs && y in ys && x != y && sha(x) == sha(y)
  }

  lemma CollisionWiden(sha: Sha256, xs: set<Bytes>, ys: set<Bytes>, xs': set<Bytes>, ys': set<Bytes>)
    requires xs <= xs' && ys <= ys' && Collision(sha, xs, ys)
    ensures Collision(sha, xs', ys')
  {
    var x, y :| x in xs && y in ys && x != y && sha(x) == sha(y);
    assert x in xs' && y in ys';
  }

  // A JavaScript string is a sequence of 16-bit code units, not of characters.
  type CodeUnit = u: int | 0 <= u < 0x10000

  type Text = seq<CodeUnit>

  /** A piece of ASCII as code units. */
  function Units(s: string): (t: Text)
    requires forall i :: 0 <= i < |s| ==> s[i] as int < 0x80
    ensures |t| == |s| && forall i :: 0 <= i < |t| ==> t[i] == s[i] as int
  {
    seq(|s|, i requires 0 <= i < |s| => s[i] as int)
  }

  /** Concatenation is associative: the verifier wants to be told. */
  lemma Associate<T>(a: seq<T>, b: seq<T>, c: seq<T>)
    ensures (a + b) + c == a + (b + c)
  {
  }

  /** The first n parts, one after the other. */
  function Flatten<T>(parts: nat -> seq<T>, n: nat): seq<T>
  {
    if n == 0 then [] else Flatten(parts, n - 1) + parts(n - 1)
  }

  /** Nothing comes of it exactly when nothing is wrong with any part. */
  lemma {:induction false} FlattenEmpty<T>(parts: nat -> seq<T>, n: nat, right: nat -> bool)
    requires forall i: nat :: i < n ==> (parts(i) == [] <==> right(i))
    ensures Flatten(parts, n) == [] <==> forall i: nat :: i < n ==> right(i)
  {
    if n > 0 {
      FlattenEmpty(parts, n - 1, right);
      assert parts(n - 1) == [] <==> right(n - 1);
    }
  }

  // ---------- hexadecimal ----------

  type Nibble = n: int | 0 <= n < 16

  function HexDigit(n: Nibble): (u: CodeUnit)
    ensures 0x30 <= u <= 0x39 || 0x61 <= u <= 0x66
  {
    if n < 10 then 0x30 + n else 0x61 + n - 10
  }

  /** The value of a hex digit in either case, or -1. */
  function HexValue(u: CodeUnit): (n: int)
    ensures -1 <= n < 16
  {
    if 0x30 <= u <= 0x39 then u - 0x30
    else if 0x61 <= u <= 0x66 then u - 0x61 + 10
    else if 0x41 <= u <= 0x46 then u - 0x41 + 10
    else -1
  }

  function ToHex(bs: Bytes): (t: Text)
    ensures |t| == 2 * |bs|
  {
    if bs == [] then [] else [HexDigit(bs[0] / 16), HexDigit(bs[0] % 16)] + ToHex(bs[1..])
  }

  /** Decoding stops, without an error, at the first pair that is not two hex digits. */
  function FromHex(t: Text): (bs: Bytes)
  {
    if |t| < 2 || HexValue(t[0]) < 0 || HexValue(t[1]) < 0 then []
    else [16 * HexValue(t[0]) + HexValue(t[1])] + FromHex(t[2..])
  }

  lemma {:induction false} HexRoundTrip(bs: Bytes)
    ensures FromHex(ToHex(bs)) == bs
  {
    if bs != [] {
      HexRoundTrip(bs[1..]);
      assert ToHex(bs)[2..] == ToHex(bs[1..]);
      assert bs == [bs[0]] + bs[1..];
    }
  }

  lemma HexInjective(a: Bytes, b: Bytes)
    requires ToHex(a) == ToHex(b)
    ensures a == b
  {
    HexRoundTrip(a);
    HexRoundTrip(b);
  }

  lemma {:induction false} HexIsPrintable(bs: Bytes)
    ensures Printable(ToHex(bs))
  {
    if bs != [] {
      HexIsPrintable(bs[1..]);
    }
  }

  /** No control characters and no surrogates of either kind. */
  predicate Printable(t: Text)
  {
    forall i :: 0 <= i < |t| ==> 0x20 <= t[i] < 0xD800
  }

  // ---------- decimal ----------

  /** Number::toString of an integer that is not negative. */
  function Decimal(n: nat): (t: Text)
    ensures |t| >= 1 && forall i :: 0 <= i < |t| ==> 0x30 <= t[i] <= 0x39
  {
    if n < 10 then [0x30 + n] else Decimal(n / 10) + [0x30 + n % 10]
  }

  /** The number that digits stand for, the last one counting ones. */
  function ReadDecimal(t: Text): int
  {
    if t == [] then 0 else 10 * ReadDecimal(t[..|t| - 1]) + (t[|t| - 1] as int - 0x30)
  }

  /** The digits stand for the number, and do not begin with a zero unless it is zero. */
  lemma {:induction false} DecimalReads(n: nat)
    ensures ReadDecimal(Decimal(n)) == n
    ensures n > 0 ==> Decimal(n)[0] != 0x30
    decreases n
  {
    var t := Decimal(n);
    if n >= 10 {
      DecimalReads(n / 10);
      assert t[..|t| - 1] == Decimal(n / 10);
    } else {
      assert t[..0] == [];
    }
  }

  lemma DecimalInjective(m: nat, n: nat)
    requires Decimal(m) == Decimal(n)
    ensures m == n
  {
    DecimalReads(m);
    DecimalReads(n);
  }

  // ---------- UTF-16 to UTF-8 ----------

  predicate IsHigh(u: CodeUnit) { 0xD800 <= u < 0xDC00 }

  predicate IsLow(u: CodeUnit) { 0xDC00 <= u < 0xE000 }

  /** How many code units the first character takes: a surrogate pair takes two. */
  function CharWidth(t: Text): (w: nat)
    requires t != []
    ensures 1 <= w <= 2 && w <= |t|
  {
    if IsHigh(t[0]) && |t| > 1 && IsLow(t[1]) then 2 else 1
  }

  /** No lone surrogates. */
  predicate WellFormed(t: Text)
  {
    t == [] ||
    ((CharWidth(t) == 2 || !(IsHigh(t[0]) || IsLow(t[0]))) && WellFormed(t[CharWidth(t)..]))
  }

  const REPLACEMENT: CodeUnit := 0xFFFD

  /** The first character's code point; a lone surrogate becomes U+FFFD. */
  function FirstCodePoint(t: Text): (c: int)
    requires t != []
    ensures 0 <= c < 0x110000
  {
    if CharWidth(t) == 2 then
      var high: int, low: int := t[0], t[1];
      0x10000 + (high - 0xD800) * 0x400 + (low - 0xDC00)
    else if IsHigh(t[0]) || IsLow(t[0]) then REPLACEMENT
    else t[0]
  }

  function EncodeCodePoint(c: int): (bs: Bytes)
    requires 0 <= c < 0x110000
    ensures 1 <= |bs| <= 4
  {
    if c < 0x80 then [c]
    else if c < 0x800 then [0xC0 + c / 64, 0x80 + c % 64]
    else if c < 0x10000 then [0xE0 + c / 64 / 64, 0x80 + c / 64 % 64, 0x80 + c % 64]
    else [0xF0 + c / 64 / 64 / 64, 0x80 + c / 64 / 64 % 64, 0x80 + c / 64 % 64, 0x80 + c % 64]
  }

  function Utf8(t: Text): (bs: Bytes)
  {
    if t == [] then [] else EncodeCodePoint(FirstCodePoint(t)) + Utf8(t[CharWidth(t)..])
  }

  /** The code point at the front of a UTF-8 byte string, read from its lead byte. */
  function DecodeFirst(bs: Bytes): (c: int)
    requires |bs| >= 4
  {
    var b0: int, b1: int, b2: int, b3: int := bs[0], bs[1], bs[2], bs[3];
    if b0 < 0x80 then b0
    else if b0 < 0xE0 then 64 * (b0 - 0xC0) + (b1 - 0x80)
    else if b0 < 0xF0 then 64 * (64 * (b0 - 0xE0) + (b1 - 0x80)) + (b2 - 0x80)
    else 64 * (64 * (64 * (b0 - 0xF0) + (b1 - 0x80)) + (b2 - 0x80)) + (b3 - 0x80)
  }

  lemma DecodeFirstInverts(c: int, r: Bytes)
    requires 0 <= c < 0x110000 && |r| >= 3
    ensures DecodeFirst(EncodeCodePoint(c) + r) == c
  {
    var e := EncodeCodePoint(c);
    assert forall k | 0 <= k < |e| :: (e + r)[k] == e[k];
  }

  /** UTF-8 is a prefix code: the first character of an encoding can be read off its front. */
  lemma EncodePrefixFree(c: int, d: int, r: Bytes, s: Bytes)
    requires 0 <= c < 0x110000 && 0 <= d < 0x110000
    requires EncodeCodePoint(c) + r == EncodeCodePoint(d) + s
    ensures c == d && r == s
  {
    var pad: Bytes := [0, 0, 0];
    var e, f := EncodeCodePoint(c), EncodeCodePoint(d);
    assert e + (r + pad) == (e + r) + pad == (f + s) + pad == f + (s + pad);
    DecodeFirstInverts(c, r + pad);
    DecodeFirstInverts(d, s + pad);
    assert r == (e + r)[|e|..] && s == (f + s)[|f|..];
  }

  /** One code point is written with the same code units. */
  lemma FirstCharacter(t: Text, u: Text)
    requires t != [] && u != [] && FirstCodePoint(t) == FirstCodePoint(u)
    requires (WellFormed(t) && WellFormed(u)) || FirstCodePoint(t) != REPLACEMENT
    ensures CharWidth(t) == CharWidth(u) && t[..CharWidth(t)] == u[..CharWidth(u)]
  {
  }

  lemma Rejoin<T>(s: seq<T>, t: seq<T>, k: nat)
    requires k <= |s| && k <= |t| && s[..k] == t[..k] && s[k..] == t[k..]
    ensures s == t
  {
    assert s == s[..k] + s[k..] && t == t[..k] + t[k..];
  }

  /** Two strings without lone surrogates have the same UTF-8 bytes only when they are the same. */
  lemma {:induction false} Utf8Injective(t: Text, u: Text)
    requires WellFormed(t) && WellFormed(u) && Utf8(t) == Utf8(u)
    ensures t == u
  {
    if t != [] && u != [] {
      EncodePrefixFree(FirstCodePoint(t), FirstCodePoint(u), Utf8(t[CharWidth(t)..]), Utf8(u[CharWidth(u)..]));
      Utf8Injective(t[CharWidth(t)..], u[CharWidth(u)..]);
      FirstCharacter(t, u);
      Rejoin(t, u, CharWidth(t));
    }
  }

  /** One character of each width, as section 3 of RFC 3629 lays it out. */
  lemma Utf8OfEachWidth()
    ensures Utf8([0x41]) == [0x41]
    ensures Utf8([0xE9]) == [0xC3, 0xA9]
    ensures Utf8([0x20AC]) == [0xE2, 0x82, 0xAC]
    ensures Utf8([0xD83D, 0xDE00]) == [0xF0, 0x9F, 0x98, 0x80]
  {
    assert [0x41][1..] == [] && [0xE9][1..] == [] && [0x20AC][1..] == [];
    var pair: Text := [0xD83D, 0xDE00];
    assert pair[2..] == [] && CharWidth(pair) == 2 && FirstCodePoint(pair) == 0x1F600;
  }

  /** The bytes of this string are those of no other: it holds neither lone surrogates nor U+FFFD. */
  predicate Unmistakable(t: Text) { WellFormed(t) && REPLACEMENT !in t }

  lemma {:induction false} Utf8Fixes(t: Text, u: Text)
    requires Unmistakable(t) && Utf8(t) == Utf8(u)
    ensures t == u
  {
    if t != [] && u != [] {
      EncodePrefixFree(FirstCodePoint(t), FirstCodePoint(u), Utf8(t[CharWidth(t)..]), Utf8(u[CharWidth(u)..]));
      assert FirstCodePoint(t) != REPLACEMENT by {
        assert t[0] in t;
      }
      Utf8Fixes(t[CharWidth(t)..], u[CharWidth(u)..]);
      FirstCharacter(t, u);
      Rejoin(t, u, CharWidth(t));
    }
  }

  /** Without the condition it fails: every lone surrogate is encoded as U+FFFD. */
  lemma Utf8ForgetsLoneSurrogates()
    ensures Utf8([0xD800]) == Utf8([0xDC00])
  {
    assert FirstCodePoint([0xD800]) == FirstCodePoint([0xDC00]) == 0xFFFD;
    assert [0xD800][1..] == [] && [0xDC00][1..] == [];
  }

  lemma {:induction false} PrintableIsWellFormed(t: Text)
    requires Printable(t)
    ensures WellFormed(t)
  {
    if t != [] {
      PrintableIsWellFormed(t[1..]);
    }
  }

  lemma {:induction false} WellFormedConcat(t: Text, u: Text)
    requires WellFormed(t) && WellFormed(u)
    ensures WellFormed(t + u)
  {
    if t == [] {
      assert t + u == u;
    } else {
      WellFormedConcat(t[CharWidth(t)..], u);
      assert CharWidth(t + u) == CharWidth(t);
      assert (t + u)[CharWidth(t)..] == t[CharWidth(t)..] + u;
    }
  }
}
