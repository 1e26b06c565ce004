/** A reader for compact JSON, and the proof that it undoes the canonical printer. */
module CanonicalParser {
  import opened Encoding
  import opened Keyed
  import opened Canonical

  datatype Parsed<+T> = Fail | Done(value: T, rest: Text)

  function Cons<T>(x: T, tail: Parsed<seq<T>>): (r: Parsed<seq<T>>)
    ensures r.Done? ==> tail.Done? && r.rest == tail.rest
  {
    match tail
    case Done(xs, rest) => Done([x] + xs, rest)
    case Fail => Fail
  }

  // ---------- the reader ----------

  /** The maximal run of number characters at the front of `t`. */
  function NumberRun(t: Text): (n: nat)
    ensures n <= |t| && forall i :: 0 <= i < n ==> IsNumberUnit(t[i])
  {
    if t != [] && IsNumberUnit(t[0]) then 1 + NumberRun(t[1..]) else 0
  }

  /** A two-character escape other than \u, or -1. */
  function Unescape(u: CodeUnit): (r: int)
    ensures -1 <= r < 0x10000
  {
    if u == QUOTE || u == BACKSLASH || u == 0x2F then u
    else if u == 0x62 then 0x08
    else if u == 0x74 then 0x09
    else if u == 0x6E then 0x0A
    else if u == 0x66 then 0x0C
    else if u == 0x72 then 0x0D
    else -1
  }

  predicate FourHex(t: Text)
  {
    |t| >= 4 && HexValue(t[0]) >= 0 && HexValue(t[1]) >= 0 && HexValue(t[2]) >= 0 && HexValue(t[3]) >= 0
  }

  /** The characters of a string up to its closing quote. */
  function ParseChars(t: Text): (r: Parsed<Text>)
    ensures r.Done? ==> |r.rest| < |t|
  {
    if t == [] || t[0] < 0x20 then Fail
    else if t[0] == QUOTE then Done([], t[1..])
    else if t[0] != BACKSLASH then Cons(t[0], ParseChars(t[1..]))
    else if |t| < 2 then Fail
    else if t[1] == 0x75 then
      if FourHex(t[2..]) then
        var u := 4096 * HexValue(t[2]) + 256 * HexValue(t[3]) + 16 * HexValue(t[4]) + HexValue(t[5]);
        Cons(u, ParseChars(t[6..]))
      else Fail
    else if Unescape(t[1]) < 0 then Fail
    else Cons(Unescape(t[1]), ParseChars(t[2..]))
  }

  function ParseValue(t: Text): (r: Parsed<Value>)
    ensures r.Done? ==> |r.rest| < |t|
    decreases |t|, 0
  {
    if t == [] then Fail
    else if LIT_NULL <= t then Done(Null, t[4..])
    else if LIT_TRUE <= t then Done(Boolean(true), t[4..])
    else if LIT_FALSE <= t then Done(Boolean(false), t[5..])
    else if t[0] == QUOTE then
      match ParseChars(t[1..])
      case Done(s, rest) => Done(String(s), rest)
      case Fail => Fail
    else if IsNumberUnit(t[0]) then
      var n := NumberRun(t);
      Done(Number(Finite(t[..n])), t[n..])
    else if t[0] == LBRACKET then
      if |t| > 1 && t[1] == RBRACKET then Done(Array([]), t[2..])
      else
        match ParseItems(t[1..])
        case Done(items, rest) => Done(Array(items), rest)
        case Fail => Fail
    else if t[0] == LBRACE then
      if |t| > 1 && t[1] == RBRACE then Done(Object([]), t[2..])
      else
        match ParseMembers(t[1..])
        case Done(members, rest) => Done(Object(members), rest)
        case Fail => Fail
    else Fail
  }

  function ParseItems(t: Text): (r: Parsed<seq<Value>>)
    ensures r.Done? ==> |r.rest| < |t|
    decreases |t|, 1
  {
    match ParseValue(t)
    case Fail => Fail
    case Done(v, rest) =>
      if rest == [] then Fail
      else if rest[0] == RBRACKET then Done([v], rest[1..])
      else if rest[0] == COMMA then Cons(v, ParseItems(rest[1..]))
      else Fail
  }

  function ParseMembers(t: Text): (r: Parsed<seq<Keyed<Value>>>)
    ensures r.Done? ==> |r.rest| < |t|
    decreases |t|, 1
  {
    if t == [] || t[0] != QUOTE then Fail
    else
      match ParseChars(t[1..])
      case Fail => Fail
      case Done(key, colon) =>
        if colon == [] || colon[0] != COLON then Fail
        else
          match ParseValue(colon[1..])
          case Fail => Fail
          case Done(v, rest) =>
            if rest == [] then Fail
            else if rest[0] == RBRACE then Done([Keyed(key, v)], rest[1..])
            else if rest[0] == COMMA then Cons(Keyed(key, v), ParseMembers(rest[1..]))
            else Fail
  }

  /** A whole text: one value and nothing after it. */
  function Parse(t: Text): Parsed<Value>
  {
    match ParseValue(t)
    case Done(v, rest) => if rest == [] then Done(v, rest) else Fail
    case Fail => Fail
  }

  // ---------- what a round trip gives back ----------

  /** The value with members in key order throughout, and -0 read back as 0. */
  function Normal(v: Value): Value
    decreases v, 1
  {
    match v
    case Number(n) => Number(if n == NegZero then Finite(ZERO_TOKEN) else n)
    case Array(items) => Array(NormalItems(items))
    case Object(members) => Object(Sort(NormalMembers(members)))
    case _ => v
  }

  function NormalItems(items: seq<Value>): (r: seq<Value>)
    ensures |r| == |items|
    decreases items, 0
  {
    if items == [] then [] else [Normal(items[0])] + NormalItems(items[1..])
  }

  function NormalMembers(members: seq<Keyed<Value>>): (r: seq<Keyed<Value>>)
    ensures |r| == |members|
    decreases members, 0
  {
    if members == [] then []
    else [Keyed(members[0].key, Normal(members[0].item))] + NormalMembers(members[1..])
  }

  // ---------- strings ----------

  lemma Hex4Reads(u: CodeUnit, rest: Text)
    ensures FourHex(Hex4(u) + rest)
    ensures var h := Hex4(u) + rest;
            4096 * HexValue(h[0]) + 256 * HexValue(h[1]) + 16 * HexValue(h[2]) + HexValue(h[3]) == u
  {
    var d := Hex4(u);
    assert forall i | 0 <= i < 4 :: (d + rest)[i] == d[i];
    FourDigits(u);
  }

  /** A code unit is the value of its four hexadecimal digits. */
  lemma FourDigits(u: CodeUnit)
    ensures 4096 * (u / 4096) + 256 * (u / 256 % 16) + 16 * (u / 16 % 16) + u % 16 == u
  {
    var q := u / 16;
    var r := u / 256;
    assert r == q / 16 && u / 4096 == r / 16;
    assert u == 16 * q + u % 16 && q == 16 * r + q % 16 && r == 16 * (u / 4096) + r % 16;
  }

  lemma ParseLongEscape(u: CodeUnit, tail: Text)
    ensures ParseChars([BACKSLASH, 0x75] + (Hex4(u) + tail)) == Cons(u, ParseChars(tail))
  {
    var h := Hex4(u) + tail;
    var t := [BACKSLASH, 0x75] + h;
    assert t[2..] == h && t[2] == h[0] && t[3] == h[1] && t[4] == h[2] && t[5] == h[3];
    assert t[6..] == tail;
    Hex4Reads(u, tail);
  }

  lemma ParseEscapedUnit(u: CodeUnit, tail: Text)
    ensures ParseChars(EscapeUnit(u) + tail) == Cons(u, ParseChars(tail))
  {
    var e := EscapeUnit(u);
    var t := e + tail;
    if |e| == 6 {
      Associate([BACKSLASH, 0x75], Hex4(u), tail);
      ParseLongEscape(u, tail);
    } else {
      assert t[0] == e[0] && (|e| == 2 ==> t[1] == e[1]);
      assert t[|e|..] == tail;
    }
  }

  lemma ParsePair(hi: CodeUnit, lo: CodeUnit, tail: Text)
    requires IsHigh(hi) && IsLow(lo)
    ensures ParseChars([hi, lo] + tail) == Cons(hi, Cons(lo, ParseChars(tail)))
  {
    var t := [hi, lo] + tail;
    assert t[1..] == [lo] + tail && t[1..][1..] == tail;
  }

  lemma ConsBack(s: Text, body: Text, tail: Text, rest: Text)
    requires s != [] && ParseChars(body + tail) == Done(s[1..], rest)
    ensures Cons(s[0], ParseChars(body + tail)) == Done(s, rest)
  {
    assert [s[0]] + s[1..] == s;
  }

  lemma {:induction false} ParseQuoted(s: Text, rest: Text)
    ensures ParseChars(QuoteBody(s) + ([QUOTE] + rest)) == Done(s, rest)
  {
    var tail := [QUOTE] + rest;
    if s == [] {
      assert QuoteBody(s) + tail == tail && tail[1..] == rest;
    } else if CharWidth(s) == 2 {
      var body := QuoteBody(s[2..]);
      assert ParseChars(body + tail) == Done(s[1..][1..], rest) by {
        ParseQuoted(s[2..], rest);
        assert s[1..][1..] == s[2..];
      }
      ParsePair(s[0], s[1], body + tail);
      assert QuoteBody(s) + tail == [s[0], s[1]] + (body + tail) by {
        Associate([s[0], s[1]], body, tail);
      }
      ConsBack(s[1..], body, tail, rest);
      assert [s[0]] + s[1..] == s;
    } else {
      var body := QuoteBody(s[1..]);
      ParseQuoted(s[1..], rest);
      ParseEscapedUnit(s[0], body + tail);
      assert QuoteBody(s) + tail == EscapeUnit(s[0]) + (body + tail) by {
        Associate(EscapeUnit(s[0]), body, tail);
      }
      ConsBack(s, body, tail, rest);
    }
  }

  // ---------- numbers ----------

  /** What may follow a value: nothing, or a character that cannot continue a number. */
  predicate Delimited(rest: Text)
  {
    rest == [] || !IsNumberUnit(rest[0])
  }

  lemma {:induction false} NumberRunOfToken(token: Text, rest: Text)
    requires forall i :: 0 <= i < |token| ==> IsNumberUnit(token[i])
    requires Delimited(rest)
    ensures NumberRun(token + rest) == |token|
  {
    if token == [] {
      assert token + rest == rest;
    } else {
      NumberRunOfToken(token[1..], rest);
      assert (token + rest)[1..] == token[1..] + rest;
    }
  }

  // ---------- the round trip ----------

  ghost predicate ReadsBack(v: Value)
  {
    Serialize(v).Ok? ==>
      forall rest: Text :: Delimited(rest) ==> ParseValue(Serialize(v).text + rest) == Done(Normal(v), rest)
  }

  lemma Regroup(first: Text, comma: Text, others: Text, tail: Text)
    ensures (first + (comma + others)) + tail == first + (comma + (others + tail))
  {
  }

  lemma SerializeItemsCons(items: seq<Value>)
    requires items != []
    ensures SerializeItems(items) == [Serialize(items[0])] + SerializeItems(items[1..])
  {
  }

  lemma {:induction false} ItemsReadBack(items: seq<Value>, rest: Text)
    requires items != [] && JoinItems(SerializeItems(items)).Ok?
    requires forall i :: 0 <= i < |items| ==> ReadsBack(items[i])
    ensures ParseItems(JoinItems(SerializeItems(items)).text + ([RBRACKET] + rest)) == Done(NormalItems(items), rest)
  {
    var close := [RBRACKET] + rest;
    assert ReadsBack(items[0]);
    if |items| == 1 {
      assert Delimited(close) && close[1..] == rest;
      assert NormalItems(items) == [Normal(items[0])];
    } else {
      SerializeItemsCons(items);
      ItemsReadBack(items[1..], rest);
      var first, others := Serialize(items[0]).text, JoinItems(SerializeItems(items[1..])).text;
      var after := [COMMA] + (others + close);
      Regroup(first, [COMMA], others, close);
      assert Delimited(after) && after[1..] == others + close;
    }
  }

  lemma ReadString(s: Text, rest: Text)
    ensures ParseValue(SerializeString(s) + rest) == Done(String(s), rest)
    ensures (SerializeString(s) + rest)[0] == QUOTE
    ensures ParseChars((SerializeString(s) + rest)[1..]) == Done(s, rest)
  {
    var t := SerializeString(s) + rest;
    assert t[1..] == QuoteBody(s) + ([QUOTE] + rest);
    assert t[0] == QUOTE && LIT_NULL[0] != QUOTE && LIT_TRUE[0] != QUOTE && LIT_FALSE[0] != QUOTE;
    ParseQuoted(s, rest);
  }

  lemma ReadArray(inner: Text)
    ensures ParseValue([LBRACKET] + inner) ==
            if inner != [] && inner[0] == RBRACKET then Done(Array([]), inner[1..])
            else match ParseItems(inner)
                 case Done(items, rest) => Done(Array(items), rest)
                 case Fail => Fail
  {
    var t := [LBRACKET] + inner;
    assert t[0] == LBRACKET && LIT_NULL[0] != LBRACKET && LIT_TRUE[0] != LBRACKET && LIT_FALSE[0] != LBRACKET;
    assert t[1..] == inner;
    if inner != [] {
      assert t[1] == inner[0] && t[2..] == inner[1..];
    }
  }

  lemma ReadObject(inner: Text)
    ensures ParseValue([LBRACE] + inner) ==
            if inner != [] && inner[0] == RBRACE then Done(Object([]), inner[1..])
            else match ParseMembers(inner)
                 case Done(members, rest) => Done(Object(members), rest)
                 case Fail => Fail
  {
    var t := [LBRACE] + inner;
    assert t[0] == LBRACE && LIT_NULL[0] != LBRACE && LIT_TRUE[0] != LBRACE && LIT_FALSE[0] != LBRACE;
    assert t[1..] == inner;
    if inner != [] {
      assert t[1] == inner[0] && t[2..] == inner[1..];
    }
  }

  lemma ReadNumber(token: NumberToken, rest: Text)
    requires Delimited(rest)
    ensures ParseValue(token + rest) == Done(Number(Finite(token)), rest)
  {
    var t := token + rest;
    assert t[0] == token[0] && IsNumberUnit(t[0]);
    assert !IsNumberUnit(LIT_NULL[0]) && !IsNumberUnit(LIT_TRUE[0]) && !IsNumberUnit(LIT_FALSE[0]);
    NumberRunOfToken(token, rest);
    assert t[..|token|] == token && t[|token|..] == rest;
  }

  lemma ReadLiterals(rest: Text)
    ensures ParseValue(LIT_NULL + rest) == Done(Null, rest)
    ensures ParseValue(LIT_TRUE + rest) == Done(Boolean(true), rest)
    ensures ParseValue(LIT_FALSE + rest) == Done(Boolean(false), rest)
  {
    var n, t, f := LIT_NULL + rest, LIT_TRUE + rest, LIT_FALSE + rest;
    assert n[4..] == rest && t[4..] == rest && f[5..] == rest;
    assert t[0] != LIT_NULL[0] && f[0] != LIT_NULL[0] && f[0] != LIT_TRUE[0];
  }

  lemma MembersStep(t: Text, key: Text, colon: Text, v: Value, after: Text)
    requires t != [] && t[0] == QUOTE && ParseChars(t[1..]) == Done(key, colon)
    requires colon != [] && colon[0] == COLON && ParseValue(colon[1..]) == Done(v, after) && after != []
    ensures after[0] == RBRACE ==> ParseMembers(t) == Done([Keyed(key, v)], after[1..])
    ensures after[0] == COMMA ==> ParseMembers(t) == Cons(Keyed(key, v), ParseMembers(after[1..]))
  {
  }

  function MemberText(m: Keyed<Value>): Text
    requires Serialize(m.item).Ok?
  {
    SerializeString(m.key) + ([COLON] + Serialize(m.item).text)
  }

  /** One member is read, whatever delimiter follows it. */
  lemma MemberReadsBack(m: Keyed<Value>, after: Text)
    requires Serialize(m.item).Ok? && ReadsBack(m.item) && after != [] && Delimited(after)
    ensures var t := MemberText(m) + after;
            && (after[0] == RBRACE ==> ParseMembers(t) == Done([Keyed(m.key, Normal(m.item))], after[1..]))
            && (after[0] == COMMA ==> ParseMembers(t) == Cons(Keyed(m.key, Normal(m.item)), ParseMembers(after[1..])))
  {
    var key, text := SerializeString(m.key), Serialize(m.item).text;
    var colon := [COLON] + (text + after);
    Regroup(key, [COLON], text, after);
    ReadString(m.key, colon);
    assert colon[0] == COLON && colon[1..] == text + after;
    MembersStep(key + colon, m.key, colon, Normal(m.item), after);
  }

  lemma JoinMembersText(key: Text, first: Outcome, others: seq<Keyed<Outcome>>)
    requires others != [] && JoinMembers([Keyed(key, first)] + others).Ok?
    ensures first.Ok? && JoinMembers(others).Ok?
    ensures JoinMembers([Keyed(key, first)] + others).text ==
            SerializeString(key) + ([COLON] + first.text) + ([COMMA] + JoinMembers(others).text)
  {
    assert ([Keyed(key, first)] + others)[1..] == others;
  }

  lemma SerializeMembersCons(members: seq<Keyed<Value>>)
    requires members != []
    ensures SerializeMembers(members) ==
            [Keyed(members[0].key, Serialize(members[0].item))] + SerializeMembers(members[1..])
  {
  }

  lemma {:induction false} MembersReadBack(members: seq<Keyed<Value>>, rest: Text)
    requires members != [] && JoinMembers(SerializeMembers(members)).Ok?
    requires forall i :: 0 <= i < |members| ==> ReadsBack(members[i].item)
    ensures ParseMembers(JoinMembers(SerializeMembers(members)).text + ([RBRACE] + rest))
            == Done(NormalMembers(members), rest)
  {
    var m, close := members[0], [RBRACE] + rest;
    assert ReadsBack(m.item);
    if |members| == 1 {
      assert close[1..] == rest;
      MemberReadsBack(m, close);
      assert NormalMembers(members) == [Keyed(m.key, Normal(m.item))];
    } else {
      SerializeMembersCons(members);
      JoinMembersText(m.key, Serialize(m.item), SerializeMembers(members[1..]));
      MembersReadBack(members[1..], rest);
      var others := JoinMembers(SerializeMembers(members[1..])).text;
      var after := [COMMA] + (others + close);
      Regroup(MemberText(m), [COMMA], others, close);
      assert after[1..] == others + close;
      MemberReadsBack(m, after);
    }
  }

  lemma {:induction false} SerializeInsert(m: Keyed<Value>, s: seq<Keyed<Value>>)
    ensures SerializeMembers(Insert(m, s)) == Insert(Keyed(m.key, Serialize(m.item)), SerializeMembers(s))
  {
    if s != [] && !Less(m.key, s[0].key) {
      SerializeInsert(m, s[1..]);
    }
  }

  /** Printing the sorted members is sorting the printed members. */
  lemma {:induction false} SerializeSorted(s: seq<Keyed<Value>>)
    ensures SerializeMembers(Sort(s)) == Sort(SerializeMembers(s))
  {
    if s != [] {
      SerializeSorted(s[1..]);
      SerializeInsert(s[0], Sort(s[1..]));
    }
  }

  lemma {:induction false} NormalInsert(m: Keyed<Value>, s: seq<Keyed<Value>>)
    ensures NormalMembers(Insert(m, s)) == Insert(Keyed(m.key, Normal(m.item)), NormalMembers(s))
  {
    if s != [] && !Less(m.key, s[0].key) {
      NormalInsert(m, s[1..]);
    }
  }

  lemma {:induction false} NormalSorted(s: seq<Keyed<Value>>)
    ensures NormalMembers(Sort(s)) == Sort(NormalMembers(s))
  {
    if s != [] {
      NormalSorted(s[1..]);
      NormalInsert(s[0], Sort(s[1..]));
    }
  }

  lemma TextEnclosed(open: CodeUnit, body: Text, close: CodeUnit, rest: Text)
    ensures ([open] + body + [close]) + rest == [open] + (body + ([close] + rest))
  {
  }

  lemma ArrayReadsBack(items: seq<Value>, rest: Text)
    requires forall i :: 0 <= i < |items| ==> ReadsBack(items[i])
    requires Serialize(Array(items)).Ok?
    ensures ParseValue(Serialize(Array(items)).text + rest) == Done(Normal(Array(items)), rest)
  {
    var body, after := JoinItems(SerializeItems(items)).text, [RBRACKET] + rest;
    TextEnclosed(LBRACKET, body, RBRACKET, rest);
    ReadArray(body + after);
    if items == [] {
      assert body + after == after && after[1..] == rest;
    } else {
      FirstOfItems(items, after);
      ItemsReadBack(items, rest);
    }
  }

  lemma FirstOfItems(items: seq<Value>, rest: Text)
    requires items != [] && JoinItems(SerializeItems(items)).Ok?
    ensures var t := JoinItems(SerializeItems(items)).text + rest; t != [] && t[0] != RBRACKET
  {
    assert Serialize(items[0]).text + [] == Serialize(items[0]).text;
  }

  lemma SortedReadBack(members: seq<Keyed<Value>>)
    requires forall i :: 0 <= i < |members| ==> ReadsBack(members[i].item)
    ensures forall i :: 0 <= i < |Sort(members)| ==> ReadsBack(Sort(members)[i].item)
  {
    var sorted := Sort(members);
    SortElements(members);
    forall i | 0 <= i < |sorted| ensures ReadsBack(sorted[i].item) {
      var m := sorted[i];
      assert m in sorted && m in members;
      var j :| 0 <= j < |members| && members[j] == m;
    }
  }

  lemma ObjectReadsBack(members: seq<Keyed<Value>>, rest: Text)
    requires forall i :: 0 <= i < |members| ==> ReadsBack(members[i].item)
    requires Serialize(Object(members)).Ok?
    ensures ParseValue(Serialize(Object(members)).text + rest) == Done(Normal(Object(members)), rest)
  {
    var sorted := Sort(members);
    SerializeSorted(members);
    NormalSorted(members);
    SortElements(members);
    SortedReadBack(members);
    var body, after := JoinMembers(SerializeMembers(sorted)).text, [RBRACE] + rest;
    TextEnclosed(LBRACE, body, RBRACE, rest);
    ReadObject(body + after);
    if members == [] {
      assert body + after == after && after[1..] == rest;
    } else {
      FirstOfMembers(sorted, after);
      MembersReadBack(sorted, rest);
    }
  }

  lemma FirstOfMembers(members: seq<Keyed<Value>>, rest: Text)
    requires members != [] && JoinMembers(SerializeMembers(members)).Ok?
    ensures var t := JoinMembers(SerializeMembers(members)).text + rest; t != [] && t[0] == QUOTE
  {
    assert SerializeString(members[0].key)[0] == QUOTE;
  }

  /** Reading canonical text gives the value back, and leaves what follows it untouched. */
  lemma {:induction false} RoundTrip(v: Value)
    ensures ReadsBack(v)
  {
    if Serialize(v).Ok? {
      forall rest: Text | Delimited(rest)
        ensures ParseValue(Serialize(v).text + rest) == Done(Normal(v), rest)
      {
        match v
        case Array(items) =>
          forall i | 0 <= i < |items| ensures ReadsBack(items[i]) {
            RoundTrip(items[i]);
          }
          ArrayReadsBack(items, rest);
        case Object(members) =>
          forall i | 0 <= i < |members| ensures ReadsBack(members[i].item) {
            RoundTrip(members[i].item);
          }
          ObjectReadsBack(members, rest);
        case String(s) => ReadString(s, rest);
        case Number(n) => ReadNumber(Serialize(v).text, rest);
        case _ => ReadLiterals(rest);
      }
    }
  }

  /** The whole-text form: `Parse` is a left inverse of `Canonicalize` up to `Normal`. */
  lemma ParseCanonicalize(v: Value)
    requires Canonicalize(v).Ok?
    ensures Parse(Canonicalize(v).text) == Done(Normal(v), [])
  {
    RoundTrip(v);
    assert Delimited([]);
    var t := Serialize(v).text;
    assert t + [] == t;
  }
}
