/** The canonical printer of packages/ledger-client/src/canonical.ts (RFC 8785). */
module Canonical {
  import opened Encoding
  import opened Keyed

  // ---------- values ----------

  /** Every character Number::toString can produce for a finite number. */
  predicate IsNumberUnit(u: CodeUnit)
  {
    0x30 <= u <= 0x39 || u == 0x2B || u == 0x2D || u == 0x2E || u == 0x65
  }

  const ZERO_TOKEN: Text := [0x30]

  type NumberToken = t: Text | t != [] && forall i :: 0 <= i < |t| ==> IsNumberUnit(t[i]) witness ZERO_TOKEN

  /**
   * A double. Number::toString is one-to-one on finite doubles apart from -0, so a finite double is
   * identified with the token it prints as; only the token's alphabet is used.
   */
  datatype Number = NaN | PosInfinity | NegInfinity | NegZero | Finite(token: NumberToken)

  /** What `typeof` and the two instance tests can tell apart. An object lists members as inserted. */
  datatype Value =
    | Null
    | Boolean(b: bool)
    | Number(n: Number)
    | String(s: Text)
    | Array(items: seq<Value>)
    | Object(members: seq<Keyed<Value>>)
    | BigInt
    | Undefined
    | Function
    | Symbol
    | Date

  datatype Refusal = NotFinite | BigIntRefused | UndefinedRefused | CodeRefused | DateRefused

  datatype Outcome = Ok(text: Text) | Refused(why: Refusal)

  // ---------- the printer ----------

  const QUOTE := 0x22
  const BACKSLASH := 0x5C
  const COMMA := 0x2C
  const COLON := 0x3A
  const LBRACKET := 0x5B
  const RBRACKET := 0x5D
  const LBRACE := 0x7B
  const RBRACE := 0x7D
  const LIT_NULL: Text := [0x6E, 0x75, 0x6C, 0x6C]
  const LIT_TRUE: Text := [0x74, 0x72, 0x75, 0x65]
  const LIT_FALSE: Text := [0x66, 0x61, 0x6C, 0x73, 0x65]

  function Hex4(u: CodeUnit): (t: Text)
    ensures |t| == 4
  {
    [HexDigit(u / 4096), HexDigit(u / 256 % 16), HexDigit(u / 16 % 16), HexDigit(u % 16)]
  }

  /** One code unit that is not half of a surrogate pair, as JSON.stringify writes it. */
  function EscapeUnit(u: CodeUnit): Text
  {
    if u == QUOTE || u == BACKSLASH then [BACKSLASH, u]
    else if u == 0x08 then [BACKSLASH, 0x62]
    else if u == 0x09 then [BACKSLASH, 0x74]
    else if u == 0x0A then [BACKSLASH, 0x6E]
    else if u == 0x0C then [BACKSLASH, 0x66]
    else if u == 0x0D then [BACKSLASH, 0x72]
    else if u < 0x20 || IsHigh(u) || IsLow(u) then [BACKSLASH, 0x75] + Hex4(u)
    else [u]
  }

  function QuoteBody(s: Text): Text
  {
    if s == [] then []
    else if CharWidth(s) == 2 then [s[0], s[1]] + QuoteBody(s[2..])
    else EscapeUnit(s[0]) + QuoteBody(s[1..])
  }

  function SerializeString(s: Text): Text { [QUOTE] + QuoteBody(s) + [QUOTE] }

  function SerializeNumber(n: Number): Outcome
  {
    match n
    case Finite(token) => Ok(token)
    case NegZero => Ok(ZERO_TOKEN)
    case _ => Refused(NotFinite)
  }

  /** `items.join(',')`, unless some item was refused: then the first refusal is thrown. */
  function JoinItems(items: seq<Outcome>): Outcome
  {
    if items == [] then Ok([])
    else if items[0].Refused? || |items| == 1 then items[0]
    else
      match JoinItems(items[1..])
      case Ok(rest) => Ok(items[0].text + ([COMMA] + rest))
      case refused => refused
  }

  function JoinMembers(members: seq<Keyed<Outcome>>): Outcome
  {
    if members == [] then Ok([])
    else if members[0].item.Refused? then members[0].item
    else
      var member := SerializeString(members[0].key) + ([COLON] + members[0].item.text);
      if |members| == 1 then Ok(member)
      else
        match JoinMembers(members[1..])
        case Ok(rest) => Ok(member + ([COMMA] + rest))
        case refused => refused
  }

  function Enclose(open: CodeUnit, body: Outcome, close: CodeUnit): Outcome
  {
    match body
    case Ok(text) => Ok([open] + text + [close])
    case refused => refused
  }

  function Serialize(v: Value): Outcome
    decreases v, 1
  {
    match v
    case Null => Ok(LIT_NULL)
    case Boolean(b) => Ok(if b then LIT_TRUE else LIT_FALSE)
    case Number(n) => SerializeNumber(n)
    case String(s) => Ok(SerializeString(s))
    case BigInt => Refused(BigIntRefused)
    case Undefined => Refused(UndefinedRefused)
    case Function => Refused(CodeRefused)
    case Symbol => Refused(CodeRefused)
    case Array(items) => Enclose(LBRACKET, JoinItems(SerializeItems(items)), RBRACKET)
    case Date => Refused(DateRefused)
    case Object(members) => Enclose(LBRACE, JoinMembers(Sort(SerializeMembers(members))), RBRACE)
  }

  function SerializeItems(items: seq<Value>): (r: seq<Outcome>)
    ensures |r| == |items|
    decreases items, 0
  {
    if items == [] then [] else [Serialize(items[0])] + SerializeItems(items[1..])
  }

  function SerializeMembers(members: seq<Keyed<Value>>): (r: seq<Keyed<Outcome>>)
    ensures |r| == |members|
    decreases members, 0
  {
    if members == [] then []
    else [Keyed(members[0].key, Serialize(members[0].item))] + SerializeMembers(members[1..])
  }

  function Canonicalize(v: Value): Outcome { Serialize(v) }

  // ---------- what is refused ----------

  /** Everything below is null, a boolean, a finite number, a string, an array or a plain object. */
  predicate Canonicalizable(v: Value)
  {
    match v
    case Number(n) => n.Finite? || n.NegZero?
    case Array(items) => forall i :: 0 <= i < |items| ==> Canonicalizable(items[i])
    case Object(members) => forall i :: 0 <= i < |members| ==> Canonicalizable(members[i].item)
    case Null | Boolean(_) | String(_) => true
    case _ => false
  }

  lemma {:induction false} JoinItemsOk(items: seq<Outcome>)
    ensures JoinItems(items).Ok? <==> forall i :: 0 <= i < |items| ==> items[i].Ok?
  {
    if items != [] {
      JoinItemsOk(items[1..]);
      assert forall i | 1 <= i < |items| :: items[i] == items[1..][i - 1];
      assert forall i | 0 <= i < |items| - 1 :: items[1..][i] == items[i + 1];
    }
  }

  lemma {:induction false} JoinMembersOk(members: seq<Keyed<Outcome>>)
    ensures JoinMembers(members).Ok? <==> forall m :: m in members ==> m.item.Ok?
  {
    if members != [] {
      JoinMembersOk(members[1..]);
      assert members[0] in members;
      assert forall m :: m in members <==> m == members[0] || m in members[1..];
    }
  }

  lemma {:induction false} SerializeItemsAt(items: seq<Value>, i: nat)
    requires i < |items|
    ensures SerializeItems(items)[i] == Serialize(items[i])
  {
    if i > 0 {
      SerializeItemsAt(items[1..], i - 1);
    }
  }

  lemma {:induction false} SerializeMembersAt(members: seq<Keyed<Value>>, i: nat)
    requires i < |members|
    ensures SerializeMembers(members)[i] == Keyed(members[i].key, Serialize(members[i].item))
  {
    if i > 0 {
      SerializeMembersAt(members[1..], i - 1);
    }
  }

  /** Refusing is exact: text comes out if and only if nothing in the value loses information in JSON. */
  lemma {:induction false} SucceedsIffCanonicalizable(v: Value)
    ensures Serialize(v).Ok? <==> Canonicalizable(v)
  {
    match v
    case Array(items) =>
      JoinItemsOk(SerializeItems(items));
      forall i | 0 <= i < |items| ensures SerializeItems(items)[i].Ok? <==> Canonicalizable(items[i]) {
        SerializeItemsAt(items, i);
        SucceedsIffCanonicalizable(items[i]);
      }
    case Object(members) =>
      var printed := SerializeMembers(members);
      SortElements(printed);
      JoinMembersOk(Sort(printed));
      forall i | 0 <= i < |members| ensures printed[i].item.Ok? <==> Canonicalizable(members[i].item) {
        SerializeMembersAt(members, i);
        SucceedsIffCanonicalizable(members[i].item);
      }
      if Canonicalizable(v) {
        assert forall m :: m in Sort(printed) ==> m in printed;
      } else {
        var i :| 0 <= i < |members| && !Canonicalizable(members[i].item);
        assert printed[i] in printed && printed[i] in Sort(printed);
      }
    case _ =>
  }

  /** Why each of the others is refused. */
  lemma RefusedBecause()
    ensures Canonicalize(BigInt) == Refused(BigIntRefused) && Canonicalize(Undefined) == Refused(UndefinedRefused)
    ensures Canonicalize(Function) == Canonicalize(Symbol) == Refused(CodeRefused) && Canonicalize(Date) == Refused(DateRefused)
    ensures Canonicalize(Number(NaN)) == Canonicalize(Number(PosInfinity)) == Canonicalize(Number(NegInfinity))
    ensures Canonicalize(Number(NaN)) == Refused(NotFinite)
  {
  }

  // ---------- the text itself ----------

  /** No control characters, so no line feed, and no lone surrogates. */
  predicate Clean(t: Text)
  {
    WellFormed(t) && forall i :: 0 <= i < |t| ==> t[i] >= 0x20
  }

  lemma CleanConcat(t: Text, u: Text)
    requires Clean(t) && Clean(u)
    ensures Clean(t + u)
  {
    WellFormedConcat(t, u);
  }

  lemma PrintableIsClean(t: Text)
    requires Printable(t)
    ensures Clean(t)
  {
    PrintableIsWellFormed(t);
  }

  lemma EscapeUnitIsClean(u: CodeUnit)
    ensures !(IsHigh(u) || IsLow(u)) && u >= 0xE000 ==> Clean(EscapeUnit(u))
    ensures u < 0xE000 ==> Printable(EscapeUnit(u)) && Clean(EscapeUnit(u))
  {
    if u >= 0xE000 {
      assert [u][1..] == [];
    } else {
      PrintableIsClean(EscapeUnit(u));
    }
  }

  /** Pairs stay pairs and everything else is escaped, whatever code units go in. */
  lemma {:induction false} QuoteBodyIsClean(s: Text)
    ensures Clean(QuoteBody(s))
  {
    if s == [] {
    } else if CharWidth(s) == 2 {
      QuoteBodyIsClean(s[2..]);
      var pair := [s[0], s[1]];
      assert CharWidth(pair) == 2 && pair[2..] == [];
      CleanConcat(pair, QuoteBody(s[2..]));
    } else {
      QuoteBodyIsClean(s[1..]);
      EscapeUnitIsClean(s[0]);
      CleanConcat(EscapeUnit(s[0]), QuoteBody(s[1..]));
    }
  }

  lemma SerializeStringIsClean(s: Text)
    ensures Clean(SerializeString(s))
  {
    QuoteBodyIsClean(s);
    PrintableIsClean([QUOTE]);
    CleanConcat([QUOTE], QuoteBody(s));
    CleanConcat([QUOTE] + QuoteBody(s), [QUOTE]);
  }

  ghost predicate CleanOutcome(o: Outcome) { o.Ok? ==> Clean(o.text) }

  lemma {:induction false} JoinItemsIsClean(items: seq<Outcome>)
    requires forall i :: 0 <= i < |items| ==> CleanOutcome(items[i])
    ensures CleanOutcome(JoinItems(items))
  {
    if |items| > 1 && items[0].Ok? {
      JoinItemsIsClean(items[1..]);
      var rest := JoinItems(items[1..]);
      if rest.Ok? {
        PrintableIsClean([COMMA]);
        CleanConcat([COMMA], rest.text);
        CleanConcat(items[0].text, [COMMA] + rest.text);
      }
    }
  }

  lemma {:induction false} JoinMembersIsClean(members: seq<Keyed<Outcome>>)
    requires forall m :: m in members ==> CleanOutcome(m.item)
    ensures CleanOutcome(JoinMembers(members))
  {
    if members != [] && members[0].item.Ok? {
      assert members[0] in members;
      var key := SerializeString(members[0].key);
      SerializeStringIsClean(members[0].key);
      PrintableIsClean([COLON]);
      CleanConcat([COLON], members[0].item.text);
      CleanConcat(key, [COLON] + members[0].item.text);
      var member := key + ([COLON] + members[0].item.text);
      if |members| > 1 {
        JoinMembersIsClean(members[1..]);
        var rest := JoinMembers(members[1..]);
        if rest.Ok? {
          PrintableIsClean([COMMA]);
          CleanConcat([COMMA], rest.text);
          CleanConcat(member, [COMMA] + rest.text);
        }
      }
    }
  }

  lemma EncloseIsClean(open: CodeUnit, body: Outcome, close: CodeUnit)
    requires CleanOutcome(body) && Printable([open]) && Printable([close])
    ensures CleanOutcome(Enclose(open, body, close))
  {
    if body.Ok? {
      PrintableIsClean([open]);
      PrintableIsClean([close]);
      CleanConcat([open], body.text);
      CleanConcat([open] + body.text, [close]);
    }
  }

  /** Canonical text never holds a raw line feed or any control character, nor a lone surrogate. */
  lemma {:induction false} SerializeIsClean(v: Value)
    ensures CleanOutcome(Serialize(v))
  {
    match v
    case Null => PrintableIsClean(LIT_NULL);
    case Boolean(b) => PrintableIsClean(if b then LIT_TRUE else LIT_FALSE);
    case Number(n) =>
      if n.Finite? || n.NegZero? {
        PrintableIsClean(SerializeNumber(n).text);
      }
    case String(s) => SerializeStringIsClean(s);
    case Array(items) =>
      forall i | 0 <= i < |items| ensures CleanOutcome(SerializeItems(items)[i]) {
        SerializeItemsAt(items, i);
        SerializeIsClean(items[i]);
      }
      JoinItemsIsClean(SerializeItems(items));
      EncloseIsClean(LBRACKET, JoinItems(SerializeItems(items)), RBRACKET);
    case Object(members) =>
      var printed := SerializeMembers(members);
      SortElements(printed);
      forall m | m in Sort(printed) ensures CleanOutcome(m.item) {
        assert m in printed;
        var i :| 0 <= i < |printed| && printed[i] == m;
        SerializeMembersAt(members, i);
        SerializeIsClean(members[i].item);
      }
      JoinMembersIsClean(Sort(printed));
      EncloseIsClean(LBRACE, JoinMembers(Sort(printed)), RBRACE);
    case _ =>
  }
}
