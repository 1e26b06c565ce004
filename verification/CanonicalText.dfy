/** What canonical text looks like, said of the text itself: the order of keys, and how short its strings are. */
module CanonicalText {
  import opened Encoding
  import opened Keyed
  import opened Canonical
  import opened CanonicalParser
  import opened CanonicalEquality

  // ---------- the order of keys ----------

  /** Each key precedes every later one: a smaller code unit at the first difference, or an end before it. */
  ghost predicate InOrder(members: seq<Keyed<Value>>)
  {
    forall i, j :: 0 <= i < j < |members| ==> Before(members[i].key, members[j].key)
  }

  ghost predicate AllInOrder(v: Value)
  {
    match v
    case Array(items) => forall i :: 0 <= i < |items| ==> AllInOrder(items[i])
    case Object(members) => InOrder(members) && forall i :: 0 <= i < |members| ==> AllInOrder(members[i].item)
    case _ => true
  }

  lemma SortedIsInOrder(members: seq<Keyed<Value>>)
    requires Sorted(members)
    ensures InOrder(members)
  {
    forall i, j | 0 <= i < j < |members| ensures Before(members[i].key, members[j].key) {
      assert Less(members[i].key, members[j].key);
      LessIff(members[i].key, members[j].key);
    }
  }

  lemma {:induction false} NormalIsInOrder(v: Value)
    requires Proper(v)
    ensures AllInOrder(Normal(v))
  {
    match v
    case Array(items) =>
      forall i | 0 <= i < |items| ensures AllInOrder(NormalItems(items)[i]) {
        NormalItemsAt(items, i);
        NormalIsInOrder(items[i]);
      }
    case Object(members) =>
      var normal := NormalMembers(members);
      NormalMembersDistinct(members);
      SortSorted(normal);
      SortElements(normal);
      SortedIsInOrder(Sort(normal));
      forall m | m in normal ensures AllInOrder(m.item) {
        var i :| 0 <= i < |normal| && normal[i] == m;
        NormalMembersAt(members, i);
        NormalIsInOrder(members[i].item);
      }
    case _ =>
  }

  /** In the order in which they stand in the text, the keys of every object, at any depth, ascend. */
  lemma PrintedInOrder(v: Value)
    requires Proper(v) && Canonicalize(v).Ok?
    ensures Parse(Canonicalize(v).text).Done? && AllInOrder(Parse(Canonicalize(v).text).value)
  {
    ParseCanonicalize(v);
    NormalIsInOrder(v);
  }

  // ---------- strings ----------

  /** The least a code unit takes in a JSON string. */
  function Cost(u: CodeUnit): nat
  {
    if u in {0x22, 0x5C, 0x08, 0x09, 0x0A, 0x0C, 0x0D} then 2 else if u < 0x20 then 6 else 1
  }

  function Costs(s: Text): nat { if s == [] then 0 else Cost(s[0]) + Costs(s[1..]) }

  lemma {:induction false} QuoteBodyCosts(s: Text)
    requires WellFormed(s)
    ensures |QuoteBody(s)| == Costs(s)
  {
    if s != [] {
      if CharWidth(s) == 2 {
        QuoteBodyCosts(s[2..]);
        assert s[1..][1..] == s[2..];
        assert Costs(s[1..]) == Cost(s[1]) + Costs(s[2..]);
      } else {
        QuoteBodyCosts(s[1..]);
      }
    }
  }

  lemma {:induction false} ReadingCosts(t: Text)
    requires ParseChars(t).Done?
    ensures Costs(ParseChars(t).value) + 1 + |ParseChars(t).rest| <= |t|
    decreases |t|
  {
    if t[0] != QUOTE {
      var s := ParseChars(t).value;
      if t[0] != BACKSLASH {
        ReadingCosts(t[1..]);
        assert s[1..] == ParseChars(t[1..]).value;
      } else if t[1] == 0x75 {
        ReadingCosts(t[6..]);
        assert s[1..] == ParseChars(t[6..]).value;
      } else {
        ReadingCosts(t[2..]);
        assert s[1..] == ParseChars(t[2..]).value;
      }
    }
  }

  /** No JSON text for a string without lone surrogates is shorter: only what must be escaped is. */
  lemma EscapesAreShortest(s: Text, t: Text)
    requires WellFormed(s) && ParseChars(t) == Done(s, [])
    ensures |SerializeString(s)| <= |[QUOTE] + t|
  {
    QuoteBodyCosts(s);
    ReadingCosts(t);
  }

  // ---------- one text, spelled out ----------

  const LINE: Text := Units("x") + [0x0A]

  /** Two members inserted the wrong way round. */
  lemma PrintsTwo(k: Text, v: Value, l: Text, w: Value)
    requires Less(l, k) && Serialize(v).Ok? && Serialize(w).Ok?
    ensures Canonicalize(Object([Keyed(k, v), Keyed(l, w)])) ==
            Outcome.Ok([LBRACE] + ((SerializeString(l) + ([COLON] + Serialize(w).text))
                                   + ([COMMA] + (SerializeString(k) + ([COLON] + Serialize(v).text)))) + [RBRACE])
  {
    var members := [Keyed(k, v), Keyed(l, w)];
    var a, b := Keyed(l, Serialize(w)), Keyed(k, Serialize(v));
    assert members[0] == Keyed(k, v) && members[1] == Keyed(l, w);
    CanonicalizeObject(members);
    SerializesTwo(members, a, b);
    SortsTwo(a, b);
    JoinsTwo(a, b);
  }

  lemma CanonicalizeObject(members: seq<Keyed<Value>>)
    ensures Canonicalize(Object(members)) == Enclose(LBRACE, JoinMembers(Sort(SerializeMembers(members))), RBRACE)
  {
  }

  lemma SerializesTwo(members: seq<Keyed<Value>>, a: Keyed<Outcome>, b: Keyed<Outcome>)
    requires |members| == 2
    requires a == Keyed(members[1].key, Serialize(members[1].item)) && b == Keyed(members[0].key, Serialize(members[0].item))
    ensures SerializeMembers(members) == [b, a]
  {
    assert members[1..][1..] == [];
    assert SerializeMembers(members[1..]) == [a];
  }

  lemma SortsTwo(a: Keyed<Outcome>, b: Keyed<Outcome>)
    requires Less(a.key, b.key)
    ensures Sort([b, a]) == [a, b]
  {
    var none: seq<Keyed<Outcome>> := [];
    LessAsymmetric(a.key, b.key);
    assert [b, a][1..] == [a] && [a][1..] == none;
    assert Sort(none) == none && Insert(a, none) == [a] && Sort([a]) == [a];
    assert Insert(b, none) == [b] && Insert(b, [a]) == [a] + Insert(b, none);
  }

  lemma JoinsTwo(a: Keyed<Outcome>, b: Keyed<Outcome>)
    requires a.item.Ok? && b.item.Ok?
    ensures JoinMembers([a, b]) ==
            Outcome.Ok((SerializeString(a.key) + ([COLON] + a.item.text))
                       + ([COMMA] + (SerializeString(b.key) + ([COLON] + b.item.text))))
  {
    assert [a, b][1..] == [b];
    assert JoinMembers([b]) == Outcome.Ok(SerializeString(b.key) + ([COLON] + b.item.text));
  }

  lemma PrintsItems(v: Value, w: Value)
    requires Serialize(v).Ok? && Serialize(w).Ok?
    ensures Serialize(Array([v, w])) == Outcome.Ok([LBRACKET] + (Serialize(v).text + ([COMMA] + Serialize(w).text)) + [RBRACKET])
  {
    var items := [v, w];
    assert items[1..] == [w] && items[1..][1..] == [];
    assert SerializeItems(items[1..]) == [Serialize(w)];
    var printed := SerializeItems(items);
    assert printed == [Serialize(v), Serialize(w)] && printed[1..] == [Serialize(w)];
    assert JoinItems(printed[1..]) == Serialize(w);
  }

  /** An object with two members, the first inserted last; -0 is 0, and a line feed is escaped. */
  lemma PrintsForInstance()
    ensures Canonicalize(Object([Keyed(Units("b"), Array([Null, Number(NegZero)])), Keyed(Units("a"), String(LINE))]))
            == Outcome.Ok(Units("{\"a\":\"x\\n\",\"b\":[null,0]}"))
  {
    var items := Array([Null, Number(NegZero)]);
    PrintsItems(Null, Number(NegZero));
    StringsForInstance();
    PrintsTwo(Units("b"), items, Units("a"), String(LINE));
    Spelled(Serialize(items).text, SerializeString(LINE));
  }

  lemma Spelled(items: Text, line: Text)
    requires items == [LBRACKET] + (LIT_NULL + ([COMMA] + ZERO_TOKEN)) + [RBRACKET] && line == Units("\"x\\n\"")
    ensures [LBRACE] + ((Units("\"a\"") + ([COLON] + line)) + ([COMMA] + (Units("\"b\"") + ([COLON] + items)))) + [RBRACE]
            == Units("{\"a\":\"x\\n\",\"b\":[null,0]}")
  {
    assert |LIT_NULL| == 4 && |line| == 5;
  }

  lemma StringsForInstance()
    ensures SerializeString(Units("a")) == Units("\"a\"") && SerializeString(Units("b")) == Units("\"b\"")
    ensures SerializeString(LINE) == Units("\"x\\n\"")
  {
    OneLetter(Units("a"));
    OneLetter(Units("b"));
    assert LINE == [0x78, 0x0A] && LINE[1..] == [0x0A] && LINE[1..][1..] == [];
    assert QuoteBody(LINE[1..]) == [BACKSLASH, 0x6E] + QuoteBody([]);
    assert QuoteBody(LINE) == [0x78] + QuoteBody(LINE[1..]);
  }

  lemma OneLetter(t: Text)
    requires |t| == 1 && 0x61 <= t[0] <= 0x7A
    ensures SerializeString(t) == [QUOTE, t[0], QUOTE]
  {
    assert t[1..] == [];
    assert QuoteBody(t) == [t[0]] + QuoteBody([]);
  }
}
