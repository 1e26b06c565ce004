/** What packages/ledger-client/src/canonical.ts prints for an array with holes: map skips them, join writes nothing. */
module SparseArrays {
  import opened Encoding
  import opened Canonical
  import opened CanonicalParser

  datatype Element = Hole | Item(value: Value)

  function SerializeElements(elements: seq<Element>): (r: seq<Outcome>)
    ensures |r| == |elements|
  {
    if elements == [] then []
    else
      [if elements[0].Hole? then Outcome.Ok([]) else Serialize(elements[0].value)] + SerializeElements(elements[1..])
  }

  function SerializeSparse(elements: seq<Element>): Outcome
  {
    Enclose(LBRACKET, JoinItems(SerializeElements(elements)), RBRACKET)
  }

  predicate HasHole(elements: seq<Element>) { exists i :: 0 <= i < |elements| && elements[i].Hole? }

  function Filled(values: seq<Value>): (r: seq<Element>)
    ensures |r| == |values| && forall i :: 0 <= i < |r| ==> r[i] == Item(values[i])
  {
    seq(|values|, i requires 0 <= i < |values| => Item(values[i]))
  }

  /** Without holes this is the printer of arrays. */
  lemma {:induction false} SerializeFilled(values: seq<Value>)
    ensures SerializeElements(Filled(values)) == SerializeItems(values)
  {
    if values != [] {
      SerializeFilled(values[1..]);
      assert Filled(values)[1..] == Filled(values[1..]);
    }
  }

  lemma HoleFails(first: CodeUnit, t: Text)
    requires first == COMMA || first == RBRACKET
    ensures ParseItems([first] + t) == Fail
  {
    assert ([first] + t)[0] == first;
    assert LIT_NULL[0] != first && LIT_TRUE[0] != first && LIT_FALSE[0] != first;
    assert ParseValue([first] + t) == Fail;
  }

  lemma {:induction false} HolesFail(elements: seq<Element>, rest: Text)
    requires HasHole(elements) && JoinItems(SerializeElements(elements)).Ok?
    ensures ParseItems(JoinItems(SerializeElements(elements)).text + ([RBRACKET] + rest)) == Fail
  {
    var close, others := [RBRACKET] + rest, elements[1..];
    assert SerializeElements(elements)[1..] == SerializeElements(others);
    if elements[0].Hole? {
      HoleFirst(elements, rest);
    } else {
      assert HasHole(others) by {
        var i :| 0 <= i < |elements| && elements[i].Hole?;
        assert others[i - 1].Hole?;
      }
      HolesFail(others, rest);
      ItemThenFail(elements[0].value, JoinItems(SerializeElements(others)).text, close);
    }
  }

  lemma HoleFirst(elements: seq<Element>, rest: Text)
    requires elements != [] && elements[0].Hole? && JoinItems(SerializeElements(elements)).Ok?
    ensures ParseItems(JoinItems(SerializeElements(elements)).text + ([RBRACKET] + rest)) == Fail
  {
    var text, close := JoinItems(SerializeElements(elements)).text, [RBRACKET] + rest;
    if |elements| == 1 {
      assert text + close == close;
      HoleFails(RBRACKET, rest);
    } else {
      var others := text[1..];
      assert text == [COMMA] + others && text + close == [COMMA] + (others + close);
      HoleFails(COMMA, others + close);
    }
  }

  lemma ItemThenFail(v: Value, others: Text, close: Text)
    requires Serialize(v).Ok? && ParseItems(others + close) == Fail
    ensures ParseItems((Serialize(v).text + ([COMMA] + others)) + close) == Fail
  {
    RoundTrip(v);
    var after := [COMMA] + (others + close);
    Regroup(Serialize(v).text, [COMMA], others, close);
    assert Delimited(after) && after[1..] == others + close;
    assert ParseValue(Serialize(v).text + after) == Done(Normal(v), after);
  }

  lemma HoleyIsUnreadable(elements: seq<Element>)
    requires HasHole(elements) && elements != [Hole] && SerializeSparse(elements).Ok?
    ensures Parse(SerializeSparse(elements).text) == Fail
  {
    var body := JoinItems(SerializeElements(elements)).text;
    TextEnclosed(LBRACKET, body, RBRACKET, []);
    var t := body + ([RBRACKET] + []);
    assert SerializeSparse(elements).text == SerializeSparse(elements).text + [] == [LBRACKET] + t;
    HolesFail(elements, []);
    NotEmptyBody(elements);
    ReadArray(t);
  }

  /** Only the empty array and a single hole print nothing between the brackets. */
  lemma NotEmptyBody(elements: seq<Element>)
    requires elements != [] && elements != [Hole] && JoinItems(SerializeElements(elements)).Ok?
    ensures var t := JoinItems(SerializeElements(elements)).text; t != [] && t[0] != RBRACKET
  {
    if elements[0].Item? {
      FirstOfItems([elements[0].value], []);
      assert SerializeItems([elements[0].value]) == [Serialize(elements[0].value)];
      assert JoinItems([Serialize(elements[0].value)]).text + [] == Serialize(elements[0].value).text;
    } else {
      assert |elements| > 1;
    }
  }

  lemma ValuesOf(elements: seq<Element>) returns (values: seq<Value>)
    requires !HasHole(elements)
    ensures elements == Filled(values)
  {
    values := seq(|elements|, i requires 0 <= i < |elements| => (if elements[i].Item? then elements[i].value else Null));
  }

  /**
   * An array with holes is not refused, and what is printed for it can be read back exactly when there is
   * none, or the array is one hole: then it prints as the empty array does.
   */
  lemma SparseIsReadableIff(elements: seq<Element>)
    requires SerializeSparse(elements).Ok?
    ensures Parse(SerializeSparse(elements).text).Done? <==> !HasHole(elements) || elements == [Hole]
    ensures SerializeSparse([Hole]) == Serialize(Array([]))
  {
    assert SerializeElements([Hole]) == [Outcome.Ok([])];
    assert SerializeSparse([Hole]) == Enclose(LBRACKET, Outcome.Ok([]), RBRACKET) == Serialize(Array([]));
    if !HasHole(elements) {
      var values := ValuesOf(elements);
      SerializeFilled(values);
      ParseCanonicalize(Array(values));
    } else if elements == [Hole] {
      ParseCanonicalize(Array([]));
    } else {
      HoleyIsUnreadable(elements);
    }
  }
}
