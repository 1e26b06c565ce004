/** Two values have one canonical form exactly when they are the same JSON value. */
module CanonicalEquality {
  import opened Encoding
  import opened Keyed
  import opened Canonical
  import opened CanonicalParser

  /** What a JavaScript object guarantees: no key twice, at any depth. */
  predicate Proper(v: Value)
  {
    match v
    case Array(items) => forall i :: 0 <= i < |items| ==> Proper(items[i])
    case Object(members) =>
      DistinctKeys(members) && forall i :: 0 <= i < |members| ==> Proper(members[i].item)
    case _ => true
  }

  predicate SameNumber(m: Number, n: Number)
  {
    m == n || {m, n} <= {NegZero, Finite(ZERO_TOKEN)}
  }

  /** Equal as JSON: the order of members does not matter, and -0 is 0. */
  ghost predicate Same(v: Value, w: Value)
    decreases v, 1
  {
    match v
    case Number(m) => w.Number? && SameNumber(m, w.n)
    case Array(items) =>
      && w.Array? && |items| == |w.items|
      && forall i :: 0 <= i < |items| ==> Same(items[i], w.items[i])
    case Object(members) =>
      && w.Object? && |members| == |w.members|
      && (forall i :: 0 <= i < |members| ==> HasPartner(members, i, w.members))
      && (forall j :: 0 <= j < |w.members| ==> IsPartner(members, w.members, j))
    case _ => v == w
  }

  ghost predicate SameMember(members: seq<Keyed<Value>>, i: int, others: seq<Keyed<Value>>, j: int)
    decreases members, 0
  {
    && 0 <= i < |members| && 0 <= j < |others|
    && members[i].key == others[j].key && Same(members[i].item, others[j].item)
  }

  ghost predicate HasPartner(members: seq<Keyed<Value>>, i: int, others: seq<Keyed<Value>>)
    decreases members, 1
  {
    exists j :: SameMember(members, i, others, j)
  }

  ghost predicate IsPartner(members: seq<Keyed<Value>>, others: seq<Keyed<Value>>, j: int)
    decreases members, 1
  {
    exists i :: SameMember(members, i, others, j)
  }

  // ---------- `Normal` picks one value from each class of `Same` ----------

  lemma {:induction false} NormalItemsAt(items: seq<Value>, i: nat)
    requires i < |items|
    ensures NormalItems(items)[i] == Normal(items[i])
  {
    if i > 0 {
      NormalItemsAt(items[1..], i - 1);
    }
  }

  lemma {:induction false} NormalMembersAt(members: seq<Keyed<Value>>, i: nat)
    requires i < |members|
    ensures NormalMembers(members)[i] == Keyed(members[i].key, Normal(members[i].item))
  {
    if i > 0 {
      NormalMembersAt(members[1..], i - 1);
    }
  }

  lemma NormalMembersDistinct(members: seq<Keyed<Value>>)
    requires DistinctKeys(members)
    ensures DistinctKeys(NormalMembers(members))
  {
    forall i, j | 0 <= i < j < |members| ensures NormalMembers(members)[i].key != NormalMembers(members)[j].key {
      NormalMembersAt(members, i);
      NormalMembersAt(members, j);
    }
  }

  lemma {:induction false} SameIsNormalEqual(v: Value, w: Value)
    requires Proper(v) && Proper(w)
    ensures Same(v, w) <==> Normal(v) == Normal(w)
    decreases v, 1
  {
    match v
    case Array(items) =>
      if w.Array? {
        SameItems(items, w.items);
      }
    case Object(members) =>
      if w.Object? {
        assert ProperMembers(members) && ProperMembers(w.members);
        if Same(v, w) {
          SameMembersForward(members, w.members);
        }
        if Sort(NormalMembers(members)) == Sort(NormalMembers(w.members)) {
          SameMembersBackward(members, w.members);
        }
      }
    case _ =>
  }

  lemma {:induction false} SameItems(items: seq<Value>, others: seq<Value>)
    requires Proper(Array(items)) && Proper(Array(others))
    ensures Same(Array(items), Array(others)) <==> NormalItems(items) == NormalItems(others)
    decreases items, 0
  {
    if |items| == |others| {
      forall i | 0 <= i < |items|
        ensures Same(items[i], others[i]) <==> NormalItems(items)[i] == NormalItems(others)[i]
      {
        NormalItemsAt(items, i);
        NormalItemsAt(others, i);
        SameIsNormalEqual(items[i], others[i]);
      }
    }
  }

  ghost predicate ProperMembers(members: seq<Keyed<Value>>)
  {
    DistinctKeys(members) && forall i :: 0 <= i < |members| ==> Proper(members[i].item)
  }

  /** Two members match exactly when their normal forms are the same member. */
  lemma {:induction false} SameMemberIsNormalEqual(
    members: seq<Keyed<Value>>, i: nat, others: seq<Keyed<Value>>, j: nat)
    requires i < |members| && j < |others| && Proper(members[i].item) && Proper(others[j].item)
    ensures SameMember(members, i, others, j) <==> NormalMembers(members)[i] == NormalMembers(others)[j]
    decreases members, 0
  {
    NormalMembersAt(members, i);
    NormalMembersAt(others, j);
    SameIsNormalEqual(members[i].item, others[j].item);
  }

  lemma {:induction false} SameMembersForward(members: seq<Keyed<Value>>, others: seq<Keyed<Value>>)
    requires ProperMembers(members) && ProperMembers(others) && |members| == |others|
    requires forall i :: 0 <= i < |members| ==> HasPartner(members, i, others)
    requires forall j :: 0 <= j < |others| ==> IsPartner(members, others, j)
    ensures Sort(NormalMembers(members)) == Sort(NormalMembers(others))
    decreases members, 1
  {
    var a, b := NormalMembers(members), NormalMembers(others);
    forall x | x in a ensures x in b {
      var i :| 0 <= i < |a| && a[i] == x;
      assert HasPartner(members, i, others);
      var j :| SameMember(members, i, others, j);
      SameMemberIsNormalEqual(members, i, others, j);
    }
    forall x | x in b ensures x in a {
      var j :| 0 <= j < |b| && b[j] == x;
      assert IsPartner(members, others, j);
      var i :| SameMember(members, i, others, j);
      SameMemberIsNormalEqual(members, i, others, j);
    }
    NormalMembersDistinct(members);
    NormalMembersDistinct(others);
    SortIgnoresOrder(a, b);
  }

  lemma {:induction false} SameMembersBackward(members: seq<Keyed<Value>>, others: seq<Keyed<Value>>)
    requires ProperMembers(members) && ProperMembers(others)
    requires Sort(NormalMembers(members)) == Sort(NormalMembers(others))
    ensures |members| == |others|
    ensures forall i :: 0 <= i < |members| ==> HasPartner(members, i, others)
    ensures forall j :: 0 <= j < |others| ==> IsPartner(members, others, j)
    decreases members, 1
  {
    var a, b := NormalMembers(members), NormalMembers(others);
    SortElements(a);
    SortElements(b);
    forall i | 0 <= i < |members| ensures HasPartner(members, i, others) {
      var x := a[i];
      assert x in a && x in Sort(a) && x in b;
      var j :| 0 <= j < |b| && b[j] == x;
      SameMemberIsNormalEqual(members, i, others, j);
    }
    forall j | 0 <= j < |others| ensures IsPartner(members, others, j) {
      var x := b[j];
      assert x in b && x in Sort(b) && x in a;
      var i :| 0 <= i < |a| && a[i] == x;
      SameMemberIsNormalEqual(members, i, others, j);
    }
  }

  // ---------- the printer does not see the difference ----------

  lemma {:induction false} SerializeNormal(v: Value)
    requires Proper(v)
    ensures Serialize(Normal(v)) == Serialize(v)
    decreases v, 1
  {
    match v
    case Array(items) => SerializeNormalItems(items);
    case Object(members) =>
      var a := NormalMembers(members);
      SerializeNormalMembers(members);
      SerializeSorted(a);
      NormalMembersDistinct(members);
      SortSorted(a);
      SortElements(a);
      SortOfSorted(Sort(a));
      SerializeSorted(Sort(a));
    case _ =>
  }

  lemma {:induction false} SerializeNormalItems(items: seq<Value>)
    requires Proper(Array(items))
    ensures SerializeItems(NormalItems(items)) == SerializeItems(items)
    decreases items, 0
  {
    if items != [] {
      SerializeNormal(items[0]);
      assert forall i | 0 <= i < |items[1..]| :: Proper(items[i + 1]) && items[1..][i] == items[i + 1];
      SerializeNormalItems(items[1..]);
    }
  }

  lemma {:induction false} SerializeNormalMembers(members: seq<Keyed<Value>>)
    requires Proper(Object(members))
    ensures SerializeMembers(NormalMembers(members)) == SerializeMembers(members)
    decreases members, 0
  {
    if members != [] {
      SerializeNormal(members[0].item);
      assert forall i | 0 <= i < |members[1..]| :: Proper(members[i + 1].item) && members[1..][i] == members[i + 1];
      SerializeNormalMembers(members[1..]);
    }
  }

  lemma SortOfSorted(s: seq<Keyed<Value>>)
    requires Sorted(s)
    ensures Sort(s) == s
  {
    forall i, j | 0 <= i < j < |s| ensures s[i].key != s[j].key {
      LessAsymmetric(s[i].key, s[j].key);
    }
    SortSorted(s);
    SortElements(s);
    SortedUnique(Sort(s), s);
  }

  // ---------- the main statements ----------

  /** The canonical form is a complete invariant: same text if and only if same JSON value. */
  lemma CanonicalFormDecidesSame(v: Value, w: Value)
    requires Proper(v) && Proper(w) && Canonicalize(v).Ok?
    ensures Canonicalize(v) == Canonicalize(w) <==> Same(v, w)
  {
    SameIsNormalEqual(v, w);
    if Canonicalize(v) == Canonicalize(w) {
      ParseCanonicalize(v);
      ParseCanonicalize(w);
    }
    if Same(v, w) {
      SerializeNormal(v);
      SerializeNormal(w);
    }
  }

  /** The order in which an object lists its members has no effect, on success or on refusal. */
  lemma MemberOrderIsIrrelevant(members: seq<Keyed<Value>>, permuted: seq<Keyed<Value>>)
    requires DistinctKeys(members) && DistinctKeys(permuted) && |members| == |permuted|
    requires forall m :: m in members <==> m in permuted
    ensures Canonicalize(Object(members)) == Canonicalize(Object(permuted))
  {
    SortIgnoresOrder(members, permuted);
    SerializeSorted(members);
    SerializeSorted(permuted);
  }

  /** Printing what was read from canonical text prints the same text again. */
  lemma {:induction false} NormalIsProper(v: Value)
    requires Proper(v)
    ensures Proper(Normal(v))
  {
    match v
    case Array(items) =>
      forall i | 0 <= i < |items| ensures Proper(NormalItems(items)[i]) {
        NormalItemsAt(items, i);
        NormalIsProper(items[i]);
      }
    case Object(members) =>
      var normal := NormalMembers(members);
      NormalMembersDistinct(members);
      SortSorted(normal);
      SortElements(normal);
      SortedIsDistinct(Sort(normal));
      forall m | m in normal ensures Proper(m.item) {
        var i :| 0 <= i < |normal| && normal[i] == m;
        NormalMembersAt(members, i);
        NormalIsProper(members[i].item);
      }
    case _ =>
  }

  lemma SortedIsDistinct(members: seq<Keyed<Value>>)
    requires Sorted(members)
    ensures DistinctKeys(members)
  {
    forall i, j | 0 <= i < j < |members| ensures members[i].key != members[j].key {
      assert Less(members[i].key, members[j].key);
      LessAsymmetric(members[i].key, members[j].key);
    }
  }

  /** What is read back is the same value. */
  lemma NormalIsSame(v: Value)
    requires Proper(v) && Canonicalize(v).Ok?
    ensures Proper(Normal(v)) && Same(Normal(v), v)
  {
    NormalIsProper(v);
    SerializeNormal(v);
    CanonicalFormDecidesSame(Normal(v), v);
  }

  lemma CanonicalizeIsIdempotent(v: Value)
    requires Proper(v) && Canonicalize(v).Ok?
    ensures var back := Parse(Canonicalize(v).text); back.Done? && Canonicalize(back.value) == Canonicalize(v)
  {
    ParseCanonicalize(v);
    SerializeNormal(v);
  }
}
