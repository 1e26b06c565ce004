/** What a Merkle leaf commits to (packages/ledger-client/src/index.ts, `leafBytes`). */
module Leaf {
  import opened Encoding
  import opened Keyed
  import opened Canonical
  import opened CanonicalParser
  import opened CanonicalEquality
  import opened Chain

  /** An id the database hands out, as a number prints it. */
  function IdToken(id: nat): NumberToken { Decimal(id) }

  // ---------- the leaf object ----------

  const LEDGER_ID: Text := [0x6C, 0x65, 0x64, 0x67, 0x65, 0x72, 0x49, 0x64]
  const CONTRACT_ID: Text := [0x63, 0x6F, 0x6E, 0x74, 0x72, 0x61, 0x63, 0x74, 0x49, 0x64]
  const ACTION_TYPE: Text := [0x61, 0x63, 0x74, 0x69, 0x6F, 0x6E, 0x54, 0x79, 0x70, 0x65]
  const PAYLOAD: Text := [0x70, 0x61, 0x79, 0x6C, 0x6F, 0x61, 0x64]
  const PREVIOUS_HASH: Text := [0x70, 0x72, 0x65, 0x76, 0x69, 0x6F, 0x75, 0x73, 0x48, 0x61, 0x73, 0x68]
  const CURRENT_HASH: Text := [0x63, 0x75, 0x72, 0x72, 0x65, 0x6E, 0x74, 0x48, 0x61, 0x73, 0x68]

  function LeafMembers(row: LedgerRow): (members: seq<Keyed<Value>>)
    ensures |members| == 6
  {
    [ Keyed(LEDGER_ID, Value.Number(Finite(IdToken(row.ledgerId)))),
      Keyed(CONTRACT_ID, String(row.contractId)),
      Keyed(ACTION_TYPE, String(row.actionType)),
      Keyed(PAYLOAD, row.payload),
      Keyed(PREVIOUS_HASH, String(row.previousHash)),
      Keyed(CURRENT_HASH, String(row.currentHash)) ]
  }

  function LeafMaterial(row: LedgerRow): Outcome { Canonicalize(Object(LeafMembers(row))) }

  function LeafData(row: LedgerRow): Bytes
    requires LeafMaterial(row).Ok?
  {
    Utf8(LeafMaterial(row).text)
  }

  lemma LeafKeysDistinct(row: LedgerRow)
    ensures DistinctKeys(LeafMembers(row))
  {
    assert |LEDGER_ID| == 8 && |CONTRACT_ID| == |ACTION_TYPE| == 10 && |PAYLOAD| == 7;
    assert |PREVIOUS_HASH| == 12 && |CURRENT_HASH| == 11 && CONTRACT_ID[0] != ACTION_TYPE[0];
  }

  /** A row has a leaf exactly when its payload can be printed. */
  lemma LeafExistsIff(row: LedgerRow)
    ensures LeafMaterial(row).Ok? <==> Canonicalize(row.payload).Ok?
  {
    var members := LeafMembers(row);
    SucceedsIffCanonicalizable(Object(members));
    SucceedsIffCanonicalizable(row.payload);
    assert forall i | 0 <= i < 6 :: i != 3 ==> Canonicalizable(members[i].item);
    assert members[3].item == row.payload;
  }

  // ---------- the leaf fixes the row ----------

  /** The six fields of two rows agree, the payload as a JSON value. */
  ghost predicate SameEntry(x: LedgerRow, y: LedgerRow)
  {
    && x.ledgerId == y.ledgerId && x.contractId == y.contractId && x.actionType == y.actionType
    && Same(x.payload, y.payload)
    && x.previousHash == y.previousHash && x.currentHash == y.currentHash
  }

  /** A member's partner under distinct keys is the one in its own place. */
  lemma SameLeafMember(x: LedgerRow, y: LedgerRow, i: nat)
    requires Same(Object(LeafMembers(x)), Object(LeafMembers(y))) && i < 6
    ensures Same(LeafMembers(x)[i].item, LeafMembers(y)[i].item)
  {
    var ms, ns := LeafMembers(x), LeafMembers(y);
    assert HasPartner(ms, i, ns);
    var j :| SameMember(ms, i, ns, j);
    LeafKeysDistinct(y);
    assert ms[i].key == ns[i].key;
  }

  lemma SameLeafSameEntry(x: LedgerRow, y: LedgerRow)
    requires Same(Object(LeafMembers(x)), Object(LeafMembers(y)))
    ensures SameEntry(x, y)
  {
    SameLeafMember(x, y, 0);
    SameLeafMember(x, y, 1);
    SameLeafMember(x, y, 2);
    SameLeafMember(x, y, 3);
    SameLeafMember(x, y, 4);
    SameLeafMember(x, y, 5);
    if IdToken(x.ledgerId) == IdToken(y.ledgerId) {
      DecimalInjective(x.ledgerId, y.ledgerId);
    }
  }

  lemma EqualLeavesEqualMaterial(x: LedgerRow, y: LedgerRow)
    requires LeafMaterial(x).Ok? && LeafMaterial(y).Ok? && LeafData(x) == LeafData(y)
    ensures LeafMaterial(x) == LeafMaterial(y)
  {
    SerializeIsClean(Object(LeafMembers(x)));
    SerializeIsClean(Object(LeafMembers(y)));
    Utf8Injective(LeafMaterial(x).text, LeafMaterial(y).text);
  }

  lemma LeafIsProper(row: LedgerRow)
    requires Proper(row.payload)
    ensures Proper(Object(LeafMembers(row)))
  {
    LeafKeysDistinct(row);
  }

  /** Two rows with one leaf are one entry: the UTF-8 bytes and the canonical text lose nothing. */
  lemma LeafBindsRow(x: LedgerRow, y: LedgerRow)
    requires Proper(x.payload) && Proper(y.payload)
    requires LeafMaterial(x).Ok? && LeafMaterial(y).Ok? && LeafData(x) == LeafData(y)
    ensures SameEntry(x, y)
  {
    EqualLeavesEqualMaterial(x, y);
    LeafIsProper(x);
    LeafIsProper(y);
    CanonicalFormDecidesSame(Object(LeafMembers(x)), Object(LeafMembers(y)));
    SameLeafSameEntry(x, y);
  }

  // ---------- the leaf, read back ----------

  predicate Spells(key: Text, name: string)
  {
    |key| == |name| && forall i :: 0 <= i < |key| ==> key[i] == name[i] as int
  }

  /** Some member stands under this name with this value. */
  ghost predicate HasMember(members: seq<Keyed<Value>>, name: string, v: Value)
  {
    exists m :: m in members && Spells(m.key, name) && m.item == v
  }

  lemma LeafMemberReadsAs(row: LedgerRow, i: nat, name: string)
    requires i < 6 && Spells(LeafMembers(row)[i].key, name)
    ensures HasMember(Sort(NormalMembers(LeafMembers(row))), name, Normal(LeafMembers(row)[i].item))
  {
    var normal := NormalMembers(LeafMembers(row));
    NormalMembersAt(LeafMembers(row), i);
    SortElements(normal);
    assert normal[i] in normal && normal[i] in Sort(normal);
  }

  lemma NamesSpelled()
    ensures Spells(LEDGER_ID, "ledgerId") && Spells(CONTRACT_ID, "contractId") && Spells(ACTION_TYPE, "actionType")
    ensures Spells(PAYLOAD, "payload") && Spells(PREVIOUS_HASH, "previousHash") && Spells(CURRENT_HASH, "currentHash")
  {
  }

  /**
   * Reading the text of a leaf gives an object of exactly six members: the row's id in decimal, its
   * contract, its action, its payload and its two hashes, each under its own name.
   */
  lemma LeafReadsAs(row: LedgerRow) returns (members: seq<Keyed<Value>>, id: NumberToken, payload: Value)
    requires LeafMaterial(row).Ok? && Proper(row.payload)
    ensures Parse(LeafMaterial(row).text) == Done(Object(members), []) && |members| == 6
    ensures ReadDecimal(id) == row.ledgerId && (row.ledgerId > 0 ==> id[0] != 0x30)
    ensures Same(payload, row.payload)
    ensures HasMember(members, "ledgerId", Value.Number(Finite(id)))
    ensures HasMember(members, "contractId", String(row.contractId))
    ensures HasMember(members, "actionType", String(row.actionType))
    ensures HasMember(members, "payload", payload)
    ensures HasMember(members, "previousHash", String(row.previousHash))
    ensures HasMember(members, "currentHash", String(row.currentHash))
  {
    var leaf := LeafMembers(row);
    members, id, payload := Sort(NormalMembers(leaf)), IdToken(row.ledgerId), Normal(row.payload);
    LeafParses(row);
    LeafIdAndPayload(row);
    LeafLabels(row);
    LeafHashesRead(row);
  }

  lemma LeafIdAndPayload(row: LedgerRow)
    ensures var members := Sort(NormalMembers(LeafMembers(row)));
            HasMember(members, "ledgerId", Value.Number(Finite(IdToken(row.ledgerId))))
            && HasMember(members, "payload", Normal(row.payload))
  {
    NamesSpelled();
    LeafMemberReadsAs(row, 0, "ledgerId");
    LeafMemberReadsAs(row, 3, "payload");
  }

  lemma LeafLabels(row: LedgerRow)
    ensures var members := Sort(NormalMembers(LeafMembers(row)));
            HasMember(members, "contractId", String(row.contractId))
            && HasMember(members, "actionType", String(row.actionType))
  {
    NamesSpelled();
    LeafMemberReadsAs(row, 1, "contractId");
    LeafMemberReadsAs(row, 2, "actionType");
  }

  lemma LeafHashesRead(row: LedgerRow)
    ensures var members := Sort(NormalMembers(LeafMembers(row)));
            HasMember(members, "previousHash", String(row.previousHash))
            && HasMember(members, "currentHash", String(row.currentHash))
  {
    NamesSpelled();
    LeafMemberReadsAs(row, 4, "previousHash");
    LeafMemberReadsAs(row, 5, "currentHash");
  }

  lemma LeafParses(row: LedgerRow)
    requires LeafMaterial(row).Ok? && Proper(row.payload)
    ensures var members := Sort(NormalMembers(LeafMembers(row)));
            Parse(LeafMaterial(row).text) == Done(Object(members), []) && |members| == 6
    ensures ReadDecimal(IdToken(row.ledgerId)) == row.ledgerId && (row.ledgerId > 0 ==> IdToken(row.ledgerId)[0] != 0x30)
    ensures Same(Normal(row.payload), row.payload)
  {
    ParseCanonicalize(Object(LeafMembers(row)));
    SortElements(NormalMembers(LeafMembers(row)));
    DecimalReads(row.ledgerId);
    LeafExistsIff(row);
    NormalIsSame(row.payload);
  }
}
