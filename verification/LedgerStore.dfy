/** The client object of packages/ledger-client/src/index.ts over its two tables. */
module LedgerStore {
  import opened Encoding
  import opened Canonical
  import opened CanonicalEquality
  import opened Chain
  import opened Leaf
  import opened LedgerRoots
  import opened Merkle

  datatype Signature = Signature(bytes: Bytes, publicKey: Bytes, algorithm: Text)

  /** A row of merkle_roots. */
  datatype StoredRoot = StoredRoot(
    rootHash: Text, leafCount: nat, maxLedgerId: Option<nat>, signature: Option<Signature>)

  datatype AppendResult = Appended(row: LedgerRow) | NotAppended(why: Refusal)

  datatype RootResult = Stored(root: StoredRoot) | NotStored(why: Refusal)

  datatype EntryProof = Proof(proof: InclusionProof) | NotInContract | NotPrintable(why: Refusal)

  /** The rows of one contract, in the order of the table. */
  function ChainOf(rows: seq<LedgerRow>, contract: Text): (chain: seq<LedgerRow>)
    ensures forall row :: row in chain <==> row in rows && row.contractId == contract
  {
    if rows == [] then []
    else
      var before, last := ChainOf(rows[..|rows| - 1], contract), rows[|rows| - 1];
      if last.contractId == contract then before + [last] else before
  }

  /** The row is at the end of its own contract's chain, and every other chain is as it was. */
  ghost predicate ChainsExtendBy(before: seq<LedgerRow>, after: seq<LedgerRow>, row: LedgerRow)
  {
    forall c: Text :: ChainOf(after, c) == ChainOf(before, c) + if row.contractId == c then [row] else []
  }

  lemma ChainsAfterAppend(rows: seq<LedgerRow>, row: LedgerRow)
    ensures ChainsExtendBy(rows, rows + [row], row)
  {
    forall c: Text ensures ChainOf(rows + [row], c) == ChainOf(rows, c) + if row.contractId == c then [row] else [] {
    }
  }

  predicate Ascending(rows: seq<LedgerRow>)
  {
    forall i, j :: 0 <= i < j < |rows| ==> rows[i].ledgerId < rows[j].ledgerId
  }

  predicate IdsOk(rows: seq<LedgerRow>, nextId: nat)
  {
    Ascending(rows) && forall i :: 0 <= i < |rows| ==> rows[i].ledgerId < nextId
  }

  /** Every stored signature was made over the stored root and count. */
  predicate SignaturesOk(roots: map<Text, StoredRoot>, signed: map<Text, (Text, nat)>)
  {
    forall c :: c in roots && roots[c].signature.Some? ==>
      c in signed && signed[c] == (roots[c].rootHash, roots[c].leafCount)
  }

  /** Reading one contract keeps the order of ids, so the last row of a chain has the greatest id. */
  lemma {:induction false} ChainOfAscending(rows: seq<LedgerRow>, contract: Text)
    requires Ascending(rows)
    ensures Ascending(ChainOf(rows, contract))
  {
    if rows != [] {
      var before, last := rows[..|rows| - 1], rows[|rows| - 1];
      ChainOfAscending(before, contract);
      forall row | row in ChainOf(before, contract) ensures row.ledgerId < last.ledgerId {
        assert row in before;
      }
    }
  }

  /** The first refusal among the leaves, if any: what `rows.map` throws. */
  method LeavesOf(sha: Sha256, rows: seq<LedgerRow>) returns (leaves: seq<Bytes>, refused: Option<Refusal>)
    ensures refused == None <==> Printing(rows)
    ensures refused == None ==> leaves == LeafHashes(sha, LeafDatas(rows))
  {
    leaves, refused := [], None;
    for i := 0 to |rows|
      invariant |leaves| == i
      invariant forall j :: 0 <= j < i ==> LeafMaterial(rows[j]).Ok? && leaves[j] == HashLeaf(sha, LeafData(rows[j]))
    {
      var material := LeafMaterial(rows[i]);
      if material.Refused? {
        refused := Some(material.why);
        return;
      }
      leaves := leaves + [HashLeaf(sha, Utf8(material.text))];
    }
  }

  /** The row to store: the root of the chain, unsigned; or the refusal `leafBytes` throws. */
  method RootRow(sha: Sha256, chain: seq<LedgerRow>) returns (r: RootResult)
    ensures r.Stored? <==> Printing(chain)
    ensures r.Stored? ==> r.root == StoredRoot(RootOf(sha, chain), |chain|, MaxLedgerId(chain), None)
    ensures r.Stored? ==> Covers(sha, chain, r.root)
  {
    assert chain[..|chain|] == chain;
    var leaves, refused := LeavesOf(sha, chain);
    if refused != None {
      return NotStored(refused.value);
    }
    return Stored(StoredRoot(ToHex(ComputeRoot(sha, leaves)), |leaves|, MaxLedgerId(chain), None));
  }

  /** The id of the last row is the greatest there is. */
  lemma MaxLedgerIdIsGreatest(chain: seq<LedgerRow>)
    requires Ascending(chain)
    ensures MaxLedgerId(chain) == None <==> chain == []
    ensures MaxLedgerId(chain).Some? ==>
      (exists row :: row in chain && row.ledgerId == MaxLedgerId(chain).value) &&
      forall row :: row in chain ==> row.ledgerId <= MaxLedgerId(chain).value
  {
    if chain != [] {
      assert chain[|chain| - 1] in chain;
    }
  }

  function MaxLedgerId(chain: seq<LedgerRow>): Option<nat>
  {
    if chain == [] then None else Some(chain[|chain| - 1].ledgerId)
  }

  /** The root is that of the first rows of the chain, as many as it counts. */
  ghost predicate Covers(sha: Sha256, chain: seq<LedgerRow>, root: StoredRoot)
  {
    && root.leafCount <= |chain| && Printing(chain[..root.leafCount])
    && root.rootHash == RootOf(sha, chain[..root.leafCount]) && root.maxLedgerId == MaxLedgerId(chain[..root.leafCount])
  }

  /** A root computed from a chain as it was read covers every chain that has grown from it. */
  lemma CoversGrown(sha: Sha256, chain: seq<LedgerRow>, more: seq<LedgerRow>, root: StoredRoot)
    requires Covers(sha, chain, root)
    ensures Covers(sha, chain + more, root)
  {
    assert (chain + more)[..root.leafCount] == chain[..root.leafCount];
  }

  /** The contracts whose stored root covers no prefix of their chain: there are none. */
  ghost function Uncovered(sha: Sha256, rows: seq<LedgerRow>, roots: map<Text, StoredRoot>): set<Text>
  {
    set c | c in roots && !Covers(sha, ChainOf(rows, c), roots[c])
  }

  lemma UncoveredAfterAppend(sha: Sha256, rows: seq<LedgerRow>, row: LedgerRow, roots: map<Text, StoredRoot>)
    requires Uncovered(sha, rows, roots) == {}
    ensures Uncovered(sha, rows + [row], roots) == {}
  {
    ChainsAfterAppend(rows, row);
    forall c | c in roots ensures Covers(sha, ChainOf(rows + [row], c), roots[c]) {
      assert c !in Uncovered(sha, rows, roots);
      CoversGrown(sha, ChainOf(rows, c), if row.contractId == c then [row] else [], roots[c]);
    }
  }

  lemma UncoveredAfterStoring(
    sha: Sha256, rows: seq<LedgerRow>, roots: map<Text, StoredRoot>, contract: Text, root: StoredRoot)
    requires Uncovered(sha, rows, roots) == {} && Covers(sha, ChainOf(rows, contract), root)
    ensures Uncovered(sha, rows, roots[contract := root]) == {}
  {
    var after := roots[contract := root];
    forall c | c in after ensures Covers(sha, ChainOf(rows, c), after[c]) {
      if c != contract {
        assert c !in Uncovered(sha, rows, roots);
      }
    }
  }

  lemma UncoveredAfterSigning(
    sha: Sha256, rows: seq<LedgerRow>, roots: map<Text, StoredRoot>, contract: Text, signature: Signature)
    requires Uncovered(sha, rows, roots) == {} && contract in roots
    ensures Uncovered(sha, rows, roots[contract := roots[contract].(signature := Some(signature))]) == {}
  {
    assert contract !in Uncovered(sha, rows, roots);
    UncoveredAfterStoring(sha, rows, roots, contract, roots[contract].(signature := Some(signature)));
  }

  /** The row an append writes, column by column. */
  ghost predicate IsEntry(
    sha: Sha256, chain: seq<LedgerRow>, id: nat, contract: Text, action: Text, payload: Value, row: LedgerRow)
  {
    && row.ledgerId == id && row.contractId == contract && row.actionType == action
    && (Proper(payload) ==> Same(row.payload, payload))
    && Canonicalize(payload) == Outcome.Ok(if row.payloadCanonical.Some? then row.payloadCanonical.value else [])
    && row.payloadCanonical.Some? && row.hashVersion == 2
    && row.previousHash == (if chain == [] then Units("GENESIS") else chain[|chain| - 1].currentHash)
    && row.currentHash == ToHex(sha(Utf8(row.payloadCanonical.value + ([0x0A] + row.previousHash))))
  }

  /** What an append answers and leaves behind: one certified row more at the end of its chain, or nothing. */
  ghost predicate AppendedTo(
    sha: Sha256, before: seq<LedgerRow>, id: nat, contract: Text, action: Text, payload: Value, r: AppendResult,
    after: seq<LedgerRow>)
  {
    match r
    case Appended(row) =>
      && Canonicalize(payload).Ok? && row == NewRow(sha, ChainOf(before, contract), id, contract, action, payload)
      && IsEntry(sha, ChainOf(before, contract), id, contract, action, payload, row)
      && after == before + [row] && ChainOf(after, contract) == ChainOf(before, contract) + [row]
      && forall c: Text :: c != contract ==> ChainOf(after, c) == ChainOf(before, c)
    case NotAppended(_) => Canonicalize(payload).Refused? && after == before
  }

  method AppendRow(sha: Sha256, rows: seq<LedgerRow>, id: nat, contract: Text, action: Text, payload: Value)
    returns (r: AppendResult, after: seq<LedgerRow>)
    requires IdsOk(rows, id)
    ensures AppendedTo(sha, rows, id, contract, action, payload, r, after)
    ensures IdsOk(after, if r.Appended? then id + 1 else id)
  {
    var canonical := Canonicalize(payload);
    if canonical.Refused? {
      return NotAppended(canonical.why), rows;
    }
    var row := NewRow(sha, ChainOf(rows, contract), id, contract, action, payload);
    NewRowIs(sha, ChainOf(rows, contract), id, contract, action, payload);
    ChainsAfterAppend(rows, row);
    return Appended(row), rows + [row];
  }

  /** A proof for the row with this id, accepted against the root of the chain; or the reason there is none. */
  ghost predicate ProofFor(sha: Sha256, chain: seq<LedgerRow>, ledgerId: nat, r: EntryProof)
  {
    match r
    case NotInContract => forall i :: 0 <= i < |chain| ==> chain[i].ledgerId != ledgerId
    case NotPrintable(_) => !Printing(chain)
    case Proof(proof) =>
      && Printing(chain) && proof.leafIndex < |chain| == proof.leafCount
      && chain[proof.leafIndex].ledgerId == ledgerId
      && proof.root == RootOf(sha, chain)
      && Accepts(sha, HashLeaf(sha, LeafData(chain[proof.leafIndex])), Decode(proof.path), FromHex(proof.root))
  }

  method ProveEntry(sha: Sha256, chain: seq<LedgerRow>, ledgerId: nat) returns (r: EntryProof)
    ensures ProofFor(sha, chain, ledgerId, r)
  {
    var index := 0;
    while index < |chain| && chain[index].ledgerId != ledgerId
      invariant 0 <= index <= |chain|
      invariant forall i :: 0 <= i < index ==> chain[i].ledgerId != ledgerId
    {
      index := index + 1;
    }
    if index == |chain| {
      return NotInContract;
    }
    var leaves, refused := LeavesOf(sha, chain);
    if refused != None {
      return NotPrintable(refused.value);
    }
    var built := BuildInclusionProof(sha, leaves, index);
    RowProofIsAccepted(sha, chain, index, built.proof);
    return Proof(built.proof);
  }

  class LedgerClient {
    const sha: Sha256
    var rows: seq<LedgerRow>
    var nextId: nat
    var roots: map<Text, StoredRoot>
    // The root and the count each stored signature was made over.
    ghost var signed: map<Text, (Text, nat)>

    ghost predicate Valid()
      reads this
    {
      IdsOk(rows, nextId) && SignaturesOk(roots, signed) && Uncovered(sha, rows, roots) == {}
    }

    constructor (sha: Sha256)
      ensures Valid() && this.sha == sha && rows == [] && roots == map[]
    {
      this.sha := sha;
      rows, nextId, roots, signed := [], 1, map[], map[];
    }

    /** One more row on the chain of `contract`; every other chain and every root stays as it is. */
    method Append(contract: Text, action: Text, payload: Value) returns (r: AppendResult)
      requires Valid()
      modifies `rows, `nextId
      ensures Valid()
      ensures AppendedTo(sha, old(rows), old(nextId), contract, action, payload, r, rows)
    {
      ghost var before := rows;
      r, rows := AppendRow(sha, rows, nextId, contract, action, payload);
      if r.Appended? {
        UncoveredAfterAppend(sha, before, r.row, roots);
        nextId := nextId + 1;
      }
    }

    /**
     * The second statement of `computeAndStoreRoot`. Rows may have been appended since the first one read
     * the chain, and an older root may overwrite a newer one; either way it covers a prefix of the chain.
     */
    method UpsertRoot(contract: Text, root: StoredRoot)
      requires Valid() && root.signature == None && Covers(sha, ChainOf(rows, contract), root)
      modifies `roots
      ensures Valid() && roots == old(roots)[contract := root]
    {
      UncoveredAfterStoring(sha, rows, roots, contract, root);
      roots := roots[contract := root];
    }

    /** With nothing in between: the stored root is that of the current chain, unsigned; or nothing changes. */
    method ComputeAndStoreRoot(contract: Text) returns (r: RootResult)
      requires Valid()
      modifies `roots
      ensures Valid()
      ensures r.Stored? <==> Printing(ChainOf(rows, contract))
      ensures r.Stored? ==>
        var chain := ChainOf(rows, contract);
        && r.root == StoredRoot(RootOf(sha, chain), |chain|, MaxLedgerId(chain), None)
        && roots == old(roots)[contract := r.root]
      ensures r.NotStored? ==> roots == old(roots)
    {
      r := RootRow(sha, ChainOf(rows, contract));
      if r.Stored? {
        UpsertRoot(contract, r.root);
      }
    }

    /** A signature is attached only while the root and the count it was made over are the stored ones. */
    method StoreRootSignature(contract: Text, rootHash: Text, leafCount: nat, signature: Signature)
      returns (stored: bool)
      requires Valid()
      modifies `roots, `signed
      ensures Valid()
      ensures stored <==> (contract in old(roots) && old(roots)[contract].rootHash == rootHash
                           && old(roots)[contract].leafCount == leafCount)
      ensures roots == if stored
                       then old(roots)[contract := old(roots)[contract].(signature := Some(signature))]
                       else old(roots)
    {
      if contract !in roots || roots[contract].rootHash != rootHash || roots[contract].leafCount != leafCount {
        return false;
      }
      UncoveredAfterSigning(sha, rows, roots, contract, signature);
      roots := roots[contract := roots[contract].(signature := Some(signature))];
      signed := signed[contract := (rootHash, leafCount)];
      return true;
    }

    method GetInclusionProof(contract: Text, ledgerId: nat) returns (r: EntryProof)
      requires Valid()
      ensures ProofFor(sha, ChainOf(rows, contract), ledgerId, r)
    {
      r := ProveEntry(sha, ChainOf(rows, contract), ledgerId);
    }
  }
}
