/** Sealing the rows nobody can recompute (packages/ledger-client/src/legacy-anchor.ts). */
module LegacyAnchor {
  import opened Encoding
  import opened Chain
  import opened Merkle
  import opened MerkleSecurity

  datatype AnchorPayload = AnchorPayload(
    contractId: Text,
    sealedHashVersion: int,
    sealedLedgerIds: seq<nat>,
    sealedHashes: seq<Text>,
    sealedMerkleRoot: Text)

  datatype BuildResult = Sealed(payload: AnchorPayload) | NoLegacyRows

  datatype Discrepancy = Missing(ledgerId: nat) | Altered(ledgerId: nat) | RootEdited

  /** A hash list shorter than the id list makes the message of an altered row throw. */
  datatype CheckResult = Checked(discrepancies: seq<Discrepancy>, sealedCount: nat) | Threw {
    predicate Intact() { Checked? && discrepancies == [] }
  }

  // ---------- selecting ----------

  function LegacyOf(rows: seq<LedgerRow>): (legacy: seq<LedgerRow>)
    ensures forall row :: row in legacy <==> row in rows && IsLegacy(row)
  {
    if rows == [] then []
    else (if IsLegacy(rows[0]) then [rows[0]] else []) + LegacyOf(rows[1..])
  }

  predicate Ordered(rows: seq<LedgerRow>)
  {
    forall i, j :: 0 <= i < j < |rows| ==> rows[i].ledgerId <= rows[j].ledgerId
  }

  function InsertById(row: LedgerRow, rows: seq<LedgerRow>): (r: seq<LedgerRow>)
    ensures forall x :: x in r <==> x == row || x in rows
    ensures |r| == |rows| + 1
  {
    if rows == [] || row.ledgerId <= rows[0].ledgerId then [row] + rows
    else [rows[0]] + InsertById(row, rows[1..])
  }

  /** A stable sort, ascending. */
  function SortById(rows: seq<LedgerRow>): (r: seq<LedgerRow>)
    ensures forall x :: x in r <==> x in rows
    ensures |r| == |rows|
  {
    if rows == [] then [] else InsertById(rows[0], SortById(rows[1..]))
  }

  lemma {:induction false} InsertByIdOrdered(row: LedgerRow, rows: seq<LedgerRow>)
    requires Ordered(rows)
    ensures Ordered(InsertById(row, rows))
  {
    if rows != [] && row.ledgerId > rows[0].ledgerId {
      InsertByIdOrdered(row, rows[1..]);
      var rest := InsertById(row, rows[1..]);
      forall x | x in rest ensures rows[0].ledgerId <= x.ledgerId {
        if x != row {
          var i :| 0 <= i < |rows[1..]| && rows[1..][i] == x;
          assert rows[i + 1] == x;
        }
      }
    }
  }

  lemma {:induction false} SortByIdOrdered(rows: seq<LedgerRow>)
    ensures Ordered(SortById(rows))
  {
    if rows != [] {
      SortByIdOrdered(rows[1..]);
      InsertByIdOrdered(rows[0], SortById(rows[1..]));
    }
  }

  function SelectLegacyRows(rows: seq<LedgerRow>): (legacy: seq<LedgerRow>)
    ensures forall row :: row in legacy <==> row in rows && IsLegacy(row)
  {
    SortById(LegacyOf(rows))
  }

  // ---------- building ----------

  function Utf8All(hashes: seq<Text>): (ds: seq<Bytes>)
    ensures |ds| == |hashes| && forall i :: 0 <= i < |hashes| ==> ds[i] == Utf8(hashes[i])
  {
    seq(|hashes|, i requires 0 <= i < |hashes| => Utf8(hashes[i]))
  }

  function SealingRoot(sha: Sha256, hashes: seq<Text>): Text
  {
    ToHex(ComputeRoot(sha, LeafHashes(sha, Utf8All(hashes))))
  }

  function Ids(rows: seq<LedgerRow>): (ids: seq<nat>)
    ensures |ids| == |rows| && forall i :: 0 <= i < |rows| ==> ids[i] == rows[i].ledgerId
  {
    seq(|rows|, i requires 0 <= i < |rows| => rows[i].ledgerId)
  }

  function Hashes(rows: seq<LedgerRow>): (hashes: seq<Text>)
    ensures |hashes| == |rows| && forall i :: 0 <= i < |rows| ==> hashes[i] == rows[i].currentHash
  {
    seq(|rows|, i requires 0 <= i < |rows| => rows[i].currentHash)
  }

  function MaxVersion(rows: seq<LedgerRow>): (v: int)
    requires rows != []
    ensures forall row :: row in rows ==> row.hashVersion <= v
  {
    if |rows| == 1 then rows[0].hashVersion
    else
      var rest := MaxVersion(rows[1..]);
      if rest < rows[0].hashVersion then rows[0].hashVersion else rest
  }

  function BuildLegacyAnchorPayload(sha: Sha256, contract: Text, rows: seq<LedgerRow>): BuildResult
  {
    var legacy := SelectLegacyRows(rows);
    if legacy == [] then NoLegacyRows
    else
      Sealed(AnchorPayload(contract, MaxVersion(legacy), Ids(legacy), Hashes(legacy), SealingRoot(sha, Hashes(legacy))))
  }

  lemma {:induction false} MaxVersionIsOne(rows: seq<LedgerRow>)
    requires rows != []
    ensures exists row :: row in rows && row.hashVersion == MaxVersion(rows)
  {
    if |rows| > 1 {
      MaxVersionIsOne(rows[1..]);
      assert forall row :: row in rows[1..] ==> row in rows;
    }
    assert rows[0] in rows;
  }

  lemma {:induction false} LegacyOfKeeps(rows: seq<LedgerRow>)
    ensures forall row :: multiset(LegacyOf(rows))[row] ==
              if row.hashVersion < 2 || row.payloadCanonical == None then multiset(rows)[row] else 0
  {
    if rows != [] {
      LegacyOfKeeps(rows[1..]);
      assert rows == [rows[0]] + rows[1..];
    }
  }

  lemma {:induction false} InsertByIdKeeps(row: LedgerRow, rows: seq<LedgerRow>)
    ensures multiset(InsertById(row, rows)) == multiset{row} + multiset(rows)
  {
    if rows != [] && row.ledgerId > rows[0].ledgerId {
      InsertByIdKeeps(row, rows[1..]);
      assert rows == [rows[0]] + rows[1..];
    }
  }

  lemma {:induction false} SortByIdKeeps(rows: seq<LedgerRow>)
    ensures multiset(SortById(rows)) == multiset(rows)
  {
    if rows != [] {
      SortByIdKeeps(rows[1..]);
      InsertByIdKeeps(rows[0], SortById(rows[1..]));
      assert rows == [rows[0]] + rows[1..];
    }
  }

  /**
   * What a built anchor holds: every row below version 2 or without canonical text, in the order of ids,
   * with its hash beside its id; the greatest of their versions; and the tree head over the hashes.
   */
  lemma BuiltAnchorIs(sha: Sha256, contract: Text, rows: seq<LedgerRow>) returns (sealed_: seq<LedgerRow>)
    requires BuildLegacyAnchorPayload(sha, contract, rows).Sealed?
    ensures forall row :: multiset(sealed_)[row] ==
              if row.hashVersion < 2 || row.payloadCanonical == None then multiset(rows)[row] else 0
    ensures forall i, j :: 0 <= i < j < |sealed_| ==> sealed_[i].ledgerId <= sealed_[j].ledgerId
    ensures var p := BuildLegacyAnchorPayload(sha, contract, rows).payload;
            && p.contractId == contract && |p.sealedLedgerIds| == |p.sealedHashes| == |sealed_|
            && (forall i :: 0 <= i < |sealed_| ==>
                  p.sealedLedgerIds[i] == sealed_[i].ledgerId && p.sealedHashes[i] == sealed_[i].currentHash)
            && (exists row :: row in sealed_ && row.hashVersion == p.sealedHashVersion)
            && (forall row :: row in sealed_ ==> row.hashVersion <= p.sealedHashVersion)
            && p.sealedMerkleRoot == ToHex(Mth(sha, Utf8All(p.sealedHashes)))
  {
    sealed_ := SelectLegacyRows(rows);
    SortByIdOrdered(LegacyOf(rows));
    SortByIdKeeps(LegacyOf(rows));
    LegacyOfKeeps(rows);
    MaxVersionIsOne(sealed_);
    RootIsMth(sha, Utf8All(Hashes(sealed_)));
  }

  // ---------- checking ----------

  /** What `byId.get` finds: the last row with this id. */
  function Find(rows: seq<LedgerRow>, id: nat): (found: Option<LedgerRow>)
    ensures found.Some? ==> found.value in rows && found.value.ledgerId == id
    ensures found == None ==> forall row :: row in rows ==> row.ledgerId != id
  {
    if rows == [] then None
    else if rows[|rows| - 1].ledgerId == id then Some(rows[|rows| - 1])
    else Find(rows[..|rows| - 1], id)
  }

  lemma {:induction false} FindIsLast(rows: seq<LedgerRow>, id: nat) returns (i: nat)
    requires Find(rows, id).Some?
    ensures i < |rows| && Find(rows, id) == Some(rows[i]) && rows[i].ledgerId == id
    ensures forall j :: i < j < |rows| ==> rows[j].ledgerId != id
  {
    var n := |rows| - 1;
    if rows[n].ledgerId == id {
      i := n;
    } else {
      i := FindIsLast(rows[..n], id);
    }
  }

  predicate Throws(payload: AnchorPayload, rows: seq<LedgerRow>, i: nat)
    requires i < |payload.sealedLedgerIds|
  {
    Find(rows, payload.sealedLedgerIds[i]).Some? && i >= |payload.sealedHashes|
  }

  /** One sealed row is still there with the hash it was sealed with. */
  predicate Unaltered(payload: AnchorPayload, rows: seq<LedgerRow>, i: nat)
    requires i < |payload.sealedLedgerIds|
  {
    var found := Find(rows, payload.sealedLedgerIds[i]);
    found.Some? && i < |payload.sealedHashes| && found.value.currentHash == payload.sealedHashes[i]
  }

  function EntryDiscrepancy(payload: AnchorPayload, rows: seq<LedgerRow>, i: nat): seq<Discrepancy>
    requires i < |payload.sealedLedgerIds|
  {
    var id := payload.sealedLedgerIds[i];
    if Find(rows, id) == None then [Missing(id)]
    else if Unaltered(payload, rows, i) then []
    else [Altered(id)]
  }

  /** What is said of one sealed entry: missing without a row of that id, altered by another hash. */
  lemma EntryDiscrepancyIs(payload: AnchorPayload, rows: seq<LedgerRow>, i: nat)
    requires i < |payload.sealedLedgerIds| && i < |payload.sealedHashes|
    ensures var id := payload.sealedLedgerIds[i];
            EntryDiscrepancy(payload, rows, i) ==
              if Find(rows, id) == None then [Missing(id)]
              else if Find(rows, id).value.currentHash == payload.sealedHashes[i] then [] else [Altered(id)]
  {
  }

  function DiscrepancyAt(payload: AnchorPayload, rows: seq<LedgerRow>): nat -> seq<Discrepancy>
  {
    (i: nat) => if i < |payload.sealedLedgerIds| then EntryDiscrepancy(payload, rows, i) else []
  }

  function Discrepancies(payload: AnchorPayload, rows: seq<LedgerRow>, n: nat): seq<Discrepancy>
  {
    Flatten(DiscrepancyAt(payload, rows), n)
  }

  predicate AllUnaltered(payload: AnchorPayload, rows: seq<LedgerRow>)
  {
    forall i :: 0 <= i < |payload.sealedLedgerIds| ==> Unaltered(payload, rows, i)
  }

  lemma NoDiscrepanciesIff(payload: AnchorPayload, rows: seq<LedgerRow>)
    ensures Discrepancies(payload, rows, |payload.sealedLedgerIds|) == [] <==> AllUnaltered(payload, rows)
  {
    var n := |payload.sealedLedgerIds|;
    var unaltered := (i: nat) => i < n && Unaltered(payload, rows, i);
    forall i: nat | i < n ensures DiscrepancyAt(payload, rows)(i) == [] <==> unaltered(i) {
    }
    FlattenEmpty(DiscrepancyAt(payload, rows), n, unaltered);
    if forall i: nat :: i < n ==> unaltered(i) {
      forall i | 0 <= i < n ensures Unaltered(payload, rows, i) {
        assert unaltered(i);
      }
    }
  }

  /** Every sealed row is there, unaltered, and the sealed hashes are the ones the root was taken over. */
  predicate StillHolds(sha: Sha256, payload: AnchorPayload, rows: seq<LedgerRow>)
  {
    && AllUnaltered(payload, rows)
    && SealingRoot(sha, payload.sealedHashes) == payload.sealedMerkleRoot
  }

  method IndexById(rows: seq<LedgerRow>) returns (byId: map<nat, LedgerRow>)
    ensures forall id: nat :: if id in byId then Find(rows, id) == Some(byId[id]) else Find(rows, id) == None
  {
    byId := map[];
    for n := 0 to |rows|
      invariant forall id: nat :: if id in byId then Find(rows[..n], id) == Some(byId[id]) else Find(rows[..n], id) == None
    {
      assert rows[..n + 1][..n] == rows[..n];
      byId := byId[rows[n].ledgerId := rows[n]];
    }
    assert rows[..|rows|] == rows;
  }

  predicate NoneThrows(payload: AnchorPayload, rows: seq<LedgerRow>, n: nat)
    requires n <= |payload.sealedLedgerIds|
  {
    forall i :: 0 <= i < n ==> !Throws(payload, rows, i)
  }

  method VerifyLegacyAnchor(sha: Sha256, payload: AnchorPayload, rows: seq<LedgerRow>) returns (r: CheckResult)
    ensures r.Threw? <==> !NoneThrows(payload, rows, |payload.sealedLedgerIds|)
    ensures r.Checked? ==>
      && r.sealedCount == |payload.sealedLedgerIds|
      && r.discrepancies == Discrepancies(payload, rows, |payload.sealedLedgerIds|)
           + if SealingRoot(sha, payload.sealedHashes) == payload.sealedMerkleRoot then [] else [RootEdited]
    ensures r.Intact() <==> StillHolds(sha, payload, rows)
  {
    var discrepancies: seq<Discrepancy> := [];
    var byId := IndexById(rows);
    var ids := payload.sealedLedgerIds;
    for i := 0 to |ids|
      invariant NoneThrows(payload, rows, i)
      invariant discrepancies == Discrepancies(payload, rows, i)
    {
      if ids[i] !in byId {
        discrepancies := discrepancies + [Missing(ids[i])];
        continue;
      }
      if i >= |payload.sealedHashes| {
        assert Throws(payload, rows, i) && !Unaltered(payload, rows, i);
        return CheckResult.Threw;
      }
      if byId[ids[i]].currentHash != payload.sealedHashes[i] {
        discrepancies := discrepancies + [Altered(ids[i])];
      }
    }
    NoDiscrepanciesIff(payload, rows);
    if SealingRoot(sha, payload.sealedHashes) != payload.sealedMerkleRoot {
      discrepancies := discrepancies + [RootEdited];
    }
    return Checked(discrepancies, |ids|);
  }

  // ---------- what an anchor is good for ----------

  predicate DistinctIds(rows: seq<LedgerRow>)
  {
    forall i, j :: 0 <= i < j < |rows| ==> rows[i].ledgerId != rows[j].ledgerId
  }

  lemma {:induction false} FindDistinct(rows: seq<LedgerRow>, row: LedgerRow)
    requires DistinctIds(rows) && row in rows
    ensures Find(rows, row.ledgerId) == Some(row)
  {
    if rows[|rows| - 1] != row {
      var i :| 0 <= i < |rows| && rows[i] == row;
      assert rows[..|rows| - 1][i] == row;
      FindDistinct(rows[..|rows| - 1], row);
    }
  }

  /** The row is still found under its id, with its hash. */
  predicate Kept(row: LedgerRow, later: seq<LedgerRow>)
  {
    var found := Find(later, row.ledgerId);
    found.Some? && found.value.currentHash == row.currentHash
  }

  /** A built anchor holds of later rows exactly when each row it sealed is kept, wherever it stands. */
  lemma FreshAnchorHoldsIff(sha: Sha256, contract: Text, rows: seq<LedgerRow>, later: seq<LedgerRow>)
    requires BuildLegacyAnchorPayload(sha, contract, rows).Sealed?
    ensures StillHolds(sha, BuildLegacyAnchorPayload(sha, contract, rows).payload, later) <==>
            forall row :: row in rows && IsLegacy(row) ==> Kept(row, later)
  {
    var payload := BuildLegacyAnchorPayload(sha, contract, rows).payload;
    var legacy := SelectLegacyRows(rows);
    forall i | 0 <= i < |legacy| ensures Unaltered(payload, later, i) <==> Kept(legacy[i], later) {
    }
    assert AllUnaltered(payload, later) <==> forall i :: 0 <= i < |legacy| ==> Kept(legacy[i], later);
    assert (forall i :: 0 <= i < |legacy| ==> Kept(legacy[i], later)) <==> forall row :: row in legacy ==> Kept(row, later);
  }

  /** An anchor just built over rows with distinct ids is intact over them. */
  lemma FreshAnchorIsIntact(sha: Sha256, contract: Text, rows: seq<LedgerRow>)
    requires DistinctIds(rows) && BuildLegacyAnchorPayload(sha, contract, rows).Sealed?
    ensures StillHolds(sha, BuildLegacyAnchorPayload(sha, contract, rows).payload, rows)
  {
    forall row | row in rows ensures Kept(row, rows) {
      FindDistinct(rows, row);
    }
    FreshAnchorHoldsIff(sha, contract, rows, rows);
  }

  predicate AllUnmistakable(hashes: seq<Text>)
  {
    forall i :: 0 <= i < |hashes| ==> Unmistakable(hashes[i])
  }

  lemma Utf8AllFixes(a: seq<Text>, b: seq<Text>)
    requires AllUnmistakable(a) && Utf8All(a) == Utf8All(b)
    ensures a == b
  {
    assert |a| == |b|;
    forall i | 0 <= i < |a| ensures a[i] == b[i] {
      assert Utf8All(a)[i] == Utf8All(b)[i];
      Utf8Fixes(a[i], b[i]);
    }
  }

  /**
   * Whatever the hash list of a payload is edited to, it does not hold against the old root, whatever the
   * rows, or it collides. The sealed hashes are hexadecimal; neither lone surrogates nor U+FFFD is enough.
   */
  lemma EditedAnchorFails(sha: Sha256, payload: AnchorPayload, edited: seq<Text>, later: seq<LedgerRow>)
    requires AllUnmistakable(payload.sealedHashes) && edited != payload.sealedHashes
    requires SealingRoot(sha, payload.sealedHashes) == payload.sealedMerkleRoot
    ensures !StillHolds(sha, payload.(sealedHashes := edited), later)
            || Collision(sha, TreeInputs(sha, Utf8All(payload.sealedHashes)), TreeInputs(sha, Utf8All(edited)))
  {
    var ds, es := Utf8All(payload.sealedHashes), Utf8All(edited);
    if SealingRoot(sha, payload.sealedHashes) == SealingRoot(sha, edited) {
      HexInjective(ComputeRoot(sha, LeafHashes(sha, ds)), ComputeRoot(sha, LeafHashes(sha, es)));
      ComputedRootBinding(sha, ds, es);
      if ds == es {
        Utf8AllFixes(payload.sealedHashes, edited);
      }
    }
  }

  /** Hashes as the chain writes them are such text. */
  lemma HexIsUnmistakable(bs: Bytes)
    ensures Unmistakable(ToHex(bs))
  {
    HexIsPrintable(bs);
    PrintableIsWellFormed(ToHex(bs));
  }

  predicate WrittenAsHex(rows: seq<LedgerRow>, bytes: seq<Bytes>)
  {
    |bytes| == |rows| && forall i :: 0 <= i < |rows| ==> rows[i].currentHash == ToHex(bytes[i])
  }

  /** An anchor built over rows with hexadecimal hashes cannot be edited at all, or the edit collides. */
  lemma EditedBuiltAnchorFails(
    sha: Sha256, contract: Text, rows: seq<LedgerRow>, bytes: seq<Bytes>, edited: seq<Text>, later: seq<LedgerRow>)
    requires BuildLegacyAnchorPayload(sha, contract, rows).Sealed? && WrittenAsHex(rows, bytes)
    requires edited != BuildLegacyAnchorPayload(sha, contract, rows).payload.sealedHashes
    ensures var payload := BuildLegacyAnchorPayload(sha, contract, rows).payload;
            !StillHolds(sha, payload.(sealedHashes := edited), later)
            || Collision(sha, TreeInputs(sha, Utf8All(payload.sealedHashes)), TreeInputs(sha, Utf8All(edited)))
  {
    var payload, legacy := BuildLegacyAnchorPayload(sha, contract, rows).payload, SelectLegacyRows(rows);
    forall i | 0 <= i < |payload.sealedHashes| ensures Unmistakable(payload.sealedHashes[i]) {
      assert legacy[i] in legacy && legacy[i] in rows;
      var j :| 0 <= j < |rows| && rows[j] == legacy[i];
      HexIsUnmistakable(bytes[j]);
    }
    EditedAnchorFails(sha, payload, edited, later);
  }

  // ---------- the legacy segment ----------

  function FirstModern(rows: seq<LedgerRow>): (i: nat)
    ensures i <= |rows| && forall j :: 0 <= j < i ==> IsLegacy(rows[j])
    ensures i < |rows| ==> !IsLegacy(rows[i])
  {
    if rows == [] || !IsLegacy(rows[0]) then 0 else 1 + FirstModern(rows[1..])
  }

  /** The field of `reportLegacySegment`, as it is computed. */
  function LegacyIsPrefix(rows: seq<LedgerRow>): bool
  {
    var ordered := SortById(rows);
    var first := FirstModern(ordered);
    || LegacyOf(ordered) == []
    || first == |ordered|
    || ((forall i :: 0 <= i < first ==> IsLegacy(ordered[i])) &&
        (forall i :: first <= i < |ordered| ==> !IsLegacy(ordered[i])))
  }

  /** Exactly the rows with ids below the cut are legacy. */
  predicate CutAt(rows: seq<LedgerRow>, cut: int)
  {
    forall row :: row in rows ==> (IsLegacy(row) <==> row.ledgerId < cut)
  }

  lemma {:induction false} InsertByIdDistinct(row: LedgerRow, rows: seq<LedgerRow>)
    requires DistinctIds(rows) && forall x :: x in rows ==> x.ledgerId != row.ledgerId
    ensures DistinctIds(InsertById(row, rows))
  {
    if rows != [] && row.ledgerId > rows[0].ledgerId {
      InsertByIdDistinct(row, rows[1..]);
      forall x | x in InsertById(row, rows[1..]) ensures x.ledgerId != rows[0].ledgerId {
        if x != row {
          var i :| 0 <= i < |rows[1..]| && rows[1..][i] == x;
          assert rows[i + 1] == x;
        }
      }
    }
  }

  lemma {:induction false} SortByIdDistinct(rows: seq<LedgerRow>)
    requires DistinctIds(rows)
    ensures DistinctIds(SortById(rows))
  {
    if rows != [] {
      SortByIdDistinct(rows[1..]);
      InsertByIdDistinct(rows[0], SortById(rows[1..]));
    }
  }

  lemma OrderedHasCut(ordered: seq<LedgerRow>, first: nat)
    requires Ordered(ordered) && DistinctIds(ordered) && first <= |ordered|
    requires forall i :: 0 <= i < first ==> IsLegacy(ordered[i])
    requires forall i :: first <= i < |ordered| ==> !IsLegacy(ordered[i])
    ensures exists cut :: CutAt(ordered, cut)
  {
    if first == |ordered| {
      var cut := if ordered == [] then 0 else ordered[|ordered| - 1].ledgerId + 1;
      assert CutAt(ordered, cut);
    } else {
      assert CutAt(ordered, ordered[first].ledgerId);
    }
  }

  lemma CutMeansPrefix(ordered: seq<LedgerRow>, cut: int, first: nat)
    requires Ordered(ordered) && CutAt(ordered, cut) && first < |ordered| && !IsLegacy(ordered[first])
    ensures forall i :: first <= i < |ordered| ==> !IsLegacy(ordered[i])
  {
    forall i | first <= i < |ordered| ensures !IsLegacy(ordered[i]) {
      assert ordered[first] in ordered && ordered[i] in ordered;
    }
  }

  lemma PrefixMeansCut(rows: seq<LedgerRow>)
    requires DistinctIds(rows) && LegacyIsPrefix(rows)
    ensures exists cut :: CutAt(rows, cut)
  {
    var ordered := SortById(rows);
    SortByIdOrdered(rows);
    SortByIdDistinct(rows);
    OrderedHasCut(ordered, if LegacyOf(ordered) == [] then 0 else FirstModern(ordered));
    var cut :| CutAt(ordered, cut);
    assert CutAt(rows, cut);
  }

  /** What the field means: the legacy rows are those below some id, so the rest starts at one boundary. */
  lemma LegacyIsPrefixMeans(rows: seq<LedgerRow>)
    requires DistinctIds(rows)
    ensures LegacyIsPrefix(rows) <==> exists cut :: CutAt(rows, cut)
  {
    if LegacyIsPrefix(rows) {
      PrefixMeansCut(rows);
    }
    if cut :| CutAt(rows, cut) {
      var ordered := SortById(rows);
      SortByIdOrdered(rows);
      assert CutAt(ordered, cut);
      if FirstModern(ordered) < |ordered| {
        CutMeansPrefix(ordered, cut, FirstModern(ordered));
      }
    }
  }
}
