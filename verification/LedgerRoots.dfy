/** The Merkle root over a contract's rows, and what it proves about them. */
module LedgerRoots {
  import opened Encoding
  import opened Canonical
  import opened CanonicalEquality
  import opened Chain
  import opened Leaf
  import opened Merkle
  import opened MerkleSecurity

  /** Every row can be printed: the others make `leafBytes` throw. */
  predicate Printing(rows: seq<LedgerRow>)
  {
    forall i :: 0 <= i < |rows| ==> LeafMaterial(rows[i]).Ok?
  }

  predicate ProperRows(rows: seq<LedgerRow>)
  {
    forall i :: 0 <= i < |rows| ==> Proper(rows[i].payload)
  }

  function LeafDatas(rows: seq<LedgerRow>): (ds: seq<Bytes>)
    requires Printing(rows)
    ensures |ds| == |rows| && forall i :: 0 <= i < |rows| ==> ds[i] == LeafData(rows[i])
  {
    seq(|rows|, i requires 0 <= i < |rows| => LeafData(rows[i]))
  }

  /** The root as it is stored, in hex. */
  function RootOf(sha: Sha256, rows: seq<LedgerRow>): (root: Text)
    requires Printing(rows)
  {
    ToHex(ComputeRoot(sha, LeafHashes(sha, LeafDatas(rows))))
  }

  /** The stored root is the tree head of section 2.1 of RFC 6962 over the UTF-8 text of each leaf, in order. */
  lemma RootIsTreeHead(sha: Sha256, rows: seq<LedgerRow>)
    requires Printing(rows)
    ensures var ds := LeafDatas(rows);
            && RootOf(sha, rows) == ToHex(Mth(sha, ds)) && |ds| == |rows|
            && forall i :: 0 <= i < |rows| ==> ds[i] == Utf8(LeafMaterial(rows[i]).text)
  {
    RootIsMth(sha, LeafDatas(rows));
  }

  ghost predicate SameEntries(xs: seq<LedgerRow>, ys: seq<LedgerRow>)
  {
    |xs| == |ys| && forall i :: 0 <= i < |xs| ==> SameEntry(xs[i], ys[i])
  }

  ghost predicate RootsCollide(sha: Sha256, xs: seq<LedgerRow>, ys: seq<LedgerRow>)
    requires Printing(xs) && Printing(ys)
  {
    Collision(sha, TreeInputs(sha, LeafDatas(xs)), TreeInputs(sha, LeafDatas(ys)))
  }

  lemma EqualDatasSameEntries(xs: seq<LedgerRow>, ys: seq<LedgerRow>)
    requires Printing(xs) && Printing(ys) && ProperRows(xs) && ProperRows(ys)
    requires LeafDatas(xs) == LeafDatas(ys)
    ensures SameEntries(xs, ys)
  {
    forall i | 0 <= i < |xs| ensures SameEntry(xs[i], ys[i]) {
      assert LeafDatas(xs)[i] == LeafDatas(ys)[i];
      LeafBindsRow(xs[i], ys[i]);
    }
  }

  /** Equal stored roots, whatever the leaf counts: the same rows in all six fields, or a collision. */
  lemma StoredRootFixesRows(sha: Sha256, xs: seq<LedgerRow>, ys: seq<LedgerRow>)
    requires Printing(xs) && Printing(ys) && ProperRows(xs) && ProperRows(ys)
    requires RootOf(sha, xs) == RootOf(sha, ys)
    ensures SameEntries(xs, ys) || RootsCollide(sha, xs, ys)
  {
    HexInjective(ComputeRoot(sha, LeafHashes(sha, LeafDatas(xs))), ComputeRoot(sha, LeafHashes(sha, LeafDatas(ys))));
    ComputedRootBinding(sha, LeafDatas(xs), LeafDatas(ys));
    if LeafDatas(xs) == LeafDatas(ys) {
      EqualDatasSameEntries(xs, ys);
    }
  }

  /** A proof for a row is accepted against a stored root only if the row was rooted, or a collision is shown. */
  lemma AcceptedRowWasRooted(sha: Sha256, rows: seq<LedgerRow>, row: LedgerRow, steps: seq<ProofStep>)
    requires Printing(rows) && ProperRows(rows) && LeafMaterial(row).Ok? && Proper(row.payload)
    requires Accepts(sha, HashLeaf(sha, LeafData(row)), Decode(steps), FromHex(RootOf(sha, rows)))
    ensures (exists i :: 0 <= i < |rows| && SameEntry(rows[i], row))
            || Collision(sha, TreeInputs(sha, LeafDatas(rows)), ProofInputs(sha, LeafData(row), Decode(steps)))
  {
    var ds := LeafDatas(rows);
    HexRoundTrip(ComputeRoot(sha, LeafHashes(sha, ds)));
    InclusionSoundness(sha, ds, LeafData(row), steps);
    if i: nat :| i < |ds| && ds[i] == LeafData(row) && Decode(steps) == LevelPath(sha, LeafHashes(sha, ds), i) {
      LeafBindsRow(rows[i], row);
    }
  }

  /** The proof built for one row of a chain is accepted against the root of that chain. */
  lemma RowProofIsAccepted(sha: Sha256, rows: seq<LedgerRow>, m: nat, proof: InclusionProof)
    requires Printing(rows) && m < |rows|
    requires var hs := LeafHashes(sha, LeafDatas(rows));
             proof == InclusionProof(m, |hs|, ToHex(hs[m]), ToHex(ComputeRoot(sha, hs)), Render(LevelPath(sha, hs, m)))
    ensures proof.root == RootOf(sha, rows)
    ensures Accepts(sha, HashLeaf(sha, LeafData(rows[m])), Decode(proof.path), FromHex(RootOf(sha, rows)))
  {
    var hs := LeafHashes(sha, LeafDatas(rows));
    BuiltProofIsAccepted(sha, hs, m, proof);
    HexRoundTrip(hs[m]);
  }
}
