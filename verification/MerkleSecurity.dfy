/**
 * What a Merkle root fixes. Every statement here is of the form "the expected equality holds, or
 * two byte strings that were actually hashed, one on each side, collide".
 */
module MerkleSecurity {
  import opened Encoding
  import opened Merkle

  /** The byte strings hashed while the root over `ds` is computed. */
  function TreeInputs(sha: Sha256, ds: seq<Bytes>): set<Bytes>
  {
    if ds == [] then {[]}
    else if |ds| == 1 then {LeafInput(ds[0])}
    else
      var k := Split(|ds|);
      {NodeInput(Mth(sha, ds[..k]), Mth(sha, ds[k..]))} + TreeInputs(sha, ds[..k]) + TreeInputs(sha, ds[k..])
  }

  /** The byte strings hashed while a proof for `data` is checked. */
  function ProofInputs(sha: Sha256, data: Bytes, path: seq<Step>): set<Bytes>
  {
    if path == [] then {LeafInput(data)}
    else
      var below, s := path[..|path| - 1], path[|path| - 1];
      var running := Climb(sha, HashLeaf(sha, data), below);
      {if s.side == Left then NodeInput(s.hash, running) else NodeInput(running, s.hash)}
        + ProofInputs(sha, data, below)
  }

  /** Two node inputs over 32-byte digests are equal only when both halves are. */
  lemma NodeInputInjective(l: Bytes, r: Bytes, l': Bytes, r': Bytes)
    requires |l| == |l'| == 32
    requires NodeInput(l, r) == NodeInput(l', r')
    ensures l == l' && r == r'
  {
    assert l == NodeInput(l, r)[1..33] && l' == NodeInput(l', r')[1..33];
    assert r == NodeInput(l, r)[33..] && r' == NodeInput(l', r')[33..];
  }

  /** The two prefix bytes keep leaves, interior nodes and the empty tree apart. */
  lemma PrefixesDiffer(data: Bytes, l: Bytes, r: Bytes)
    ensures LeafInput(data) != NodeInput(l, r) && LeafInput(data) != [] && NodeInput(l, r) != []
  {
    assert LeafInput(data)[0] == 0 && NodeInput(l, r)[0] == 1;
  }

  lemma LeafInputInjective(d: Bytes, e: Bytes)
    requires LeafInput(d) == LeafInput(e)
    ensures d == e
  {
    assert d == LeafInput(d)[1..] && e == LeafInput(e)[1..];
  }

  ghost predicate RootInput(sha: Sha256, ds: seq<Bytes>, x: Bytes)
  {
    x in TreeInputs(sha, ds) && sha(x) == Mth(sha, ds)
  }

  /** The last byte string hashed for a root. */
  function TopInput(sha: Sha256, ds: seq<Bytes>): (x: Bytes)
    ensures RootInput(sha, ds, x)
  {
    if ds == [] then []
    else if |ds| == 1 then LeafInput(ds[0])
    else var k := Split(|ds|); NodeInput(Mth(sha, ds[..k]), Mth(sha, ds[k..]))
  }

  // ---------- the root binds the list ----------

  /** Equal roots, even over lists of different lengths, mean equal lists or a located collision. */
  lemma {:induction false} RootBinding(sha: Sha256, ds: seq<Bytes>, es: seq<Bytes>)
    requires Mth(sha, ds) == Mth(sha, es)
    ensures ds == es || Collision(sha, TreeInputs(sha, ds), TreeInputs(sha, es))
    decreases |ds|
  {
    var x, y := TopInput(sha, ds), TopInput(sha, es);
    if x == y {
      if |ds| >= 2 && |es| >= 2 {
        RootBindingNodes(sha, ds, es, Split(|ds|), Split(|es|));
      } else {
        SameTopInputSmall(sha, ds, es);
      }
    }
  }

  lemma SameTopInputSmall(sha: Sha256, ds: seq<Bytes>, es: seq<Bytes>)
    requires TopInput(sha, ds) == TopInput(sha, es) && (|ds| < 2 || |es| < 2)
    ensures ds == es
  {
    if |ds| >= 2 {
      var k := Split(|ds|);
      PrefixesDiffer(if es == [] then [] else es[0], Mth(sha, ds[..k]), Mth(sha, ds[k..]));
    } else if |es| >= 2 {
      var k := Split(|es|);
      PrefixesDiffer(if ds == [] then [] else ds[0], Mth(sha, es[..k]), Mth(sha, es[k..]));
    } else if |ds| == 1 && |es| == 1 {
      LeafInputInjective(ds[0], es[0]);
    }
  }

  /** The four roots one level down agree in pairs. */
  lemma SameRootsBelow(sha: Sha256, ds: seq<Bytes>, es: seq<Bytes>, k: nat, j: nat)
    requires |ds| >= 2 && |es| >= 2 && k == Split(|ds|) && j == Split(|es|)
    requires TopInput(sha, ds) == TopInput(sha, es)
    ensures Mth(sha, ds[..k]) == Mth(sha, es[..j]) && Mth(sha, ds[k..]) == Mth(sha, es[j..])
  {
    var dsLeft, dsRight := Mth(sha, ds[..k]), Mth(sha, ds[k..]);
    var esLeft, esRight := Mth(sha, es[..j]), Mth(sha, es[j..]);
    NodeInputInjective(dsLeft, dsRight, esLeft, esRight);
  }

  lemma {:induction false} RootBindingNodes(sha: Sha256, ds: seq<Bytes>, es: seq<Bytes>, k: nat, j: nat)
    requires |ds| >= 2 && |es| >= 2 && k == Split(|ds|) && j == Split(|es|)
    requires TopInput(sha, ds) == TopInput(sha, es)
    ensures ds == es || Collision(sha, TreeInputs(sha, ds), TreeInputs(sha, es))
    decreases |ds|, 0
  {
    var dsLeft, dsRight, esLeft, esRight := ds[..k], ds[k..], es[..j], es[j..];
    SameRootsBelow(sha, ds, es, k, j);
    RootBinding(sha, dsLeft, esLeft);
    RootBinding(sha, dsRight, esRight);
    if dsLeft != esLeft {
      CollisionWiden(sha, TreeInputs(sha, dsLeft), TreeInputs(sha, esLeft), TreeInputs(sha, ds), TreeInputs(sha, es));
    } else if dsRight != esRight {
      CollisionWiden(sha, TreeInputs(sha, dsRight), TreeInputs(sha, esRight), TreeInputs(sha, ds), TreeInputs(sha, es));
    } else {
      assert ds == dsLeft + dsRight && es == esLeft + esRight;
    }
  }

  /** The statement for `computeRoot` itself. */
  lemma ComputedRootBinding(sha: Sha256, ds: seq<Bytes>, es: seq<Bytes>)
    requires ComputeRoot(sha, LeafHashes(sha, ds)) == ComputeRoot(sha, LeafHashes(sha, es))
    ensures ds == es || Collision(sha, TreeInputs(sha, ds), TreeInputs(sha, es))
  {
    RootIsMth(sha, ds);
    RootIsMth(sha, es);
    RootBinding(sha, ds, es);
  }

  // ---------- inclusion proofs ----------

  lemma {:induction false} ClimbAuditPath(sha: Sha256, hs: seq<Bytes>, m: nat)
    requires m < |hs|
    ensures Climb(sha, hs[m], AuditPath(sha, hs, m)) == MthOver(sha, hs)
    decreases |hs|
  {
    if |hs| > 1 {
      var k := Split(|hs|);
      var half, j := if m < k then hs[..k] else hs[k..], if m < k then m else m - k;
      ClimbAuditPath(sha, half, j);
      var path := AuditPath(sha, hs, m);
      assert path[..|path| - 1] == AuditPath(sha, half, j);
    }
  }

  lemma {:induction false} MthOverDigests(sha: Sha256, hs: seq<Bytes>)
    requires forall i :: 0 <= i < |hs| ==> |hs[i]| == 32
    ensures |MthOver(sha, hs)| == 32
  {
  }

  lemma {:induction false} AuditPathDigests(sha: Sha256, hs: seq<Bytes>, m: nat)
    requires m < |hs|
    requires forall i :: 0 <= i < |hs| ==> |hs[i]| == 32
    ensures forall i :: 0 <= i < |AuditPath(sha, hs, m)| ==> |AuditPath(sha, hs, m)[i].hash| == 32
    decreases |hs|
  {
    if |hs| > 1 {
      var k := Split(|hs|);
      MthOverDigests(sha, hs[..k]);
      MthOverDigests(sha, hs[k..]);
      if m < k {
        AuditPathDigests(sha, hs[..k], m);
      } else {
        AuditPathDigests(sha, hs[k..], m - k);
      }
    }
  }

  /** Every proof that is built is accepted, after its hex is decoded, against the tree's own root. */
  lemma BuiltProofIsAccepted(sha: Sha256, hs: seq<Bytes>, m: nat, proof: InclusionProof)
    requires m < |hs| && forall i :: 0 <= i < |hs| ==> |hs[i]| == 32
    requires proof == InclusionProof(m, |hs|, ToHex(hs[m]), ToHex(ComputeRoot(sha, hs)), Render(LevelPath(sha, hs, m)))
    ensures Accepts(sha, FromHex(proof.leafHash), Decode(proof.path), FromHex(proof.root))
  {
    HexRoundTrip(hs[m]);
    HexRoundTrip(ComputeRoot(sha, hs));
    DecodeRender(LevelPath(sha, hs, m));
    LevelPathIsAuditPath(sha, hs, m);
    RootIsMthOver(sha, hs);
    ClimbAuditPath(sha, hs, m);
    MthOverDigests(sha, hs);
    AuditPathDigests(sha, hs, m);
  }

  /** `data` stands at some position of `ds`, and `path` is the audit path of that position. */
  ghost predicate IsProofOf(sha: Sha256, ds: seq<Bytes>, data: Bytes, path: seq<Step>)
  {
    exists i: nat :: i < |ds| && ds[i] == data && path == AuditPath(sha, LeafHashes(sha, ds), i)
  }

  lemma LeafHashesCut(sha: Sha256, ds: seq<Bytes>, k: nat)
    requires k <= |ds|
    ensures LeafHashes(sha, ds)[..k] == LeafHashes(sha, ds[..k])
    ensures LeafHashes(sha, ds)[k..] == LeafHashes(sha, ds[k..])
  {
  }

  lemma IsProofOfLower(sha: Sha256, ds: seq<Bytes>, k: nat, data: Bytes, below: seq<Step>, path: seq<Step>)
    requires |ds| >= 2 && k == Split(|ds|) && IsProofOf(sha, ds[..k], data, below)
    requires path == below + [Step(Mth(sha, ds[k..]), Right)]
    ensures IsProofOf(sha, ds, data, path)
  {
    var i: nat :| i < |ds[..k]| && ds[..k][i] == data && below == AuditPath(sha, LeafHashes(sha, ds[..k]), i);
    LeafHashesCut(sha, ds, k);
    MthOverLeafHashes(sha, ds[k..]);
    AuditPathUnfoldLower(sha, LeafHashes(sha, ds), k, i);
    assert ds[i] == data;
  }

  lemma IsProofOfUpper(sha: Sha256, ds: seq<Bytes>, k: nat, data: Bytes, below: seq<Step>, path: seq<Step>)
    requires |ds| >= 2 && k == Split(|ds|) && IsProofOf(sha, ds[k..], data, below)
    requires path == below + [Step(Mth(sha, ds[..k]), Left)]
    ensures IsProofOf(sha, ds, data, path)
  {
    var j: nat :| j < |ds[k..]| && ds[k..][j] == data && below == AuditPath(sha, LeafHashes(sha, ds[k..]), j);
    UpperProof(sha, ds, k, k + j, j);
    assert ds[k + j] == data;
  }

  lemma UpperProof(sha: Sha256, ds: seq<Bytes>, k: nat, i: nat, j: nat)
    requires |ds| >= 2 && k == Split(|ds|) && i == k + j < |ds|
    ensures AuditPath(sha, LeafHashes(sha, ds), i)
            == AuditPath(sha, LeafHashes(sha, ds[k..]), j) + [Step(Mth(sha, ds[..k]), Left)]
  {
    LeafHashesCut(sha, ds, k);
    MthOverLeafHashes(sha, ds[..k]);
    AuditPathUnfoldUpper(sha, LeafHashes(sha, ds), k, i, j);
  }

  ghost predicate DigestSteps(path: seq<Step>)
  {
    forall i :: 0 <= i < |path| ==> |path[i].hash| == 32
  }

  ghost predicate ProvedOrCollides(sha: Sha256, ds: seq<Bytes>, data: Bytes, path: seq<Step>)
  {
    IsProofOf(sha, ds, data, path) || Collision(sha, TreeInputs(sha, ds), ProofInputs(sha, data, path))
  }

  /** What holds of a half and the path below the last step holds of the whole. */
  lemma LiftThroughNode(sha: Sha256, ds: seq<Bytes>, k: nat, data: Bytes, below: seq<Step>, s: Step)
    requires |ds| >= 2 && k == Split(|ds|)
    requires s.side == Left ==> s.hash == Mth(sha, ds[..k]) && ProvedOrCollides(sha, ds[k..], data, below)
    requires s.side == Right ==> s.hash == Mth(sha, ds[k..]) && ProvedOrCollides(sha, ds[..k], data, below)
    ensures ProvedOrCollides(sha, ds, data, below + [s])
  {
    var path := below + [s];
    assert path[..|path| - 1] == below;
    var half := if s.side == Left then ds[k..] else ds[..k];
    if Collision(sha, TreeInputs(sha, half), ProofInputs(sha, data, below)) {
      CollisionWiden(sha, TreeInputs(sha, half), ProofInputs(sha, data, below),
                     TreeInputs(sha, ds), ProofInputs(sha, data, path));
    } else if s.side == Left {
      IsProofOfUpper(sha, ds, k, data, below, path);
    } else {
      IsProofOfLower(sha, ds, k, data, below, path);
    }
  }

  /** A path of any length that reaches the root is the audit path of an entry, or hashes a collision. */
  lemma {:induction false} ClimbReachesRoot(sha: Sha256, ds: seq<Bytes>, data: Bytes, path: seq<Step>)
    requires DigestSteps(path) && Climb(sha, HashLeaf(sha, data), path) == Mth(sha, ds)
    ensures ProvedOrCollides(sha, ds, data, path)
    decreases |path|
  {
    if path == [] {
      ClimbEmptyPath(sha, ds, data);
    } else {
      var below, s := path[..|path| - 1], path[|path| - 1];
      var running := Climb(sha, HashLeaf(sha, data), below);
      assert path == below + [s];
      ClimbIsDigest(sha, data, below);
      var left, right := if s.side == Left then s.hash else running, if s.side == Left then running else s.hash;
      var x, y := TopInput(sha, ds), NodeInput(left, right);
      assert y in ProofInputs(sha, data, path) && sha(y) == Mth(sha, ds);
      if x == y {
        TopInputIsNode(sha, ds, left, right);
        var k := Split(|ds|);
        ClimbReachesRoot(sha, if s.side == Left then ds[k..] else ds[..k], data, below);
        LiftThroughNode(sha, ds, k, data, below, s);
      }
    }
  }

  /** The too-long case cannot pass a leaf: only a real interior node has a node input. */
  lemma TopInputIsNode(sha: Sha256, ds: seq<Bytes>, left: Bytes, right: Bytes)
    requires |left| == 32 && TopInput(sha, ds) == NodeInput(left, right)
    ensures |ds| >= 2 && left == Mth(sha, ds[..Split(|ds|)]) && right == Mth(sha, ds[Split(|ds|)..])
  {
    PrefixesDiffer(if ds == [] then [] else ds[0], left, right);
    if |ds| >= 2 {
      var k := Split(|ds|);
      NodeInputInjective(left, right, Mth(sha, ds[..k]), Mth(sha, ds[k..]));
    }
  }

  lemma ClimbIsDigest(sha: Sha256, data: Bytes, path: seq<Step>)
    ensures |Climb(sha, HashLeaf(sha, data), path)| == 32
  {
  }

  /** The too-short case: no steps at all. */
  lemma ClimbEmptyPath(sha: Sha256, ds: seq<Bytes>, data: Bytes)
    requires HashLeaf(sha, data) == Mth(sha, ds)
    ensures IsProofOf(sha, ds, data, []) || Collision(sha, TreeInputs(sha, ds), ProofInputs(sha, data, []))
  {
    var x, y := TopInput(sha, ds), LeafInput(data);
    assert y in ProofInputs(sha, data, []);
    if x == y {
      if |ds| >= 2 {
        var k := Split(|ds|);
        PrefixesDiffer(data, Mth(sha, ds[..k]), Mth(sha, ds[k..]));
        assert false;
      } else if |ds| == 1 {
        LeafInputInjective(ds[0], data);
        assert AuditPath(sha, LeafHashes(sha, ds), 0) == [];
        assert ds[0] == data;
      }
    }
  }

  /**
   * Soundness of inclusion proofs, for hex steps of any content and any number: what is accepted
   * against a computed root is an entry of the list, proved by exactly the path the builder
   * gives for its position; otherwise the check itself hashed one half of a collision.
   */
  lemma InclusionSoundness(sha: Sha256, ds: seq<Bytes>, data: Bytes, steps: seq<ProofStep>)
    requires Accepts(sha, HashLeaf(sha, data), Decode(steps), ComputeRoot(sha, LeafHashes(sha, ds)))
    ensures (exists i: nat :: i < |ds| && ds[i] == data && Decode(steps) == LevelPath(sha, LeafHashes(sha, ds), i))
            || Collision(sha, TreeInputs(sha, ds), ProofInputs(sha, data, Decode(steps)))
  {
    RootIsMth(sha, ds);
    ClimbReachesRoot(sha, ds, data, Decode(steps));
    if IsProofOf(sha, ds, data, Decode(steps)) {
      var hs := LeafHashes(sha, ds);
      var i: nat :| i < |ds| && ds[i] == data && Decode(steps) == AuditPath(sha, hs, i);
      LevelPathIsAuditPath(sha, hs, i);
    }
  }
}
