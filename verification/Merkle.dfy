/**
 * The Merkle tree of packages/ledger-client/src/merkle.ts: a level-by-level construction with
 * promotion of odd nodes, beside the recursive definitions of section 2.1 of RFC 6962.
 */
module Merkle {
  import opened Encoding

  function LeafInput(data: Bytes): Bytes { [0] + data }

  function NodeInput(left: Bytes, right: Bytes): Bytes { [1] + left + right }

  function HashLeaf(sha: Sha256, data: Bytes): Digest { sha(LeafInput(data)) }

  function HashNode(sha: Sha256, left: Bytes, right: Bytes): Digest { sha(NodeInput(left, right)) }

  /** The root of an empty tree: the digest of the empty string. */
  function EmptyRoot(sha: Sha256): Digest { sha([]) }

  // ---------- construction, bottom-up ----------

  lemma Reassociate<T>(whole: seq<T>, part: seq<T>, above: seq<T>, step: seq<T>, rest: seq<T>, last: seq<T>)
    requires whole == part + last && part == step + rest && above == rest + last
    ensures whole == step + above
  {
  }

  /** One level up: neighbours are paired, an odd last node is promoted as it is. */
  function NextLevel(sha: Sha256, nodes: seq<Bytes>): (next: seq<Bytes>)
    ensures |next| == (|nodes| + 1) / 2
  {
    if |nodes| <= 1 then nodes
    else [HashNode(sha, nodes[0], nodes[1])] + NextLevel(sha, nodes[2..])
  }

  function Levels(sha: Sha256, leaves: seq<Bytes>): (levels: seq<seq<Bytes>>)
    ensures |levels| >= 1 && |levels[|levels| - 1]| == 1
    decreases |leaves|
  {
    if leaves == [] then [[EmptyRoot(sha)]]
    else if |leaves| == 1 then [leaves]
    else [leaves] + Levels(sha, NextLevel(sha, leaves))
  }

  lemma {:induction false} NextLevelAt(sha: Sha256, nodes: seq<Bytes>, j: nat)
    requires 2 * j < |nodes|
    ensures NextLevel(sha, nodes)[j] ==
            if 2 * j + 1 < |nodes| then HashNode(sha, nodes[2 * j], nodes[2 * j + 1]) else nodes[2 * j]
  {
    if j > 0 {
      NextLevelAt(sha, nodes[2..], j - 1);
    }
  }

  /** The inner loop: one pass over a level, two nodes at a time. */
  method PairUp(sha: Sha256, current: seq<Bytes>) returns (next: seq<Bytes>)
    ensures next == NextLevel(sha, current)
  {
    next := [];
    var i := 0;
    ghost var above := NextLevel(sha, current);
    while i < |current|
      invariant i % 2 == 0 && 0 <= i <= |current| + 1
      invariant next == above[..i / 2]
    {
      NextLevelAt(sha, current, i / 2);
      if i + 1 < |current| {
        next := next + [HashNode(sha, current[i], current[i + 1])];
      } else {
        // Promoted, not duplicated.
        next := next + [current[i]];
      }
      i := i + 2;
    }
    assert above[..i / 2] == above;
  }

  method BuildLevels(sha: Sha256, leaves: seq<Bytes>) returns (levels: seq<seq<Bytes>>)
    ensures levels == Levels(sha, leaves)
  {
    if |leaves| == 0 {
      return [[EmptyRoot(sha)]];
    }
    levels := [leaves];
    var current := leaves;
    ghost var below := [];
    while |current| > 1
      invariant |current| >= 1
      invariant levels == below + [current]
      invariant Levels(sha, leaves) == below + Levels(sha, current)
      decreases |current|
    {
      var next := PairUp(sha, current);
      Associate(below, [current], Levels(sha, next));
      below := levels;
      levels := levels + [next];
      current := next;
    }
  }

  function ComputeRoot(sha: Sha256, leafHashes: seq<Bytes>): (root: Bytes)
  {
    var levels := Levels(sha, leafHashes);
    levels[|levels| - 1][0]
  }

  // ---------- inclusion proofs ----------

  datatype Side = Left | Right

  /** A sibling and the side it stands on. */
  datatype Step = Step(hash: Bytes, side: Side)

  /** A step as a proof carries it: the sibling in hex. */
  datatype ProofStep = ProofStep(hash: Text, side: Side)

  datatype InclusionProof = InclusionProof(
    leafIndex: nat, leafCount: nat, leafHash: Text, root: Text, path: seq<ProofStep>)

  datatype ProofResult = Built(proof: InclusionProof) | RangeError

  function Render(path: seq<Step>): (steps: seq<ProofStep>)
    ensures |steps| == |path|
  {
    seq(|path|, i requires 0 <= i < |path| => ProofStep(ToHex(path[i].hash), path[i].side))
  }

  function Decode(steps: seq<ProofStep>): (path: seq<Step>)
    ensures |path| == |steps|
  {
    seq(|steps|, i requires 0 <= i < |steps| => Step(FromHex(steps[i].hash), steps[i].side))
  }

  lemma DecodeRender(path: seq<Step>)
    ensures Decode(Render(path)) == path
  {
    forall i | 0 <= i < |path| ensures Decode(Render(path))[i] == path[i] {
      HexRoundTrip(path[i].hash);
    }
  }

  lemma RenderAppend(path: seq<Step>, more: seq<Step>)
    ensures Render(path + more) == Render(path) + Render(more)
  {
  }

  /** The step recorded at one level: none when the node was promoted. */
  function LevelStep(nodes: seq<Bytes>, index: nat): seq<Step>
    requires index < |nodes|
  {
    if index % 2 == 1 then [Step(nodes[index - 1], Left)]
    else if index + 1 < |nodes| then [Step(nodes[index + 1], Right)]
    else []
  }

  /** The path read off the levels, from the leaf upwards. */
  function LevelPath(sha: Sha256, nodes: seq<Bytes>, index: nat): seq<Step>
    requires index < |nodes|
    decreases |nodes|
  {
    if |nodes| == 1 then []
    else LevelStep(nodes, index) + LevelPath(sha, NextLevel(sha, nodes), index / 2)
  }

  lemma {:induction false} LevelsAt(sha: Sha256, leaves: seq<Bytes>, i: nat)
    requires leaves != [] && i < |Levels(sha, leaves)|
    ensures var levels := Levels(sha, leaves);
            if i + 1 < |levels| then |levels[i]| > 1 && levels[i + 1] == NextLevel(sha, levels[i])
            else |levels[i]| == 1
    decreases |leaves|
  {
    if |leaves| > 1 && i > 0 {
      LevelsAt(sha, NextLevel(sha, leaves), i - 1);
    }
  }

  lemma OneLevelUp(sha: Sha256, nodes: seq<Bytes>, index: nat)
    requires index < |nodes| && |nodes| > 1
    ensures index / 2 < |NextLevel(sha, nodes)|
    ensures LevelPath(sha, nodes, index) == LevelStep(nodes, index) + LevelPath(sha, NextLevel(sha, nodes), index / 2)
  {
  }

  /** The sibling at one level, on its side, if the node has one. */
  method SiblingStep(nodes: seq<Bytes>, index: nat) returns (step: seq<ProofStep>)
    requires index < |nodes|
    ensures step == Render(LevelStep(nodes, index))
  {
    var isRight := index % 2 == 1;
    var siblingIndex := if isRight then index - 1 else index + 1;
    step := [];
    if siblingIndex < |nodes| {
      step := [ProofStep(ToHex(nodes[siblingIndex]), if isRight then Left else Right)];
    }
  }

  method BuildInclusionProof(sha: Sha256, leafHashes: seq<Bytes>, leafIndex: int) returns (r: ProofResult)
    ensures r.RangeError? <==> !(0 <= leafIndex < |leafHashes|)
    ensures r.Built? ==>
      r.proof == InclusionProof(leafIndex, |leafHashes|, ToHex(leafHashes[leafIndex]),
                                ToHex(ComputeRoot(sha, leafHashes)), Render(LevelPath(sha, leafHashes, leafIndex)))
  {
    if leafIndex < 0 || leafIndex >= |leafHashes| {
      return RangeError;
    }
    var levels := BuildLevels(sha, leafHashes);
    var path: seq<ProofStep> := [];
    ghost var steps: seq<Step> := [];
    var index: nat := leafIndex;
    var level := 0;
    while level < |levels| - 1
      invariant 0 <= level < |levels|
      invariant index < |levels[level]|
      invariant path == Render(steps)
      invariant steps + LevelPath(sha, levels[level], index) == LevelPath(sha, leafHashes, leafIndex)
    {
      var nodes := levels[level];
      LevelsAt(sha, leafHashes, level);
      OneLevelUp(sha, nodes, index);
      var step := SiblingStep(nodes, index);
      ghost var here := LevelStep(nodes, index);
      RenderAppend(steps, here);
      Associate(steps, here, LevelPath(sha, levels[level + 1], index / 2));
      path, steps := path + step, steps + here;
      index := index / 2;
      level := level + 1;
    }
    LevelsAt(sha, leafHashes, level);
    return Built(InclusionProof(leafIndex, |leafHashes|, ToHex(leafHashes[leafIndex]),
                                ToHex(levels[|levels| - 1][0]), path));
  }

  function Combine(sha: Sha256, running: Bytes, s: Step): Digest
  {
    if s.side == Left then HashNode(sha, s.hash, running) else HashNode(sha, running, s.hash)
  }

  /** The hash carried up a path. */
  function Climb(sha: Sha256, start: Bytes, path: seq<Step>): Bytes
  {
    if path == [] then start
    else Combine(sha, Climb(sha, start, path[..|path| - 1]), path[|path| - 1])
  }

  ghost predicate Accepts(sha: Sha256, leafHash: Bytes, path: seq<Step>, root: Bytes)
  {
    && |leafHash| == 32 && |root| == 32
    && (forall i :: 0 <= i < |path| ==> |path[i].hash| == 32)
    && Climb(sha, leafHash, path) == root
  }

  /** A sibling on the left is hashed first, one on the right second, each behind the byte 1. */
  lemma SidesMean(sha: Sha256, start: Bytes, below: seq<Step>, hash: Bytes)
    ensures Climb(sha, start, []) == start
    ensures Climb(sha, start, below + [Step(hash, Left)]) == sha([1] + hash + Climb(sha, start, below))
    ensures Climb(sha, start, below + [Step(hash, Right)]) == sha([1] + Climb(sha, start, below) + hash)
  {
    assert (below + [Step(hash, Left)])[..|below|] == below && (below + [Step(hash, Right)])[..|below|] == below;
  }

  method VerifyInclusionProof(sha: Sha256, leafHash: Bytes, steps: seq<ProofStep>, root: Bytes) returns (ok: bool)
    ensures ok <==> Accepts(sha, leafHash, Decode(steps), root)
  {
    var running := leafHash;
    if |running| != 32 || |root| != 32 {
      return false;
    }
    ghost var path := Decode(steps);
    for i := 0 to |steps|
      invariant forall j :: 0 <= j < i ==> |path[j].hash| == 32
      invariant running == Climb(sha, leafHash, path[..i])
    {
      var sibling := FromHex(steps[i].hash);
      assert path[i].hash == sibling;
      if |sibling| != 32 {
        return false;
      }
      running := if steps[i].side == Left then HashNode(sha, sibling, running) else HashNode(sha, running, sibling);
      assert path[..i + 1][..i] == path[..i];
    }
    assert path[..|steps|] == path;
    return running == root;
  }

  // ---------- section 2.1 of RFC 6962 ----------

  predicate IsPowerOfTwo(k: nat)
  {
    k == 1 || (k > 0 && k % 2 == 0 && IsPowerOfTwo(k / 2))
  }

  /** The largest power of two below n. */
  function Split(n: nat): (k: nat)
    requires n >= 2
    ensures IsPowerOfTwo(k) && k < n <= 2 * k
  {
    if n == 2 then 1 else 2 * Split((n + 1) / 2)
  }

  /** Only one power of two lies in the half-open range that `Split` names. */
  lemma {:induction false} SplitIsLargest(n: nat, k: nat)
    requires n >= 2 && IsPowerOfTwo(k) && k < n
    ensures k <= Split(n)
  {
    if k > 1 && n > 2 {
      SplitIsLargest((n + 1) / 2, k / 2);
    }
  }

  /** MTH of section 2.1, over the data entries themselves. */
  function Mth(sha: Sha256, ds: seq<Bytes>): Digest
  {
    if ds == [] then sha([])
    else if |ds| == 1 then sha([0] + ds[0])
    else var k := Split(|ds|); sha([1] + Mth(sha, ds[..k]) + Mth(sha, ds[k..]))
  }

  /** The same recursion over leaves that are already hashed, of whatever length. */
  function MthOver(sha: Sha256, hs: seq<Bytes>): Bytes
  {
    if hs == [] then sha([])
    else if |hs| == 1 then hs[0]
    else var k := Split(|hs|); HashNode(sha, MthOver(sha, hs[..k]), MthOver(sha, hs[k..]))
  }

  /** PATH of section 2.1.1, with the side of each sibling. */
  function AuditPath(sha: Sha256, hs: seq<Bytes>, m: nat): seq<Step>
    requires m < |hs|
    decreases |hs|
  {
    if |hs| == 1 then []
    else
      var k := Split(|hs|);
      if m < k then AuditPath(sha, hs[..k], m) + [Step(MthOver(sha, hs[k..]), Right)]
      else AuditPath(sha, hs[k..], m - k) + [Step(MthOver(sha, hs[..k]), Left)]
  }

  function LeafHashes(sha: Sha256, ds: seq<Bytes>): (hs: seq<Bytes>)
    ensures |hs| == |ds|
    ensures forall i :: 0 <= i < |ds| ==> hs[i] == HashLeaf(sha, ds[i])
  {
    seq(|ds|, i requires 0 <= i < |ds| => HashLeaf(sha, ds[i]))
  }

  lemma {:induction false} MthOverLeafHashes(sha: Sha256, ds: seq<Bytes>)
    ensures MthOver(sha, LeafHashes(sha, ds)) == Mth(sha, ds)
  {
    if |ds| >= 2 {
      var k := Split(|ds|);
      MthOverLeafHashes(sha, ds[..k]);
      MthOverLeafHashes(sha, ds[k..]);
      assert LeafHashes(sha, ds)[..k] == LeafHashes(sha, ds[..k]);
      assert LeafHashes(sha, ds)[k..] == LeafHashes(sha, ds[k..]);
    }
  }

  // ---------- the two constructions agree ----------

  lemma NextLevelOfPair(sha: Sha256, nodes: seq<Bytes>)
    requires |nodes| >= 2
    ensures NextLevel(sha, nodes) == [HashNode(sha, nodes[0], nodes[1])] + NextLevel(sha, nodes[2..])
  {
  }

  /** An even cut of a level is a cut of the level above. */
  lemma {:induction false} NextLevelConcat(sha: Sha256, nodes: seq<Bytes>, k: nat)
    requires k <= |nodes| && k % 2 == 0
    ensures NextLevel(sha, nodes) == NextLevel(sha, nodes[..k]) + NextLevel(sha, nodes[k..])
    decreases k
  {
    if k == 0 {
      assert nodes[0..] == nodes && nodes[..0] == [];
      assert [] + NextLevel(sha, nodes) == NextLevel(sha, nodes);
    } else {
      var head := [HashNode(sha, nodes[0], nodes[1])];
      NextLevelConcat(sha, nodes[2..], k - 2);
      CutTwice(nodes, k);
      NextLevelOfPair(sha, nodes);
      NextLevelOfPair(sha, nodes[..k]);
      Associate(head, NextLevel(sha, nodes[..k][2..]), NextLevel(sha, nodes[k..]));
    }
  }

  lemma CutTwice<T>(nodes: seq<T>, k: nat)
    requires 2 <= k <= |nodes|
    ensures nodes[2..][..k - 2] == nodes[..k][2..] && nodes[2..][k - 2..] == nodes[k..]
    ensures nodes[..k][0] == nodes[0] && nodes[..k][1] == nodes[1]
  {
  }

  lemma NextLevelCut(sha: Sha256, nodes: seq<Bytes>, k: nat)
    requires k <= |nodes| && k % 2 == 0
    ensures NextLevel(sha, nodes)[..k / 2] == NextLevel(sha, nodes[..k])
    ensures NextLevel(sha, nodes)[k / 2..] == NextLevel(sha, nodes[k..])
  {
    NextLevelConcat(sha, nodes, k);
  }

  lemma MthOverSplit(sha: Sha256, hs: seq<Bytes>, k: nat)
    requires |hs| >= 2 && k == Split(|hs|)
    ensures MthOver(sha, hs) == HashNode(sha, MthOver(sha, hs[..k]), MthOver(sha, hs[k..]))
  {
  }

  lemma SplitHalves(n: nat)
    requires n > 2
    ensures Split(n) % 2 == 0 && Split((n + 1) / 2) == Split(n) / 2
  {
  }

  /** Going up one level leaves the recursive root unchanged. */
  lemma {:induction false} MthOfNextLevel(sha: Sha256, nodes: seq<Bytes>)
    ensures MthOver(sha, NextLevel(sha, nodes)) == MthOver(sha, nodes)
    decreases |nodes|
  {
    if |nodes| == 2 {
      assert NextLevel(sha, nodes) == [HashNode(sha, nodes[0], nodes[1])];
    } else if |nodes| > 2 {
      var k, above := Split(|nodes|), NextLevel(sha, nodes);
      SplitHalves(|nodes|);
      NextLevelCut(sha, nodes, k);
      MthOfNextLevel(sha, nodes[..k]);
      MthOfNextLevel(sha, nodes[k..]);
      MthOverSplit(sha, nodes, k);
      MthOverSplit(sha, above, k / 2);
    }
  }

  lemma LastOfMore<T>(first: T, rest: seq<T>)
    requires rest != []
    ensures var all := [first] + rest; all[|all| - 1] == rest[|rest| - 1]
  {
  }

  lemma RootOfNextLevel(sha: Sha256, leafHashes: seq<Bytes>)
    requires |leafHashes| > 1
    ensures ComputeRoot(sha, leafHashes) == ComputeRoot(sha, NextLevel(sha, leafHashes))
  {
    LastOfMore(leafHashes, Levels(sha, NextLevel(sha, leafHashes)));
  }

  /** The bottom-up root is the recursive one, for every list of leaf hashes. */
  lemma {:induction false} RootIsMthOver(sha: Sha256, leafHashes: seq<Bytes>)
    ensures ComputeRoot(sha, leafHashes) == MthOver(sha, leafHashes)
    decreases |leafHashes|
  {
    if |leafHashes| > 1 {
      RootOfNextLevel(sha, leafHashes);
      RootIsMthOver(sha, NextLevel(sha, leafHashes));
      MthOfNextLevel(sha, leafHashes);
    }
  }

  /** Over hashed entries it is MTH of section 2.1 of RFC 6962, the empty tree included. */
  lemma RootIsMth(sha: Sha256, ds: seq<Bytes>)
    ensures ComputeRoot(sha, LeafHashes(sha, ds)) == Mth(sha, ds)
  {
    RootIsMthOver(sha, LeafHashes(sha, ds));
    MthOverLeafHashes(sha, ds);
  }

  lemma AuditPathUnfoldLower(sha: Sha256, nodes: seq<Bytes>, k: nat, m: nat)
    requires |nodes| >= 2 && k == Split(|nodes|) && m < k
    ensures AuditPath(sha, nodes, m) == AuditPath(sha, nodes[..k], m) + [Step(MthOver(sha, nodes[k..]), Right)]
  {
  }

  lemma AuditPathUnfoldUpper(sha: Sha256, nodes: seq<Bytes>, k: nat, m: nat, j: nat)
    requires |nodes| >= 2 && k == Split(|nodes|) && k + j == m < |nodes|
    ensures AuditPath(sha, nodes, m) == AuditPath(sha, nodes[k..], j) + [Step(MthOver(sha, nodes[..k]), Left)]
  {
  }

  /** A cut at `Split` of a level lies over the cut at `Split` of the level above. */
  lemma SplitOfNextLevel(sha: Sha256, nodes: seq<Bytes>)
    requires |nodes| > 2
    ensures var k, above := Split(|nodes|), NextLevel(sha, nodes);
            && k % 2 == 0 && |above| >= 2 && Split(|above|) == k / 2
            && above[..k / 2] == NextLevel(sha, nodes[..k])
            && above[k / 2..] == NextLevel(sha, nodes[k..])
            && MthOver(sha, above[..k / 2]) == MthOver(sha, nodes[..k])
            && MthOver(sha, above[k / 2..]) == MthOver(sha, nodes[k..])
  {
    var k := Split(|nodes|);
    NextLevelCut(sha, nodes, k);
    MthOfNextLevel(sha, nodes[..k]);
    MthOfNextLevel(sha, nodes[k..]);
  }

  lemma LevelStepOfTake(nodes: seq<Bytes>, k: nat, m: nat)
    requires m < k < |nodes| && k % 2 == 0
    ensures LevelStep(nodes[..k], m) == LevelStep(nodes, m) && m / 2 < k / 2
  {
  }

  lemma LevelStepOfDrop(nodes: seq<Bytes>, k: nat, m: nat, j: nat)
    requires k + j == m < |nodes| && k % 2 == 0
    ensures LevelStep(nodes[k..], j) == LevelStep(nodes, m) && m / 2 == k / 2 + j / 2
  {
  }

  lemma AuditPathOfLowerHalf(sha: Sha256, nodes: seq<Bytes>, k: nat, m: nat, up: nat)
    requires |nodes| > 2 && k == Split(|nodes|) && m < k && up == m / 2
    requires var part := nodes[..k];
             AuditPath(sha, part, m) == LevelStep(part, m) + AuditPath(sha, NextLevel(sha, part), up)
    ensures up < |NextLevel(sha, nodes)|
    ensures AuditPath(sha, nodes, m) == LevelStep(nodes, m) + AuditPath(sha, NextLevel(sha, nodes), up)
  {
    SplitOfNextLevel(sha, nodes);
    LevelStepOfTake(nodes, k, m);
    AuditPathUnfoldLower(sha, nodes, k, m);
    AuditPathUnfoldLower(sha, NextLevel(sha, nodes), k / 2, up);
    Reassociate(AuditPath(sha, nodes, m), AuditPath(sha, nodes[..k], m), AuditPath(sha, NextLevel(sha, nodes), up),
                LevelStep(nodes, m), AuditPath(sha, NextLevel(sha, nodes[..k]), up),
                [Step(MthOver(sha, nodes[k..]), Right)]);
  }

  lemma AuditPathAboveUpperHalf(sha: Sha256, nodes: seq<Bytes>, k: nat, up: nat, j: nat)
    requires |nodes| > 2 && k == Split(|nodes|) && up == k / 2 + j && j < |NextLevel(sha, nodes[k..])|
    ensures up < |NextLevel(sha, nodes)|
    ensures AuditPath(sha, NextLevel(sha, nodes), up) ==
            AuditPath(sha, NextLevel(sha, nodes[k..]), j) + [Step(MthOver(sha, nodes[..k]), Left)]
  {
    SplitOfNextLevel(sha, nodes);
    AuditPathUnfoldUpper(sha, NextLevel(sha, nodes), k / 2, up, j);
  }

  lemma AuditPathOfUpperHalf(sha: Sha256, nodes: seq<Bytes>, k: nat, m: nat, j: nat, up: nat)
    requires |nodes| > 2 && k == Split(|nodes|) && k + j == m < |nodes| && up == m / 2
    requires var part := nodes[k..];
             AuditPath(sha, part, j) == LevelStep(part, j) + AuditPath(sha, NextLevel(sha, part), j / 2)
    ensures up < |NextLevel(sha, nodes)|
    ensures AuditPath(sha, nodes, m) == LevelStep(nodes, m) + AuditPath(sha, NextLevel(sha, nodes), up)
  {
    var step, j' := LevelStep(nodes, m), j / 2;
    assert LevelStep(nodes[k..], j) == step && up == k / 2 + j' by {
      SplitOfNextLevel(sha, nodes);
      LevelStepOfDrop(nodes, k, m, j);
    }
    AuditPathAboveUpperHalf(sha, nodes, k, up, j');
    AuditPathUnfoldUpper(sha, nodes, k, m, j);
    Reassociate(AuditPath(sha, nodes, m), AuditPath(sha, nodes[k..], j), AuditPath(sha, NextLevel(sha, nodes), up),
                step, AuditPath(sha, NextLevel(sha, nodes[k..]), j'), [Step(MthOver(sha, nodes[..k]), Left)]);
  }

  lemma AuditPathOfPair(sha: Sha256, nodes: seq<Bytes>, m: nat)
    requires |nodes| == 2 && m < 2
    ensures AuditPath(sha, nodes, m) == LevelStep(nodes, m) + AuditPath(sha, NextLevel(sha, nodes), m / 2)
  {
    assert |NextLevel(sha, nodes)| == 1 && m / 2 == 0;
    assert AuditPath(sha, NextLevel(sha, nodes), 0) == [];
    assert Split(2) == 1;
    if m == 0 {
      AuditPathUnfoldLower(sha, nodes, 1, 0);
    } else {
      AuditPathUnfoldUpper(sha, nodes, 1, 1, 0);
    }
  }

  /** Going up one level removes the first step of the audit path, if the node has one. */
  lemma {:induction false} AuditPathOfNextLevel(sha: Sha256, nodes: seq<Bytes>, m: nat)
    requires m < |nodes| && |nodes| >= 2
    ensures AuditPath(sha, nodes, m) == LevelStep(nodes, m) + AuditPath(sha, NextLevel(sha, nodes), m / 2)
    decreases |nodes|
  {
    if |nodes| == 2 {
      AuditPathOfPair(sha, nodes, m);
    } else {
      var k := Split(|nodes|);
      if m < k {
        AuditPathOfNextLevel(sha, nodes[..k], m);
        AuditPathOfLowerHalf(sha, nodes, k, m, m / 2);
      } else {
        if |nodes| - k >= 2 {
          AuditPathOfNextLevel(sha, nodes[k..], m - k);
        }
        AuditPathOfUpperHalf(sha, nodes, k, m, m - k, m / 2);
      }
    }
  }

  /** The path read off the levels is the audit path of section 2.1.1 of RFC 6962. */
  lemma {:induction false} LevelPathIsAuditPath(sha: Sha256, nodes: seq<Bytes>, m: nat)
    requires m < |nodes|
    ensures LevelPath(sha, nodes, m) == AuditPath(sha, nodes, m)
    decreases |nodes|
  {
    if |nodes| > 1 {
      AuditPathOfNextLevel(sha, nodes, m);
      LevelPathIsAuditPath(sha, NextLevel(sha, nodes), m / 2);
    }
  }

  function Pow2(e: nat): nat { if e == 0 then 1 else 2 * Pow2(e - 1) }

  /** Proofs are logarithmic: at most e steps in a tree of up to 2^e leaves. */
  lemma {:induction false} LevelPathIsShort(sha: Sha256, nodes: seq<Bytes>, m: nat, e: nat)
    requires m < |nodes| <= Pow2(e)
    ensures |LevelPath(sha, nodes, m)| <= e
    decreases |nodes|
  {
    if |nodes| > 1 {
      LevelPathIsShort(sha, NextLevel(sha, nodes), m / 2, e - 1);
    }
  }
}
