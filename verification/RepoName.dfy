/** Choosing a repository name that no other row has (apps/settlement-worker/src/worker.ts). */
module RepoName {
  import opened Encoding

  const REPO_NAME_MAX_ATTEMPTS := 5
  const HYPHEN: CodeUnit := 0x2D

  /** `String(n).padStart(2, '0')`. */
  function Padded(n: nat): Text { if n < 10 then [0x30, 0x30 + n] else Decimal(n) }

  function NameOf(base: Text, n: nat): Text { base + ([HYPHEN] + Padded(n)) }

  lemma LongDecimals(n: nat)
    requires n >= 10
    ensures |Decimal(n)| >= 2 && Decimal(n)[0] != 0x30
    decreases n
  {
    if n / 10 >= 10 {
      LongDecimals(n / 10);
    }
  }

  lemma PaddedInjective(m: nat, n: nat)
    requires Padded(m) == Padded(n)
    ensures m == n
  {
    if m >= 10 {
      LongDecimals(m);
    }
    if n >= 10 {
      LongDecimals(n);
    }
    if m >= 10 && n >= 10 {
      DecimalInjective(m, n);
    }
  }

  /** The base, a hyphen, and the number in decimal, with a zero before a single digit. */
  lemma NameReads(base: Text, n: nat) returns (digits: Text)
    ensures NameOf(base, n) == base + Units("-") + digits && ReadDecimal(digits) == n
    ensures |digits| >= 2 && (|digits| > 2 ==> digits[0] != 0x30)
  {
    digits := Padded(n);
    DecimalReads(n);
    if n < 10 {
      assert digits[..1] == [0x30] && digits[..1][..0] == [];
    } else {
      LongDecimals(n);
    }
    assert Units("-") == [HYPHEN];
  }

  lemma AfterHyphen(base: Text, tail: Text)
    ensures (base + ([HYPHEN] + tail))[|base| + 1..] == tail
  {
  }

  /** Different numbers give different names. */
  lemma NameInjective(base: Text, m: nat, n: nat)
    requires NameOf(base, m) == NameOf(base, n)
    ensures m == n
  {
    AfterHyphen(base, Padded(m));
    AfterHyphen(base, Padded(n));
    PaddedInjective(m, n);
  }

  /** repo_name LIKE 'base-%': a base has no wildcards in it. */
  predicate Matches(base: Text, name: Text)
  {
    |base| < |name| && name[..|base|] == base && name[|base|] == HYPHEN
  }

  function CountMatching(names: seq<Text>, base: Text): (n: nat)
    ensures n <= |names|
  {
    if names == [] then 0
    else CountMatching(names[..|names| - 1], base) + if Matches(base, names[|names| - 1]) then 1 else 0
  }

  /** The rows of repo_provisioning: names are unique, and at most one belongs to each contract. */
  datatype Table = Table(names: seq<Text>, contracts: set<nat>)

  predicate UniqueNames(t: Table)
  {
    forall i, j :: 0 <= i < j < |t.names| ==> t.names[i] != t.names[j]
  }

  datatype Insert = Inserted(repoName: Text) | AlreadyThere | Collided

  /** The number that is tried first. */
  function FirstTry(t: Table, base: Text): nat { CountMatching(t.names, base) + 1 }

  predicate Free(t: Table, base: Text, n: nat) { NameOf(base, n) !in t.names }

  predicate NoneFree(t: Table, base: Text, tries: nat)
  {
    forall n :: FirstTry(t, base) <= n < FirstTry(t, base) + tries ==> !Free(t, base, n)
  }

  /**
   * Inserting with the next free number, five numbers at most. With nobody else inserting it fails
   * exactly when all five are taken, and otherwise takes the first that is free.
   */
  method InsertProvisioningRow(t: Table, contract: nat, base: Text) returns (r: Insert, u: Table)
    requires UniqueNames(t)
    ensures UniqueNames(u)
    ensures r.AlreadyThere? <==> contract in t.contracts
    ensures r.Collided? <==> (contract !in t.contracts && NoneFree(t, base, 5))
    ensures r.Inserted? ==>
      && (exists k :: 0 <= k < 5 && NoneFree(t, base, k) && Free(t, base, FirstTry(t, base) + k)
                      && r.repoName == NameOf(base, CountMatching(t.names, base) + 1 + k))
      && u == Table(t.names + [r.repoName], t.contracts + {contract})
    ensures !r.Inserted? ==> u == t
  {
    u := t;
    for attempt := 1 to REPO_NAME_MAX_ATTEMPTS + 1
      invariant u == t && (attempt > 1 ==> contract !in t.contracts)
      invariant NoneFree(t, base, attempt - 1)
    {
      var num := CountMatching(u.names, base) + attempt;
      var repoName := NameOf(base, num);
      if contract in u.contracts {
        return AlreadyThere, u;
      }
      if repoName !in u.names {
        assert Free(t, base, FirstTry(t, base) + (attempt - 1)) && NoneFree(t, base, attempt - 1);
        u := Table(u.names + [repoName], u.contracts + {contract});
        return Inserted(repoName), u;
      }
      assert !Free(t, base, num);
    }
    return Collided, u;
  }

  /** Numbers taken from 1 up without a gap: the next insert needs only one try. */
  lemma GaplessInsertsAtOnce(t: Table, base: Text)
    requires forall name :: name in t.names && Matches(base, name) ==>
               exists n :: 1 <= n <= CountMatching(t.names, base) && name == NameOf(base, n)
    ensures Free(t, base, FirstTry(t, base))
  {
    var n := FirstTry(t, base);
    var name := NameOf(base, n);
    assert Matches(base, name) by {
      assert name[..|base|] == base;
    }
    if name in t.names {
      var m :| 1 <= m <= CountMatching(t.names, base) && name == NameOf(base, m);
      NameInjective(base, m, n);
    }
  }
}
