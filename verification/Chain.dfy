/** The hash chain of packages/ledger-client/src/index.ts and the check that reads it back. */
module Chain {
  import opened Encoding
  import opened Canonical
  import opened CanonicalParser
  import opened CanonicalEquality

  const CURRENT_HASH_VERSION := 2
  const LF: CodeUnit := 0x0A
  // The seven letters GENESIS.
  const GENESIS: Text := [0x47, 0x45, 0x4E, 0x45, 0x53, 0x49, 0x53]

  datatype LedgerRow = LedgerRow(
    ledgerId: nat,
    contractId: Text,
    actionType: Text,
    payload: Value,
    payloadCanonical: Option<Text>,
    previousHash: Text,
    currentHash: Text,
    hashVersion: int)

  function ChainInput(canonical: Text, previous: Text): Bytes { Utf8(canonical + ([LF] + previous)) }

  function ChainHash(sha: Sha256, canonical: Text, previous: Text): (hex: Text)
    ensures |hex| == 64
  {
    ToHex(sha(ChainInput(canonical, previous)))
  }

  // ---------- checking ----------

  /** A row nobody outside the original database can recompute. */
  predicate IsLegacy(row: LedgerRow)
  {
    row.hashVersion < CURRENT_HASH_VERSION || row.payloadCanonical == None
  }

  function Head(rows: seq<LedgerRow>): Text
  {
    if rows == [] then GENESIS else rows[|rows| - 1].currentHash
  }

  predicate Links(rows: seq<LedgerRow>, i: nat)
    requires i < |rows|
  {
    rows[i].previousHash == Head(rows[..i])
  }

  predicate Rehashes(sha: Sha256, row: LedgerRow)
  {
    !IsLegacy(row) && ChainHash(sha, row.payloadCanonical.value, row.previousHash) == row.currentHash
  }

  /** A row certified by the reproducible formula. */
  predicate IsSound(sha: Sha256, row: LedgerRow)
  {
    Rehashes(sha, row) && Canonicalize(row.payload) == Ok(row.payloadCanonical.value)
  }

  /** A stored payload that cannot be printed makes the check itself throw. */
  predicate Throws(sha: Sha256, row: LedgerRow)
  {
    Rehashes(sha, row) && Canonicalize(row.payload).Refused?
  }

  datatype Failure = BrokenLink(ledgerId: nat) | WrongHash(ledgerId: nat) | NotCanonical(ledgerId: nat)

  datatype ChainVerification = ChainVerification(
    valid: bool, verified: nat, unverifiable: nat, failures: seq<Failure>)

  datatype VerifyResult = Report(report: ChainVerification) | Threw

  function LinkFailure(rows: seq<LedgerRow>, i: nat): seq<Failure>
    requires i < |rows|
  {
    if Links(rows, i) then [] else [BrokenLink(rows[i].ledgerId)]
  }

  function FormFailure(sha: Sha256, row: LedgerRow): seq<Failure>
  {
    if IsLegacy(row) || IsSound(sha, row) then []
    else if Rehashes(sha, row) then [NotCanonical(row.ledgerId)]
    else [WrongHash(row.ledgerId)]
  }

  function RowFailures(sha: Sha256, rows: seq<LedgerRow>, i: nat): seq<Failure>
    requires i < |rows|
  {
    LinkFailure(rows, i) + FormFailure(sha, rows[i])
  }

  function FailuresAt(sha: Sha256, rows: seq<LedgerRow>): nat -> seq<Failure>
  {
    (i: nat) => if i < |rows| then RowFailures(sha, rows, i) else []
  }

  function FailuresUpTo(sha: Sha256, rows: seq<LedgerRow>, n: nat): seq<Failure>
  {
    Flatten(FailuresAt(sha, rows), n)
  }

  function Count(rows: seq<LedgerRow>, p: LedgerRow -> bool): (n: nat)
    ensures n <= |rows|
  {
    if rows == [] then 0
    else Count(rows[..|rows| - 1], p) + (if p(rows[|rows| - 1]) then 1 else 0)
  }

  /** The row links to the one before it, and if it can be recomputed at all it is certified. */
  predicate Passes(sha: Sha256, rows: seq<LedgerRow>, i: nat)
    requires i < |rows|
  {
    Links(rows, i) && (IsLegacy(rows[i]) || IsSound(sha, rows[i]))
  }

  predicate Valid(sha: Sha256, rows: seq<LedgerRow>)
  {
    forall i :: 0 <= i < |rows| ==> Passes(sha, rows, i)
  }

  /** The report is free of failures exactly when every row links and every one that can be is certified. */
  lemma NoFailuresIffValid(sha: Sha256, rows: seq<LedgerRow>)
    ensures FailuresUpTo(sha, rows, |rows|) == [] <==> Valid(sha, rows)
  {
    var passes := (i: nat) => i < |rows| && Passes(sha, rows, i);
    forall i: nat | i < |rows| ensures FailuresAt(sha, rows)(i) == [] <==> passes(i) {
    }
    FlattenEmpty(FailuresAt(sha, rows), |rows|, passes);
    if forall i: nat :: i < |rows| ==> passes(i) {
      forall i | 0 <= i < |rows| ensures Passes(sha, rows, i) {
        assert passes(i);
      }
    }
  }

  /** The failures of one row, spelled out. */
  lemma RowFailuresAre(sha: Sha256, rows: seq<LedgerRow>, i: nat)
    requires i < |rows|
    ensures var row, head := rows[i], if i == 0 then Units("GENESIS") else rows[i - 1].currentHash;
            RowFailures(sha, rows, i) ==
              (if row.previousHash == head then [] else [BrokenLink(row.ledgerId)]) +
              if row.hashVersion < 2 || row.payloadCanonical == None then []
              else if ToHex(sha(Utf8(row.payloadCanonical.value + ([0x0A] + row.previousHash)))) != row.currentHash
              then [WrongHash(row.ledgerId)]
              else if Canonicalize(row.payload) != Ok(row.payloadCanonical.value) then [NotCanonical(row.ledgerId)]
              else []
  {
    assert Head(rows[..i]) == if i == 0 then Units("GENESIS") else rows[i - 1].currentHash;
  }

  datatype Verdict = Unverifiable | HashDiffers | Unprintable(why: Refusal) | FormDiffers | Verified

  /** The branches for one row, once its link has been looked at. */
  method CheckRow(sha: Sha256, row: LedgerRow) returns (v: Verdict, found: seq<Failure>)
    ensures v.Unverifiable? <==> IsLegacy(row)
    ensures v.Unprintable? <==> Throws(sha, row)
    ensures v.Verified? <==> IsSound(sha, row)
    ensures !v.Unprintable? ==> found == FormFailure(sha, row)
    ensures v.HashDiffers? <==> found == [WrongHash(row.ledgerId)]
    ensures v.FormDiffers? <==> found == [NotCanonical(row.ledgerId)]
  {
    if row.hashVersion < CURRENT_HASH_VERSION || row.payloadCanonical == None {
      return Unverifiable, [];
    }
    var expected := ChainHash(sha, row.payloadCanonical.value, row.previousHash);
    if expected != row.currentHash {
      return HashDiffers, [WrongHash(row.ledgerId)];
    }
    var printed := Canonicalize(row.payload);
    if printed.Refused? {
      return Unprintable(printed.why), [];
    }
    if printed.text != row.payloadCanonical.value {
      return FormDiffers, [NotCanonical(row.ledgerId)];
    }
    return Verified, [];
  }

  lemma CountExtend(rows: seq<LedgerRow>, n: nat, p: LedgerRow -> bool)
    requires n < |rows|
    ensures Count(rows[..n + 1], p) == Count(rows[..n], p) + (if p(rows[n]) then 1 else 0)
  {
    assert rows[..n + 1][..n] == rows[..n];
  }

  lemma {:induction false} CountIsZero(rows: seq<LedgerRow>, p: LedgerRow -> bool)
    ensures Count(rows, p) == 0 <==> forall i :: 0 <= i < |rows| ==> !p(rows[i])
  {
    if rows != [] {
      CountIsZero(rows[..|rows| - 1], p);
      assert forall i | 0 <= i < |rows| - 1 :: rows[..|rows| - 1][i] == rows[i];
    }
  }

  /** The three counts the loop keeps, one row further on. */
  lemma CountsExtend(sha: Sha256, rows: seq<LedgerRow>, n: nat)
    requires n < |rows|
    ensures Sound(sha, rows[..n + 1]) == Sound(sha, rows[..n]) + (if IsSound(sha, rows[n]) then 1 else 0)
    ensures Legacy(rows[..n + 1]) == Legacy(rows[..n]) + (if IsLegacy(rows[n]) then 1 else 0)
    ensures Throwing(sha, rows[..n + 1]) == Throwing(sha, rows[..n]) + (if Throws(sha, rows[n]) then 1 else 0)
  {
    CountExtend(rows, n, row => IsSound(sha, row));
    CountExtend(rows, n, row => IsLegacy(row));
    CountExtend(rows, n, row => Throws(sha, row));
  }

  function Sound(sha: Sha256, rows: seq<LedgerRow>): nat { Count(rows, row => IsSound(sha, row)) }

  function Legacy(rows: seq<LedgerRow>): nat { Count(rows, row => IsLegacy(row)) }

  function Throwing(sha: Sha256, rows: seq<LedgerRow>): nat { Count(rows, row => Throws(sha, row)) }

  lemma ThrowingIsZero(sha: Sha256, rows: seq<LedgerRow>)
    ensures Throwing(sha, rows) == 0 <==> forall i :: 0 <= i < |rows| ==> !Throws(sha, rows[i])
  {
    CountIsZero(rows, row => Throws(sha, row));
  }

  /** How far the loop has come after n rows. */
  datatype Tally = Tally(failures: seq<Failure>, verified: nat, unverifiable: nat)

  predicate Tallied(sha: Sha256, rows: seq<LedgerRow>, n: nat, t: Tally)
    requires n <= |rows|
  {
    && t.failures == FailuresUpTo(sha, rows, n)
    && t.verified == Sound(sha, rows[..n])
    && t.unverifiable == Legacy(rows[..n])
    && Throwing(sha, rows[..n]) == 0
  }

  /** One turn of the loop; None if the row makes it throw. */
  method TallyRow(sha: Sha256, rows: seq<LedgerRow>, n: nat, previous: Text, t: Tally) returns (u: Option<Tally>)
    requires n < |rows| && previous == Head(rows[..n]) && Tallied(sha, rows, n, t)
    ensures u == None <==> Throws(sha, rows[n])
    ensures u.Some? ==> Tallied(sha, rows, n + 1, u.value)
  {
    CountsExtend(sha, rows, n);
    var row := rows[n];
    var broken := if row.previousHash != previous then [BrokenLink(row.ledgerId)] else [];
    var verdict, found := CheckRow(sha, row);
    if verdict.Unprintable? {
      return None;
    }
    return Some(Tally(t.failures + (broken + found),
                      t.verified + if verdict.Verified? then 1 else 0,
                      t.unverifiable + if verdict.Unverifiable? then 1 else 0));
  }

  method VerifyChainDetailed(sha: Sha256, rows: seq<LedgerRow>) returns (r: VerifyResult)
    ensures r.Threw? <==> Throwing(sha, rows) > 0
    ensures r.Report? ==>
      && r.report.failures == FailuresUpTo(sha, rows, |rows|)
      && r.report.verified == Sound(sha, rows)
      && r.report.unverifiable == Legacy(rows)
      && (r.report.valid <==> Valid(sha, rows))
  {
    var t := Tally([], 0, 0);
    var previous := GENESIS;
    for n := 0 to |rows|
      invariant previous == Head(rows[..n])
      invariant Tallied(sha, rows, n, t)
    {
      var next := TallyRow(sha, rows, n, previous, t);
      if next == None {
        ThrowingIsZero(sha, rows);
        return Threw;
      }
      t, previous := next.value, rows[n].currentHash;
    }
    assert rows[..|rows|] == rows;
    NoFailuresIffValid(sha, rows);
    return Report(ChainVerification(|t.failures| == 0, t.verified, t.unverifiable, t.failures));
  }

  // ---------- appending (V009, append_ledger) ----------

  /** The row the stored procedure inserts: the payload is read back from the canonical text. */
  function NewRow(sha: Sha256, chain: seq<LedgerRow>, id: nat, contract: Text, action: Text, payload: Value): LedgerRow
    requires Canonicalize(payload).Ok?
  {
    var canonical := Canonicalize(payload).text;
    LedgerRow(id, contract, action, Normal(payload), Some(canonical), Head(chain),
              ChainHash(sha, canonical, Head(chain)), CURRENT_HASH_VERSION)
  }

  /** The row, column by column. */
  lemma NewRowIs(sha: Sha256, chain: seq<LedgerRow>, id: nat, contract: Text, action: Text, payload: Value)
    requires Canonicalize(payload).Ok?
    ensures var row, text := NewRow(sha, chain, id, contract, action, payload), Canonicalize(payload).text;
            && row.ledgerId == id && row.contractId == contract && row.actionType == action
            && (Proper(payload) ==> Same(row.payload, payload))
            && row.payloadCanonical == Some(text) && row.hashVersion == 2
            && row.previousHash == (if chain == [] then Units("GENESIS") else chain[|chain| - 1].currentHash)
            && row.currentHash == ToHex(sha(Utf8(text + ([0x0A] + row.previousHash))))
  {
    if Proper(payload) {
      NormalIsSame(payload);
    }
  }

  lemma NewRowIsSound(sha: Sha256, chain: seq<LedgerRow>, id: nat, contract: Text, action: Text, payload: Value)
    requires Canonicalize(payload).Ok? && Proper(payload)
    ensures IsSound(sha, NewRow(sha, chain, id, contract, action, payload))
  {
    SerializeNormal(payload);
  }

  lemma ValidExtend(sha: Sha256, chain: seq<LedgerRow>, row: LedgerRow)
    ensures Valid(sha, chain + [row]) <==>
            Valid(sha, chain) && row.previousHash == Head(chain) && (IsLegacy(row) || IsSound(sha, row))
  {
    var longer := chain + [row];
    forall i | 0 <= i < |chain| ensures Passes(sha, longer, i) <==> Passes(sha, chain, i) {
    }
    assert longer[..|chain|] == chain && longer[|chain|] == row;
    assert Passes(sha, longer, |chain|) <==>
           row.previousHash == Head(chain) && (IsLegacy(row) || IsSound(sha, row));
    assert Valid(sha, longer) <==> Valid(sha, chain) && Passes(sha, longer, |chain|);
  }

  /** One append to a valid chain, whatever it holds, leaves a valid chain with one more certified row. */
  lemma AppendKeepsValid(sha: Sha256, chain: seq<LedgerRow>, id: nat, contract: Text, action: Text, payload: Value)
    requires Valid(sha, chain) && Canonicalize(payload).Ok? && Proper(payload)
    ensures var longer := chain + [NewRow(sha, chain, id, contract, action, payload)];
            && Valid(sha, longer)
            && Sound(sha, longer) == Sound(sha, chain) + 1
            && Legacy(longer) == Legacy(chain)
  {
    var row := NewRow(sha, chain, id, contract, action, payload);
    NewRowIsSound(sha, chain, id, contract, action, payload);
    ValidExtend(sha, chain, row);
    assert (chain + [row])[..|chain|] == chain;
  }

  datatype Append = Append(id: nat, action: Text, payload: Value)

  predicate Appendable(appends: seq<Append>)
  {
    forall i :: 0 <= i < |appends| ==> Canonicalize(appends[i].payload).Ok? && Proper(appends[i].payload)
  }

  /** The chain of a contract after a series of appends from nothing. */
  function ChainAfter(sha: Sha256, contract: Text, appends: seq<Append>): seq<LedgerRow>
    requires Appendable(appends)
  {
    if appends == [] then []
    else
      var chain, last := ChainAfter(sha, contract, appends[..|appends| - 1]), appends[|appends| - 1];
      chain + [NewRow(sha, chain, last.id, contract, last.action, last.payload)]
  }

  /** Every chain built by appends verifies, with every row certified and none left out. */
  lemma {:induction false} AppendedChainsVerify(sha: Sha256, contract: Text, appends: seq<Append>)
    requires Appendable(appends)
    ensures var chain := ChainAfter(sha, contract, appends);
            && |chain| == |appends| && Valid(sha, chain)
            && Sound(sha, chain) == |appends| && Legacy(chain) == 0
  {
    if appends != [] {
      var shorter, last := appends[..|appends| - 1], appends[|appends| - 1];
      AppendedChainsVerify(sha, contract, shorter);
      AppendKeepsValid(sha, ChainAfter(sha, contract, shorter), last.id, contract, last.action, last.payload);
    }
  }

  /**
   * append_ledger releases its advisory lock before the surrounding transaction commits, so two
   * transactions can both read one head. Whatever they append, the result fails verification,
   * except if the first row's hash happens to repeat the head it was linked to.
   */
  lemma AppendsFromOneHeadFork(
    sha: Sha256, chain: seq<LedgerRow>, contract: Text, one: Append, two: Append)
    requires Valid(sha, chain)
    requires Canonicalize(one.payload).Ok? && Proper(one.payload)
    requires Canonicalize(two.payload).Ok? && Proper(two.payload)
    ensures var first := NewRow(sha, chain, one.id, contract, one.action, one.payload);
            var second := NewRow(sha, chain, two.id, contract, two.action, two.payload);
            Valid(sha, chain + [first] + [second]) <==> first.currentHash == Head(chain)
  {
    var first := NewRow(sha, chain, one.id, contract, one.action, one.payload);
    var second := NewRow(sha, chain, two.id, contract, two.action, two.payload);
    NewRowIsSound(sha, chain, one.id, contract, one.action, one.payload);
    NewRowIsSound(sha, chain, two.id, contract, two.action, two.payload);
    ValidExtend(sha, chain, first);
    ValidExtend(sha, chain + [first], second);
  }

  // ---------- the head hash binds the history ----------

  function RowInput(row: LedgerRow): Bytes
    requires row.payloadCanonical.Some?
  {
    ChainInput(row.payloadCanonical.value, row.previousHash)
  }

  /** The byte strings hashed for the rows of a chain. */
  function ChainInputs(rows: seq<LedgerRow>): set<Bytes>
  {
    set i | 0 <= i < |rows| && rows[i].payloadCanonical.Some? :: RowInput(rows[i])
  }

  /** A valid chain with no unverifiable rows. */
  predicate Certified(sha: Sha256, rows: seq<LedgerRow>)
  {
    forall i :: 0 <= i < |rows| ==> Links(rows, i) && IsSound(sha, rows[i])
  }

  predicate SameRow(x: LedgerRow, y: LedgerRow)
  {
    && x.payloadCanonical == y.payloadCanonical
    && x.previousHash == y.previousHash
    && x.currentHash == y.currentHash
  }

  predicate SameHistory(xs: seq<LedgerRow>, ys: seq<LedgerRow>)
  {
    |xs| == |ys| && forall i :: 0 <= i < |xs| ==> SameRow(xs[i], ys[i])
  }

  /** The first line feed of a line marks the end of the canonical text. */
  lemma LineFeedAt(c: Text, p: Text)
    requires LF !in c
    ensures var t := c + ([LF] + p); |c| < |t| && t[|c|] == LF && forall i :: 0 <= i < |c| ==> t[i] != LF
  {
    var t := c + ([LF] + p);
    assert forall i | 0 <= i < |c| :: t[i] == c[i] && c[i] in c;
  }

  lemma FirstLineFeed(c: Text, p: Text, c': Text, p': Text)
    requires c + ([LF] + p) == c' + ([LF] + p')
    requires LF !in c && LF !in c'
    ensures c == c' && p == p'
  {
    LineFeedAt(c, p);
    LineFeedAt(c', p');
    var t := c + ([LF] + p);
    assert |c| == |c'|;
    assert c == t[..|c|] && c' == t[..|c'|];
    assert p == t[|c| + 1..] && p' == t[|c'| + 1..];
  }

  lemma HeadIsPrintable(sha: Sha256, rows: seq<LedgerRow>)
    requires Certified(sha, rows)
    ensures Printable(Head(rows))
    ensures |Head(rows)| == if rows == [] then 7 else 64
  {
    if rows != [] {
      var last := rows[|rows| - 1];
      assert Links(rows, |rows| - 1) && IsSound(sha, last);
      HexIsPrintable(sha(ChainInput(last.payloadCanonical.value, last.previousHash)));
    }
  }

  /** A hashed line splits in one way: canonical text holds no line feed, and UTF-8 loses nothing. */
  lemma ChainInputInjective(v: Value, p: Text, w: Value, q: Text)
    requires Canonicalize(v).Ok? && Canonicalize(w).Ok? && Printable(p) && Printable(q)
    requires ChainInput(Canonicalize(v).text, p) == ChainInput(Canonicalize(w).text, q)
    ensures Canonicalize(v) == Canonicalize(w) && p == q
  {
    var c, d := Canonicalize(v).text, Canonicalize(w).text;
    SerializeIsClean(v);
    SerializeIsClean(w);
    PrintableIsWellFormed(p);
    PrintableIsWellFormed(q);
    assert WellFormed([LF]) by { assert [LF][1..] == []; }
    WellFormedConcat([LF], p);
    WellFormedConcat([LF], q);
    WellFormedConcat(c, [LF] + p);
    WellFormedConcat(d, [LF] + q);
    Utf8Injective(c + ([LF] + p), d + ([LF] + q));
    FirstLineFeed(c, p, d, q);
  }

  lemma SameHistoryExtend(xs: seq<LedgerRow>, ys: seq<LedgerRow>)
    requires xs != [] && ys != [] && SameHistory(xs[..|xs| - 1], ys[..|ys| - 1])
    requires SameRow(xs[|xs| - 1], ys[|ys| - 1])
    ensures SameHistory(xs, ys)
  {
    forall i | 0 <= i < |xs| ensures SameRow(xs[i], ys[i]) {
      if i < |xs| - 1 {
        assert xs[..|xs| - 1][i] == xs[i] && ys[..|ys| - 1][i] == ys[i];
      }
    }
  }

  lemma CertifiedPrefix(sha: Sha256, rows: seq<LedgerRow>, n: nat)
    requires Certified(sha, rows) && n <= |rows|
    ensures Certified(sha, rows[..n])
  {
    var shorter := rows[..n];
    forall i | 0 <= i < n ensures Links(shorter, i) && IsSound(sha, shorter[i]) {
      assert Links(rows, i) && shorter[i] == rows[i] && shorter[..i] == rows[..i];
    }
  }

  lemma PrefixInputs(rows: seq<LedgerRow>, n: nat)
    requires n <= |rows|
    ensures ChainInputs(rows[..n]) <= ChainInputs(rows)
  {
    var shorter := rows[..n];
    forall x | x in ChainInputs(shorter) ensures x in ChainInputs(rows) {
      var i :| 0 <= i < n && shorter[i].payloadCanonical.Some? && x == RowInput(shorter[i]);
      assert rows[i] == shorter[i];
    }
  }

  lemma LastRow(sha: Sha256, rows: seq<LedgerRow>)
    requires Certified(sha, rows) && rows != []
    ensures var last := rows[|rows| - 1];
            IsSound(sha, last) && Printable(last.previousHash) && RowInput(last) in ChainInputs(rows)
  {
    var n := |rows| - 1;
    assert Links(rows, n) && IsSound(sha, rows[n]);
    CertifiedPrefix(sha, rows, n);
    HeadIsPrintable(sha, rows[..n]);
  }

  lemma EqualInputsSameRow(sha: Sha256, x: LedgerRow, y: LedgerRow)
    requires IsSound(sha, x) && IsSound(sha, y) && x.currentHash == y.currentHash
    requires Printable(x.previousHash) && Printable(y.previousHash)
    requires RowInput(x) == RowInput(y)
    ensures SameRow(x, y)
  {
    ChainInputInjective(x.payload, x.previousHash, y.payload, y.previousHash);
  }

  lemma EqualHashesEqualDigests(sha: Sha256, x: LedgerRow, y: LedgerRow)
    requires IsSound(sha, x) && IsSound(sha, y) && x.currentHash == y.currentHash
    ensures sha(RowInput(x)) == sha(RowInput(y))
  {
    HexInjective(sha(RowInput(x)), sha(RowInput(y)));
  }

  /** The last rows of two chains with one head agree, unless their inputs collide. */
  lemma LastRowsAgree(sha: Sha256, xs: seq<LedgerRow>, ys: seq<LedgerRow>, x: LedgerRow, y: LedgerRow)
    requires xs != [] && ys != [] && Certified(sha, xs) && Certified(sha, ys)
    requires x == xs[|xs| - 1] && y == ys[|ys| - 1] && x.currentHash == y.currentHash
    ensures SameRow(x, y) || Collision(sha, ChainInputs(xs), ChainInputs(ys))
  {
    LastRow(sha, xs);
    LastRow(sha, ys);
    if RowInput(x) == RowInput(y) {
      EqualInputsSameRow(sha, x, y);
    } else {
      EqualHashesEqualDigests(sha, x, y);
    }
  }

  /** Two certified chains with one head hash are the same history, or hash a collision. */
  lemma {:induction false} HeadBindsHistory(sha: Sha256, xs: seq<LedgerRow>, ys: seq<LedgerRow>)
    requires Certified(sha, xs) && Certified(sha, ys) && Head(xs) == Head(ys)
    ensures SameHistory(xs, ys) || Collision(sha, ChainInputs(xs), ChainInputs(ys))
    decreases |xs|
  {
    HeadIsPrintable(sha, xs);
    HeadIsPrintable(sha, ys);
    if xs != [] && ys != [] {
      var n, m := |xs| - 1, |ys| - 1;
      LastRowsAgree(sha, xs, ys, xs[n], ys[m]);
      if SameRow(xs[n], ys[m]) {
        CertifiedPrefix(sha, xs, n);
        CertifiedPrefix(sha, ys, m);
        assert Links(xs, n) && Links(ys, m);
        HeadBindsHistory(sha, xs[..n], ys[..m]);
        if SameHistory(xs[..n], ys[..m]) {
          SameHistoryExtend(xs, ys);
        } else {
          PrefixInputs(xs, n);
          PrefixInputs(ys, m);
          CollisionWiden(sha, ChainInputs(xs[..n]), ChainInputs(ys[..m]), ChainInputs(xs), ChainInputs(ys));
        }
      }
    }
  }

  /** The same history holds the same payloads, as JSON values. */
  lemma SameHistorySamePayloads(sha: Sha256, xs: seq<LedgerRow>, ys: seq<LedgerRow>, i: nat)
    requires Certified(sha, xs) && Certified(sha, ys) && SameHistory(xs, ys) && i < |xs|
    requires Proper(xs[i].payload) && Proper(ys[i].payload)
    ensures Same(xs[i].payload, ys[i].payload)
  {
    assert Links(xs, i) && Links(ys, i) && SameRow(xs[i], ys[i]);
    CanonicalFormDecidesSame(xs[i].payload, ys[i].payload);
  }

  /** Everything the check looks at: the three labels of a row are not among it. */
  predicate Alike(x: LedgerRow, y: LedgerRow)
  {
    x == y.(ledgerId := x.ledgerId, contractId := x.contractId, actionType := x.actionType)
  }

  predicate AllAlike(rows: seq<LedgerRow>, others: seq<LedgerRow>)
  {
    |rows| == |others| && forall j :: 0 <= j < |rows| ==> Alike(rows[j], others[j])
  }

  lemma AlikeRowsVerifyAlike(sha: Sha256, rows: seq<LedgerRow>, others: seq<LedgerRow>)
    requires AllAlike(rows, others) && Valid(sha, rows)
    ensures Valid(sha, others)
  {
    forall j | 0 <= j < |others| ensures Passes(sha, others, j) {
      assert Passes(sha, rows, j);
      assert Alike(rows[j], others[j]);
      if j > 0 {
        assert Alike(rows[j - 1], others[j - 1]);
      }
    }
  }

  /** What the chain does not bind: the contract, the kind of action and the id of a row can change unseen. */
  lemma ChainIgnoresLabels(sha: Sha256, rows: seq<LedgerRow>, edited: seq<LedgerRow>)
    requires AllAlike(rows, edited)
    ensures Valid(sha, edited) <==> Valid(sha, rows)
    ensures Head(edited) == Head(rows)
  {
    if Valid(sha, rows) {
      AlikeRowsVerifyAlike(sha, rows, edited);
    }
    if Valid(sha, edited) {
      AlikeRowsVerifyAlike(sha, edited, rows);
    }
    if rows != [] {
      assert Alike(rows[|rows| - 1], edited[|rows| - 1]);
    }
  }
}
