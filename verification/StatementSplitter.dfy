/** The string-aware statement splitter of tools/seed-neo4j.ts. */
module StatementSplitter {
  import opened Encoding

  const LINE_FEED: CodeUnit := 0x0A
  const SLASH: CodeUnit := 0x2F
  const SEMICOLON: CodeUnit := 0x3B
  const BACKSLASH: CodeUnit := 0x5C
  const SINGLE_QUOTE: CodeUnit := 0x27
  const DOUBLE_QUOTE: CodeUnit := 0x22

  predicate IsQuote(u: CodeUnit) { u == SINGLE_QUOTE || u == DOUBLE_QUOTE }

  /** What `trim` removes: white space and line terminators. */
  predicate IsSpace(u: CodeUnit)
  {
    || 0x09 <= u <= 0x0D || u == 0x20 || u == 0xA0 || u == 0x1680 || 0x2000 <= u <= 0x200A
    || u == 0x2028 || u == 0x2029 || u == 0x202F || u == 0x205F || u == 0x3000 || u == 0xFEFF
  }

  function TrimStart(t: Text): (r: Text)
    ensures r == [] || !IsSpace(r[0])
  {
    if t == [] then [] else if IsSpace(t[0]) then TrimStart(t[1..]) else t
  }

  function TrimEnd(t: Text): (r: Text)
    ensures r <= t && (r == [] || !IsSpace(r[|r| - 1]))
  {
    if t == [] then [] else if IsSpace(t[|t| - 1]) then TrimEnd(t[..|t| - 1]) else t
  }

  function Trim(t: Text): Text { TrimEnd(TrimStart(t)) }

  predicate IsTrimmed(t: Text)
  {
    t != [] && !IsSpace(t[0]) && !IsSpace(t[|t| - 1])
  }

  /** The statement that ends here, if there is more to it than white space. */
  function Flush(current: Text): seq<Text> { if Trim(current) == [] then [] else [Trim(current)] }

  // ---------- scanning ----------

  function IndexOf(text: Text, u: CodeUnit, from: nat): (i: Option<nat>)
    ensures i.Some? ==> from <= i.value < |text| && text[i.value] == u
    ensures i.Some? ==> forall j :: from <= j < i.value ==> text[j] != u
    ensures i == None ==> forall j :: from <= j < |text| ==> text[j] != u
    decreases |text| - from
  {
    if from >= |text| then None
    else if text[from] == u then Some(from)
    else IndexOf(text, u, from + 1)
  }

  /** Outside a string, two slashes begin a comment. */
  predicate StartsComment(text: Text, i: nat, inString: Option<CodeUnit>)
    requires i < |text|
  {
    inString == None && text[i] == SLASH && i + 1 < |text| && text[i + 1] == SLASH
  }

  /** A quote with no backslash right before it opens a string, or closes the one it opened. */
  function Toggle(text: Text, i: nat, inString: Option<CodeUnit>): Option<CodeUnit>
    requires i < |text|
  {
    if !IsQuote(text[i]) || (i > 0 && text[i - 1] == BACKSLASH) then inString
    else if inString == Some(text[i]) then None
    else if inString == None then Some(text[i])
    else inString
  }

  /** The statements of the text from i on, with what has been collected of the current one. */
  function Scan(text: Text, i: nat, current: Text, inString: Option<CodeUnit>): seq<Text>
    decreases |text| - i
  {
    if i >= |text| then Flush(current)
    else if StartsComment(text, i, inString) then
      var newline := IndexOf(text, LINE_FEED, i);
      if newline == None then Flush(current)
      else Scan(text, newline.value + 1, current + [LINE_FEED], inString)
    else
      var next := Toggle(text, i, inString);
      if text[i] == SEMICOLON && next == None then Flush(current) + Scan(text, i + 1, [], next)
      else Scan(text, i + 1, current + [text[i]], next)
  }

  function Split(text: Text): seq<Text> { Scan(text, 0, [], None) }

  /** One turn of the loop: a comment is skipped, or one character is looked at. */
  method Advance(text: Text, i: nat, current: Text, inString: Option<CodeUnit>)
    returns (found: seq<Text>, i': nat, current': Text, inString': Option<CodeUnit>)
    requires i < |text|
    ensures i < i' <= |text|
    ensures Scan(text, i, current, inString) == found + Scan(text, i', current', inString')
  {
    found, i', current', inString' := [], i + 1, current, inString;
    var ch := text[i];
    if inString == None && ch == SLASH && i + 1 < |text| && text[i + 1] == SLASH {
      var newline := IndexOf(text, LINE_FEED, i);
      if newline == None {
        // The comment runs to the end of the text.
        i' := |text|;
      } else {
        current', i' := current + [LINE_FEED], newline.value + 1;
      }
      return;
    }
    if IsQuote(ch) && (i == 0 || text[i - 1] != BACKSLASH) {
      if inString == Some(ch) {
        inString' := None;
      } else if inString == None {
        inString' := Some(ch);
      }
    }
    if ch == SEMICOLON && inString' == None {
      var statement := Trim(current);
      found := if |statement| > 0 then [statement] else [];
      current' := [];
    } else {
      current' := current + [ch];
    }
  }

  method SplitStatements(text: Text) returns (statements: seq<Text>)
    ensures statements == Split(text)
  {
    statements := [];
    var current: Text := [];
    var inString: Option<CodeUnit> := None;
    var i := 0;
    while i < |text|
      invariant 0 <= i <= |text|
      invariant statements + Scan(text, i, current, inString) == Split(text)
    {
      var found, next, collected, state := Advance(text, i, current, inString);
      Associate(statements, found, Scan(text, next, collected, state));
      statements, i, current, inString := statements + found, next, collected, state;
    }
    var tail := Trim(current);
    if |tail| > 0 {
      statements := statements + [tail];
    }
  }

  // ---------- joining and splitting ----------

  /** From j on: no comment, no semicolon outside a string, and every string is closed at the end. */
  predicate PlainFrom(s: Text, j: nat, inString: Option<CodeUnit>)
    decreases |s| - j
  {
    if j >= |s| then inString == None
    else
      && !StartsComment(s, j, inString)
      && (s[j] == SEMICOLON ==> Toggle(s, j, inString) != None)
      && PlainFrom(s, j + 1, Toggle(s, j, inString))
  }

  /** Trimmed, not empty, quote-balanced, free of unquoted semicolons and comments. */
  predicate Plain(s: Text) { IsTrimmed(s) && PlainFrom(s, 0, None) }

  function Join(statements: seq<Text>): Text
  {
    if statements == [] then []
    else if |statements| == 1 then statements[0]
    else statements[0] + ([SEMICOLON, LINE_FEED] + Join(statements[1..]))
  }

  /** The statement s stands in the text at p, and nothing around it changes how it reads. */
  predicate StandsAt(text: Text, p: nat, s: Text)
  {
    && p + |s| <= |text| && text[p..p + |s|] == s
    && (p > 0 ==> text[p - 1] != BACKSLASH)
    && (p + |s| < |text| ==> text[p + |s|] != SLASH)
  }

  lemma ReadsTheSame(text: Text, p: nat, s: Text, j: nat, inString: Option<CodeUnit>)
    requires StandsAt(text, p, s) && j < |s|
    ensures text[p + j] == s[j] && Toggle(text, p + j, inString) == Toggle(s, j, inString)
    ensures StartsComment(text, p + j, inString) == StartsComment(s, j, inString)
  {
    assert text[p + j] == text[p..p + |s|][j];
    if j > 0 {
      assert text[p + j - 1] == text[p..p + |s|][j - 1];
    }
    if j + 1 < |s| {
      assert text[p + j + 1] == text[p..p + |s|][j + 1];
    }
  }

  /** A plain statement is collected whole. */
  lemma {:induction false} ScanPlain(text: Text, p: nat, s: Text, j: nat, current: Text, inString: Option<CodeUnit>)
    requires StandsAt(text, p, s) && j <= |s| && PlainFrom(s, j, inString)
    ensures Scan(text, p + j, current, inString) == Scan(text, p + |s|, current + s[j..], None)
    decreases |s| - j
  {
    if j == |s| {
      assert current + s[j..] == current;
    } else {
      ReadsTheSame(text, p, s, j, inString);
      ScanPlain(text, p, s, j + 1, current + [s[j]], Toggle(s, j, inString));
      Associate(current, [s[j]], s[j + 1..]);
      assert [s[j]] + s[j + 1..] == s[j..];
    }
  }

  lemma FlushTrimmed(s: Text, current: Text)
    requires IsTrimmed(s) && (current == [] || current == [LINE_FEED])
    ensures Flush(current + s) == [s]
  {
    if current == [] {
      assert current + s == s;
    } else {
      assert (current + s)[1..] == s;
    }
    assert TrimStart(current + s) == s;
  }

  lemma TextOfJoin(text: Text, p: nat, s: Text, rest: Text)
    requires p <= |text| && text[p..] == s + ([SEMICOLON, LINE_FEED] + rest)
    ensures p + |s| + 2 <= |text| && text[p..p + |s|] == s
    ensures text[p + |s|] == SEMICOLON && text[p + |s| + 1] == LINE_FEED && text[p + |s| + 2..] == rest
  {
    var t := text[p..];
    assert t[..|s|] == s && t[|s|] == SEMICOLON && t[|s| + 1] == LINE_FEED && t[|s| + 2..] == rest;
  }

  lemma ScanStatement(text: Text, p: nat, s: Text, current: Text)
    requires StandsAt(text, p, s) && Plain(s)
    ensures Scan(text, p, current, None) == Scan(text, p + |s|, current + s, None)
  {
    assert s[0..] == s;
    ScanPlain(text, p, s, 0, current, None);
  }

  lemma ScanSeparator(text: Text, at: nat, current: Text)
    requires at + 1 < |text| && text[at] == SEMICOLON && text[at + 1] == LINE_FEED
    ensures Scan(text, at, current, None) == Flush(current) + Scan(text, at + 2, [LINE_FEED], None)
  {
    assert Scan(text, at + 1, [], None) == Scan(text, at + 2, [] + [LINE_FEED], None);
    assert [] + [LINE_FEED] == [LINE_FEED];
  }

  lemma ScanLast(text: Text, p: nat, s: Text, current: Text)
    requires Plain(s) && p <= |text| && text[p..] == s && (p > 0 ==> text[p - 1] != BACKSLASH)
    requires current == [] || current == [LINE_FEED]
    ensures Scan(text, p, current, None) == [s]
  {
    assert text[p..p + |s|] == s;
    ScanStatement(text, p, s, current);
    FlushTrimmed(s, current);
    assert Scan(text, |text|, current + s, None) == Flush(current + s);
  }

  lemma ScanFirst(text: Text, p: nat, s: Text, current: Text)
    requires Plain(s) && StandsAt(text, p, s) && p + |s| + 1 < |text|
    requires text[p + |s|] == SEMICOLON && text[p + |s| + 1] == LINE_FEED
    requires current == [] || current == [LINE_FEED]
    ensures Scan(text, p, current, None) == [s] + Scan(text, p + |s| + 2, [LINE_FEED], None)
  {
    ScanStatement(text, p, s, current);
    ScanSeparator(text, p + |s|, current + s);
    FlushTrimmed(s, current);
  }

  /** Statements that stand in the text from p on, joined, are what the scan finds. */
  lemma {:induction false} ScanJoined(text: Text, p: nat, statements: seq<Text>, current: Text)
    requires statements != [] && forall i :: 0 <= i < |statements| ==> Plain(statements[i])
    requires p <= |text| && text[p..] == Join(statements) && (p > 0 ==> text[p - 1] != BACKSLASH)
    requires current == [] || current == [LINE_FEED]
    ensures Scan(text, p, current, None) == statements
    decreases |statements|
  {
    var s, rest := statements[0], statements[1..];
    assert statements == [s] + rest;
    if rest == [] {
      ScanLast(text, p, s, current);
    } else {
      TextOfJoin(text, p, s, Join(rest));
      ScanFirst(text, p, s, current);
      ScanJoined(text, p + |s| + 2, rest, [LINE_FEED]);
    }
  }

  /** Joining plain statements with a semicolon and a line feed, and splitting, gives them back. */
  lemma SplitUndoesJoin(statements: seq<Text>)
    requires forall i :: 0 <= i < |statements| ==> Plain(statements[i])
    ensures Split(Join(statements)) == statements
  {
    if statements != [] {
      assert Join(statements)[0..] == Join(statements);
      ScanJoined(Join(statements), 0, statements, []);
    }
  }

  // ---------- a comment line reads as a line feed ----------

  /** Where the scan of a text stands at its end. */
  datatype Progress = Progress(done: seq<Text>, current: Text, inString: Option<CodeUnit>, inComment: bool)

  function Reach(a: Text, i: nat, current: Text, inString: Option<CodeUnit>): Progress
    decreases |a| - i
  {
    if i >= |a| then Progress([], current, inString, false)
    else if StartsComment(a, i, inString) then
      var newline := IndexOf(a, LINE_FEED, i);
      if newline == None then Progress([], current, inString, true)
      else Reach(a, newline.value + 1, current + [LINE_FEED], inString)
    else
      var next := Toggle(a, i, inString);
      if a[i] == SEMICOLON && next == None then
        var rest := Reach(a, i + 1, [], next);
        rest.(done := Flush(current) + rest.done)
      else Reach(a, i + 1, current + [a[i]], next)
  }

  /** The rest of a comment, from i on, and what follows its line. */
  function AfterComment(text: Text, i: nat, current: Text): seq<Text>
  {
    var newline := IndexOf(text, LINE_FEED, i);
    if newline == None then Flush(current) else Scan(text, newline.value + 1, current + [LINE_FEED], None)
  }

  function Continue(text: Text, i: nat, p: Progress): seq<Text>
  {
    p.done + if p.inComment then AfterComment(text, i, p.current) else Scan(text, i, p.current, p.inString)
  }

  /** The search for a line feed goes on into x exactly when there is none left in a. */
  lemma {:induction false} IndexOfConcat(a: Text, x: Text, u: CodeUnit, from: nat)
    requires from <= |a|
    ensures IndexOf(a + x, u, from) == if IndexOf(a, u, from).Some? then IndexOf(a, u, from) else IndexOf(a + x, u, |a|)
    decreases |a| - from
  {
    if from < |a| && a[from] != u {
      IndexOfConcat(a, x, u, from + 1);
    }
  }

  /** The last slash of a is not the first of two, as x goes on. */
  predicate NoSlashAcross(a: Text, x: Text)
  {
    a == [] || a[|a| - 1] != SLASH || x == [] || x[0] != SLASH
  }

  lemma SameInPrefix(a: Text, x: Text, i: nat, inString: Option<CodeUnit>)
    requires i < |a| && (NoSlashAcross(a, x) || i + 1 < |a|)
    ensures StartsComment(a + x, i, inString) == StartsComment(a, i, inString)
    ensures Toggle(a + x, i, inString) == Toggle(a, i, inString) && (a + x)[i] == a[i]
  {
  }

  /** Scanning a + x is scanning a, and then x from where that ended. */
  lemma {:induction false} ScanConcat(a: Text, x: Text, i: nat, current: Text, inString: Option<CodeUnit>)
    requires i <= |a| && (NoSlashAcross(a, x) || Reach(a, i, current, inString).inComment)
    ensures Scan(a + x, i, current, inString) == Continue(a + x, |a|, Reach(a, i, current, inString))
    decreases |a| - i
  {
    if i < |a| {
      if Reach(a, i, current, inString).inComment {
        LastSlashInComment(a, i, current, inString);
      }
      SameInPrefix(a, x, i, inString);
      if StartsComment(a, i, inString) {
        IndexOfConcat(a, x, LINE_FEED, i);
        if IndexOf(a, LINE_FEED, i).Some? {
          ScanConcat(a, x, IndexOf(a, LINE_FEED, i).value + 1, current + [LINE_FEED], inString);
        }
      } else {
        ScanConcatStep(a, x, i, current, inString);
      }
    }
  }

  lemma {:induction false} ScanConcatStep(a: Text, x: Text, i: nat, current: Text, inString: Option<CodeUnit>)
    requires i < |a| && (NoSlashAcross(a, x) || Reach(a, i, current, inString).inComment)
    requires !StartsComment(a, i, inString) && !StartsComment(a + x, i, inString)
    requires Toggle(a + x, i, inString) == Toggle(a, i, inString)
    ensures Scan(a + x, i, current, inString) == Continue(a + x, |a|, Reach(a, i, current, inString))
    decreases |a| - i, 0
  {
    var next := Toggle(a, i, inString);
    if a[i] == SEMICOLON && next == None {
      ScanConcat(a, x, i + 1, [], next);
      var rest := Reach(a, i + 1, [], next);
      Associate(Flush(current), rest.done, Continue(a + x, |a|, rest.(done := [])));
    } else {
      ScanConcat(a, x, i + 1, current + [a[i]], next);
    }
  }

  /** A scan that ends inside a comment has not looked at the last slash as the first of two. */
  lemma LastSlashInComment(a: Text, i: nat, current: Text, inString: Option<CodeUnit>)
    requires i < |a| && Reach(a, i, current, inString).inComment
    ensures i + 1 < |a|
  {
  }

  /** Behind a line feed the scan depends only on what follows it. */
  lemma {:induction false} ScanSuffix(a: Text, x: Text, j: nat, current: Text, inString: Option<CodeUnit>)
    requires 1 <= j <= |x|
    ensures Scan(a + x, |a| + j, current, inString) == Scan(x, j, current, inString)
    decreases |x| - j
  {
    if j < |x| {
      SameInSuffix(a, x, j, inString);
      if StartsComment(x, j, inString) {
        IndexOfSuffix(a, x, LINE_FEED, j);
        if IndexOf(x, LINE_FEED, j).Some? {
          ScanSuffix(a, x, IndexOf(x, LINE_FEED, j).value + 1, current + [LINE_FEED], inString);
        }
      } else {
        ScanSuffixStep(a, x, j, current, inString);
      }
    }
  }

  lemma {:induction false} ScanSuffixStep(a: Text, x: Text, j: nat, current: Text, inString: Option<CodeUnit>)
    requires 1 <= j < |x| && !StartsComment(x, j, inString) && !StartsComment(a + x, |a| + j, inString)
    requires Toggle(a + x, |a| + j, inString) == Toggle(x, j, inString) && (a + x)[|a| + j] == x[j]
    ensures Scan(a + x, |a| + j, current, inString) == Scan(x, j, current, inString)
    decreases |x| - j, 0
  {
    var next := Toggle(x, j, inString);
    if x[j] == SEMICOLON && next == None {
      ScanSuffix(a, x, j + 1, [], next);
    } else {
      ScanSuffix(a, x, j + 1, current + [x[j]], next);
    }
  }

  lemma SameInSuffix(a: Text, x: Text, j: nat, inString: Option<CodeUnit>)
    requires 1 <= j < |x|
    ensures StartsComment(a + x, |a| + j, inString) == StartsComment(x, j, inString)
    ensures Toggle(a + x, |a| + j, inString) == Toggle(x, j, inString) && (a + x)[|a| + j] == x[j]
  {
    assert (a + x)[|a| + j - 1] == x[j - 1];
  }

  lemma {:induction false} IndexOfSuffix(a: Text, x: Text, u: CodeUnit, from: nat)
    requires from <= |x|
    ensures var i := IndexOf(x, u, from);
            IndexOf(a + x, u, |a| + from) == if i == None then None else Some(|a| + i.value)
    decreases |x| - from
  {
    if from < |x| && x[from] != u {
      IndexOfSuffix(a, x, u, from + 1);
    }
  }

  function CommentLine(comment: Text): Text { [SLASH, SLASH] + comment }

  /** From a place in a where code or a comment may go on, a comment line is skipped to its line feed. */
  lemma SkipsCommentLine(a: Text, comment: Text, b: Text, p: Progress)
    requires LINE_FEED !in comment && (p.inComment || p.inString == None)
    ensures var y := [LINE_FEED] + b;
            Continue(a + (CommentLine(comment) + y), |a|, p) == p.done + Scan(y, 1, p.current + [LINE_FEED], None)
  {
    var y, line := [LINE_FEED] + b, CommentLine(comment);
    EndOfCommentLine(a, comment, y);
    Associate(a, line, y);
    ScanSuffix(a + line, y, 1, p.current + [LINE_FEED], None);
  }

  lemma EndOfCommentLine(a: Text, comment: Text, y: Text)
    requires LINE_FEED !in comment && y != [] && y[0] == LINE_FEED
    ensures var text, line := a + (CommentLine(comment) + y), CommentLine(comment);
            StartsComment(text, |a|, None) && IndexOf(text, LINE_FEED, |a|) == Some(|a + line|)
  {
    var line := CommentLine(comment);
    var x := line + y;
    IndexOfSuffix(a, x, LINE_FEED, 0);
    assert IndexOf(x, LINE_FEED, 0) == Some(|line|) by {
      IndexOfConcat(line, y, LINE_FEED, 0);
      NotInLine(comment);
      assert x[|line|] == LINE_FEED;
    }
    assert (a + x)[|a|] == SLASH && (a + x)[|a| + 1] == SLASH;
  }

  lemma NotInLine(comment: Text)
    requires LINE_FEED !in comment
    ensures IndexOf(CommentLine(comment), LINE_FEED, 0) == None
  {
    var line := CommentLine(comment);
    forall i | 0 <= i < |line| ensures line[i] != LINE_FEED {
      if i >= 2 {
        assert line[i] == comment[i - 2];
      }
    }
  }

  lemma SkipsLineFeed(a: Text, b: Text, p: Progress)
    requires p.inComment || p.inString == None
    ensures var y := [LINE_FEED] + b;
            Continue(a + y, |a|, p) == p.done + Scan(y, 1, p.current + [LINE_FEED], None)
  {
    var y := [LINE_FEED] + b;
    assert (a + y)[|a|] == LINE_FEED;
    ScanSuffix(a, y, 1, p.current + [LINE_FEED], None);
  }

  /**
   * Outside a string and not just after a slash, or anywhere inside a comment: inserting a comment line
   * and inserting a line feed give the same statements, whatever the comment says.
   */
  lemma CommentLineIsLineFeed(a: Text, comment: Text, b: Text)
    requires LINE_FEED !in comment
    requires var p := Reach(a, 0, [], None);
             p.inComment || (p.inString == None && (a == [] || a[|a| - 1] != SLASH))
    ensures Split(a + (CommentLine(comment) + ([LINE_FEED] + b))) == Split(a + ([LINE_FEED] + b))
  {
    var p := Reach(a, 0, [], None);
    ScanConcat(a, CommentLine(comment) + ([LINE_FEED] + b), 0, [], None);
    ScanConcat(a, [LINE_FEED] + b, 0, [], None);
    SkipsCommentLine(a, comment, b, p);
    SkipsLineFeed(a, b, p);
  }

  // ---------- just after a slash ----------

  /** A slash that is read as part of a statement is only collected. */
  lemma {:induction false} ReachSlash(a: Text, i: nat, current: Text, inString: Option<CodeUnit>)
    requires i <= |a|
    requires var p := Reach(a + [SLASH], i, current, inString); !p.inComment && p.inString == None
    ensures var p := Reach(a, i, current, inString);
            && Reach(a + [SLASH], i, current, inString) == p.(current := p.current + [SLASH])
            && !p.inComment && p.inString == None && (i < |a| ==> a[|a| - 1] != SLASH)
    decreases |a| - i
  {
    var longer := a + [SLASH];
    if i < |a| {
      assert longer[i] == a[i] && (i > 0 ==> longer[i - 1] == a[i - 1]);
      if StartsComment(longer, i, inString) {
        IndexOfConcat(a, [SLASH], LINE_FEED, i);
        assert IndexOf(longer, LINE_FEED, |a|) == None by {
          assert IndexOf(longer, LINE_FEED, |a| + 1) == None;
        }
        ReachSlash(a, IndexOf(a, LINE_FEED, i).value + 1, current + [LINE_FEED], inString);
      } else {
        assert !StartsComment(a, i, inString);
        ReachSlashStep(a, i, current, inString);
      }
    }
  }

  lemma {:induction false} ReachSlashStep(a: Text, i: nat, current: Text, inString: Option<CodeUnit>)
    requires i < |a| && !StartsComment(a + [SLASH], i, inString) && !StartsComment(a, i, inString)
    requires var p := Reach(a + [SLASH], i, current, inString); !p.inComment && p.inString == None
    ensures var p := Reach(a, i, current, inString);
            && Reach(a + [SLASH], i, current, inString) == p.(current := p.current + [SLASH])
            && !p.inComment && p.inString == None && a[|a| - 1] != SLASH
    decreases |a| - i, 0
  {
    var next, longer := Toggle(a, i, inString), a + [SLASH];
    assert Toggle(longer, i, inString) == next && longer[i] == a[i];
    ReachSlash(a, i + 1, if a[i] == SEMICOLON && next == None then [] else current + [a[i]], next);
  }

  function Slashes(t: Text): nat { multiset(t)[SLASH] }

  function SlashesIn(statements: seq<Text>): nat
  {
    if statements == [] then 0 else Slashes(statements[0]) + SlashesIn(statements[1..])
  }

  lemma {:induction false} SlashesInConcat(a: seq<Text>, b: seq<Text>)
    ensures SlashesIn(a + b) == SlashesIn(a) + SlashesIn(b)
  {
    if a == [] {
      assert a + b == b;
    } else {
      assert (a + b)[1..] == a[1..] + b;
      SlashesInConcat(a[1..], b);
    }
  }

  lemma {:induction false} TrimStartKeepsSlashes(t: Text)
    ensures Slashes(TrimStart(t)) == Slashes(t)
  {
    if t != [] && IsSpace(t[0]) {
      TrimStartKeepsSlashes(t[1..]);
      assert t == [t[0]] + t[1..];
    }
  }

  lemma {:induction false} TrimEndKeepsSlashes(t: Text)
    ensures Slashes(TrimEnd(t)) == Slashes(t)
  {
    if t != [] && IsSpace(t[|t| - 1]) {
      TrimEndKeepsSlashes(t[..|t| - 1]);
      assert t == t[..|t| - 1] + [t[|t| - 1]];
    }
  }

  lemma FlushKeepsSlashes(current: Text)
    ensures SlashesIn(Flush(current)) == Slashes(current)
  {
    TrimStartKeepsSlashes(current);
    TrimEndKeepsSlashes(TrimStart(current));
  }

  /** One slash more among what is collected is one slash more in what is found. */
  lemma {:induction false} ScanKeepsSlashes(text: Text, i: nat, c: Text, d: Text, inString: Option<CodeUnit>)
    ensures SlashesIn(Scan(text, i, c, inString)) + Slashes(d) == SlashesIn(Scan(text, i, d, inString)) + Slashes(c)
    decreases |text| - i
  {
    if i >= |text| || (StartsComment(text, i, inString) && IndexOf(text, LINE_FEED, i) == None) {
      FlushKeepsSlashes(c);
      FlushKeepsSlashes(d);
    } else if StartsComment(text, i, inString) {
      ScanKeepsSlashes(text, IndexOf(text, LINE_FEED, i).value + 1, c + [LINE_FEED], d + [LINE_FEED], inString);
    } else if text[i] == SEMICOLON && Toggle(text, i, inString) == None {
      FlushKeepsSlashes(c);
      FlushKeepsSlashes(d);
      SlashesInConcat(Flush(c), Scan(text, i + 1, [], None));
      SlashesInConcat(Flush(d), Scan(text, i + 1, [], None));
    } else {
      ScanKeepsSlashes(text, i + 1, c + [text[i]], d + [text[i]], Toggle(text, i, inString));
    }
  }

  lemma LineFeedAfterSlash(a: Text, b: Text)
    requires var p := Reach(a + [SLASH], 0, [], None); !p.inComment && p.inString == None
    ensures SlashesIn(Split((a + [SLASH]) + ([LINE_FEED] + b))) == SlashesIn(Split(a + ([LINE_FEED] + b))) + 1
  {
    ReachSlash(a, 0, [], None);
    var y, longer := [LINE_FEED] + b, a + [SLASH];
    var p, q := Reach(a, 0, [], None), Reach(longer, 0, [], None);
    ScanConcat(a, y, 0, [], None);
    ScanConcat(longer, y, 0, [], None);
    SkipsLineFeed(a, b, p);
    SkipsLineFeed(longer, b, q);
    ScanKeepsSlashes(y, 1, p.current + [LINE_FEED], q.current + [LINE_FEED], None);
    SlashesInConcat(p.done, Scan(y, 1, p.current + [LINE_FEED], None));
    SlashesInConcat(p.done, Scan(y, 1, q.current + [LINE_FEED], None));
    assert Slashes(q.current + [LINE_FEED]) == Slashes(p.current + [LINE_FEED]) + 1;
  }

  lemma CommentAfterSlash(a: Text, comment: Text, b: Text)
    requires LINE_FEED !in comment
    requires var p := Reach(a + [SLASH], 0, [], None); !p.inComment && p.inString == None
    ensures Split((a + [SLASH]) + (CommentLine(comment) + ([LINE_FEED] + b))) == Split(a + ([LINE_FEED] + b))
  {
    ReachSlash(a, 0, [], None);
    SlashShifts(a, comment, [LINE_FEED] + b);
    CommentLineIsLineFeed(a, [SLASH] + comment, b);
  }

  /**
   * Just after any slash outside strings and comments it is not the same: that slash becomes the first of
   * the comment's two, and the statements have lost exactly it.
   */
  lemma AfterASlashItDiffers(a: Text, comment: Text, b: Text)
    requires LINE_FEED !in comment
    requires var p := Reach(a + [SLASH], 0, [], None); !p.inComment && p.inString == None
    ensures var line := Split((a + [SLASH]) + (CommentLine(comment) + ([LINE_FEED] + b)));
            var feed := Split((a + [SLASH]) + ([LINE_FEED] + b));
            SlashesIn(feed) == SlashesIn(line) + 1 && line != feed
  {
    CommentAfterSlash(a, comment, b);
    LineFeedAfterSlash(a, b);
  }

  lemma SlashShifts(a: Text, comment: Text, y: Text)
    ensures (a + [SLASH]) + (CommentLine(comment) + y) == a + (CommentLine([SLASH] + comment) + y)
  {
  }

  // ---------- escaped backslashes ----------

  /** How many backslashes stand right before i. */
  function Backslashes(text: Text, i: nat): (n: nat)
    requires i <= |text|
    ensures n <= i && forall j :: i - n <= j < i ==> text[j] == BACKSLASH
    ensures n < i ==> text[i - n - 1] != BACKSLASH
  {
    if i == 0 || text[i - 1] != BACKSLASH then 0 else Backslashes(text, i - 1) + 1
  }

  /** The reading in which a backslash can itself be escaped: only an odd run of them escapes a quote. */
  function CountedToggle(text: Text, i: nat, inString: Option<CodeUnit>): Option<CodeUnit>
    requires i < |text|
  {
    if !IsQuote(text[i]) || Backslashes(text, i) % 2 == 1 then inString
    else if inString == Some(text[i]) then None
    else if inString == None then Some(text[i])
    else inString
  }

  /** A quote behind escaped backslashes only. */
  predicate BehindEscapedBackslash(text: Text, i: nat)
    requires i < |text|
  {
    IsQuote(text[i]) && Backslashes(text, i) > 0 && Backslashes(text, i) % 2 == 0
  }

  /** The two readings of a position differ exactly at such a quote. */
  lemma TogglesAgreeIff(text: Text, i: nat)
    requires i < |text|
    ensures (forall inString :: Toggle(text, i, inString) == CountedToggle(text, i, inString))
            <==> !BehindEscapedBackslash(text, i)
  {
    if BehindEscapedBackslash(text, i) {
      assert Toggle(text, i, None) != CountedToggle(text, i, None);
    }
  }

  function CountedScan(text: Text, i: nat, current: Text, inString: Option<CodeUnit>): seq<Text>
    decreases |text| - i
  {
    if i >= |text| then Flush(current)
    else if StartsComment(text, i, inString) then
      var newline := IndexOf(text, LINE_FEED, i);
      if newline == None then Flush(current)
      else CountedScan(text, newline.value + 1, current + [LINE_FEED], inString)
    else
      var next := CountedToggle(text, i, inString);
      if text[i] == SEMICOLON && next == None then Flush(current) + CountedScan(text, i + 1, [], next)
      else CountedScan(text, i + 1, current + [text[i]], next)
  }

  function CountedSplit(text: Text): seq<Text> { CountedScan(text, 0, [], None) }

  lemma {:induction false} ScansAgree(text: Text, i: nat, current: Text, inString: Option<CodeUnit>)
    requires forall j :: 0 <= j < |text| ==> !BehindEscapedBackslash(text, j)
    ensures Scan(text, i, current, inString) == CountedScan(text, i, current, inString)
    decreases |text| - i
  {
    if i < |text| {
      if StartsComment(text, i, inString) {
        if IndexOf(text, LINE_FEED, i).Some? {
          ScansAgree(text, IndexOf(text, LINE_FEED, i).value + 1, current + [LINE_FEED], inString);
        }
      } else {
        TogglesAgreeIff(text, i);
        var next := Toggle(text, i, inString);
        ScansAgree(text, i + 1, if text[i] == SEMICOLON && next == None then [] else current + [text[i]], next);
      }
    }
  }

  /** Without a quote behind escaped backslashes only, the text splits as if backslashes were counted. */
  lemma SplitsAgree(text: Text)
    requires forall j :: 0 <= j < |text| ==> !BehindEscapedBackslash(text, j)
    ensures Split(text) == CountedSplit(text)
  {
    ScansAgree(text, 0, [], None);
  }

  /** A string that ends in an escaped backslash, a semicolon, and another statement. */
  const MERGED: Text := [SINGLE_QUOTE, BACKSLASH, BACKSLASH, SINGLE_QUOTE, SEMICOLON, 0x62]

  /** With one they can differ: the string is not seen to end, and the two statements come out as one. */
  lemma EscapedBackslashMerges()
    ensures Split(MERGED) == [MERGED] && CountedSplit(MERGED) == [MERGED[..4], [0x62]]
  {
    MergedIsOne(MERGED);
    MergedIsTwo(MERGED);
  }

  lemma MergedIsOne(t: Text)
    requires t == MERGED
    ensures Split(t) == [t]
  {
    var q := Some(SINGLE_QUOTE);
    FlushTrimmed(t, []);
    assert [] + t == t;
    assert t[..5] + [t[5]] == t && t[..4] + [t[4]] == t[..5] && t[..3] + [t[3]] == t[..4];
    assert t[..2] + [t[2]] == t[..3] && t[..1] + [t[1]] == t[..2] && [] + [t[0]] == t[..1];
    assert Scan(t, 6, t, q) == [t];
    assert Scan(t, 5, t[..5], q) == [t];
    assert Scan(t, 4, t[..4], q) == [t];
    assert Scan(t, 3, t[..3], q) == [t];
    assert Scan(t, 2, t[..2], q) == [t];
    assert Scan(t, 1, t[..1], q) == [t];
  }

  lemma MergedIsTwo(t: Text)
    requires t == MERGED
    ensures CountedSplit(t) == [t[..4], [0x62]]
  {
    var q := Some(SINGLE_QUOTE);
    var b: Text := [0x62];
    FlushTrimmed(t[..4], []);
    FlushTrimmed(b, []);
    assert [] + t[..4] == t[..4] && [] + b == b && [] + [t[5]] == b;
    assert t[..3] + [t[3]] == t[..4] && t[..2] + [t[2]] == t[..3] && t[..1] + [t[1]] == t[..2] && [] + [t[0]] == t[..1];
    assert Backslashes(t, 1) == 0 && Backslashes(t, 2) == 1 && Backslashes(t, 3) == 2;
    assert CountedScan(t, 6, b, None) == [b];
    assert CountedScan(t, 5, [], None) == [b];
    assert CountedScan(t, 4, t[..4], None) == [t[..4]] + [b];
    assert CountedScan(t, 3, t[..3], q) == [t[..4], b];
    assert CountedScan(t, 2, t[..2], q) == [t[..4], b];
    assert CountedScan(t, 1, t[..1], q) == [t[..4], b];
  }

  // ---------- one text, spelled out ----------

  /** A semicolon ends a statement but not inside quotes, and a comment goes with its line. */
  lemma SplitsForInstance()
    ensures Split(Units("a;'b;'//c") + [0x0A] + Units("d")) == [Units("a"), Units("'b;'") + [0x0A] + Units("d")]
  {
    var t: Text := [0x61, 0x3B, 0x27, 0x62, 0x3B, 0x27, 0x2F, 0x2F, 0x63, 0x0A, 0x64];
    assert Units("a;'b;'//c") == t[..9] && Units("d") == t[10..];
    assert Units("a;'b;'//c") + [0x0A] + Units("d") == t;
    var second: Text := [0x27, 0x62, 0x3B, 0x27, 0x0A, 0x64];
    assert Units("'b;'") == second[..4];
    assert Units("a") == [0x61] && Units("'b;'") + [0x0A] + Units("d") == second;
    InstanceSplits(t, second);
  }

  lemma InstanceEnds(t: Text, second: Text)
    requires t == [0x61, 0x3B, 0x27, 0x62, 0x3B, 0x27, 0x2F, 0x2F, 0x63, 0x0A, 0x64]
    requires second == [0x27, 0x62, 0x3B, 0x27, 0x0A, 0x64]
    ensures Scan(t, 6, second[..4], None) == [second]
  {
    FlushTrimmed(second, []);
    assert [] + second == second;
    assert second[..5] + [0x64] == second && second[..4] + [LINE_FEED] == second[..5];
    assert IndexOf(t, LINE_FEED, 9) == Some(9);
    assert IndexOf(t, LINE_FEED, 6) == Some(9);
    assert Scan(t, 11, second, None) == [second];
    assert Scan(t, 10, second[..5], None) == [second];
  }

  lemma InstanceSplits(t: Text, second: Text)
    requires t == [0x61, 0x3B, 0x27, 0x62, 0x3B, 0x27, 0x2F, 0x2F, 0x63, 0x0A, 0x64]
    requires second == [0x27, 0x62, 0x3B, 0x27, 0x0A, 0x64]
    ensures Split(t) == [[0x61], second]
  {
    var q, first := Some(SINGLE_QUOTE), [t[0]];
    InstanceEnds(t, second);
    FlushTrimmed(first, []);
    assert [] + first == first && first == [0x61] && second[..3] + [0x27] == second[..4];
    assert second[..2] + [0x3B] == second[..3] && second[..1] + [0x62] == second[..2] && [] + [0x27] == second[..1];
    assert Scan(t, 5, second[..3], q) == [second];
    assert Scan(t, 4, second[..2], q) == [second];
    assert Scan(t, 3, second[..1], q) == [second];
    assert Scan(t, 2, [], None) == [second];
    assert Scan(t, 1, first, None) == [first] + [second];
  }
}
