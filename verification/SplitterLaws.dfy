/** What splitting promises: statements split to themselves, and splitting undoes printing. */
module SplitterLaws {
  import opened Seqs
  import opened Text
  import opened SqlLexer

  // A text all of which is one statement.
  ghost predicate IsStatement(s: string) {
    s != "" && Trimmed(s) && Lex(s, Start) == Keeps(s)
  }

  ghost predicate StartsMeta(s: string) { s != "" && s[0] == '\\' }

  // ---------- Chunks ----------

  // A mode reached only by real runs: a dollar-quote tag ends with a dollar sign.
  ghost predicate Sane(m: Mode) { m.DollarQuote? ==> m.tag != "" && m.tag[|m.tag| - 1] == '$' }

  lemma {:induction false} EndSane(s: string, m: Mode)
    requires Sane(m)
    ensures Sane(End(s, m))
  {
    if s != "" { EndSane(s[1..], Next(m, s[0])); }
  }

  // The mode in which the text of the first chunk is read: after a dropped meta-line the scan is where it was before.
  function Resume(m: Mode): Mode { if m.MetaLine? then Default(true) else m }

  // How the mode moves on each kind of mark.
  lemma MarkedStep(m: Mode, c: char)
    requires Sane(m)
    ensures Sane(Next(m, c))
    ensures Mark(m, c).Keep? ==> Mark(m, c) == Keep(c) && !m.MetaLine? && !Next(m, c).MetaLine?
    ensures Mark(m, c).Cut? ==> Next(m, c) == Default(false) && Active(m)
    ensures Mark(m, c).Drop? ==> Resume(Next(m, c)) == Resume(m)
  {
  }

  /** The first chunk, read by itself, is kept whole; if a separator ends it, it ends outside quotes and comments. */
  lemma {:induction false} FirstChunkKept(s: string, m: Mode)
    requires Sane(m)
    ensures var chunks := Chunks(Lex(s, m));
            && Lex(chunks[0], Resume(m)) == Keeps(chunks[0])
            && (|chunks| > 1 ==> Active(End(chunks[0], Resume(m))))
  {
    hide Next, Mark;
    if s != "" {
      var c, m' := s[0], Next(m, s[0]);
      MarkedStep(m, c);
      FirstChunkKept(s[1..], m');
      var rest := Chunks(Lex(s[1..], m'));
      assert Lex(s, m)[1..] == Lex(s[1..], m');
      if Mark(m, c).Keep? {
        assert ([c] + rest[0])[1..] == rest[0];
      }
    }
  }

  lemma {:induction false} LaterChunkKept(s: string, m: Mode, j: nat)
    requires Sane(m) && 0 < j < |Chunks(Lex(s, m))|
    ensures var chunks := Chunks(Lex(s, m));
            && Lex(chunks[j], Default(false)) == Keeps(chunks[j])
            && (j < |chunks| - 1 ==> Active(End(chunks[j], Default(false))))
  {
    hide Next, Mark;
    assert s != "";
    var m' := Next(m, s[0]);
    MarkedStep(m, s[0]);
    var rest := Chunks(Lex(s[1..], m'));
    assert Lex(s, m)[1..] == Lex(s[1..], m');
    if Mark(m, s[0]).Cut? {
      if j == 1 {
        FirstChunkKept(s[1..], m');
      } else {
        LaterChunkKept(s[1..], m', j - 1);
      }
    } else {
      LaterChunkKept(s[1..], m', j);
    }
  }

  // ---------- Trimming a chunk ----------

  lemma {:induction false} BlanksKeepDefault(s: string, bol: bool)
    requires Blank(s)
    ensures Lex(s, Default(bol)) == Keeps(s) && End(s, Default(bol)).Default?
  {
    if s != "" { BlanksKeepDefault(s[1..], s[0] == '\n'); }
  }

  lemma BlankEndsNoTag(seen: string, c: char, tag: string)
    requires tag != "" && tag[|tag| - 1] == '$' && IsSpace(c)
    ensures !EndsWith(seen + [c], tag)
  {
    var t := seen + [c];
    if |tag| <= |t| {
      assert t[|t| - |tag|..][|tag| - 1] == c;
    }
  }

  // Blanks close no quote and no block comment.
  lemma {:induction false} BlanksDoNotSettle(s: string, m: Mode)
    requires Blank(s) && Sane(m) && Settled(End(s, m))
    ensures Settled(m)
  {
    if s != "" {
      if m.DollarQuote? { BlankEndsNoTag(m.seen, s[0], m.tag); }
      BlanksDoNotSettle(s[1..], Next(m, s[0]));
    }
  }

  lemma KeepsSplit(a: string, b: string, m: Mode)
    requires Lex(a + b, m) == Keeps(a + b)
    ensures Lex(a, m) == Keeps(a) && Lex(b, End(a, m)) == Keeps(b)
  {
    LexAppend(a, b, m);
    KeepsAppend(a, b);
    KeepsLength(a);
    LexKeepsSource(a, m);
    assert Lex(a + b, m)[..|a|] == Lex(a, m) && Keeps(a + b)[..|a|] == Keeps(a);
    assert Lex(a + b, m)[|a|..] == Lex(b, End(a, m)) && Keeps(a + b)[|a|..] == Keeps(b);
  }

  // Only a backslash tells the start of a line from the rest of it.
  lemma BolMattersForMetaOnly(s: string, bol: bool)
    requires !StartsMeta(s) && s != ""
    ensures Lex(s, Default(bol)) == Lex(s, Start) && End(s, Default(bol)) == End(s, Start)
  {
  }

  lemma TrimmedChunkKept(chunk: string, bol: bool)
    requires Lex(chunk, Default(bol)) == Keeps(chunk)
    requires Trim(chunk) != "" && !StartsMeta(Trim(chunk))
    ensures IsStatement(Trim(chunk))
    ensures Active(End(chunk, Default(bol))) ==> Settled(End(Trim(chunk), Start))
  {
    hide Lex, End, Keeps, Trim;
    var lead, tail := TrimSplits(chunk);
    var t := Trim(chunk);
    assert chunk == lead + (t + tail);
    KeepsSplit(lead, t + tail, Default(bol));
    BlanksKeepDefault(lead, bol);
    var m := End(lead, Default(bol));
    KeepsSplit(t, tail, m);
    BolMattersForMetaOnly(t, m.bol);
    LexAppend(lead, t + tail, Default(bol));
    LexAppend(t, tail, m);
    if Active(End(chunk, Default(bol))) {
      EndSane(t, m);
      BlanksDoNotSettle(tail, End(t, m));
    }
  }

  // ---------- Every emitted statement splits to itself ----------

  // What is known of the chunks of a dump: each holds one statement or none, and all but the last end settled.
  ghost predicate ChunkSound(chunk: string, last: bool) {
    var t := Trim(chunk);
    t != "" && !StartsMeta(t) ==> IsStatement(t) && (!last ==> Settled(End(t, Start)))
  }

  ghost predicate ChunksSound(chunks: seq<string>) {
    forall j :: 0 <= j < |chunks| ==> ChunkSound(chunks[j], j == |chunks| - 1)
  }

  lemma DumpChunksSound(sql: string)
    ensures ChunksSound(Chunks(Lex(sql, Start)))
  {
    var chunks := Chunks(Lex(sql, Start));
    forall j | 0 <= j < |chunks| && Trim(chunks[j]) != "" && !StartsMeta(Trim(chunks[j]))
      ensures ChunkSound(chunks[j], j == |chunks| - 1)
    {
      if j == 0 { FirstChunkKept(sql, Start); } else { LaterChunkKept(sql, Start, j); }
      TrimmedChunkKept(chunks[j], j == 0);
    }
  }

  lemma {:induction false} StatementsSound(chunks: seq<string>, j: nat)
    requires ChunksSound(chunks) && j < |Statements(chunks)|
    requires !StartsMeta(Statements(chunks)[j])
    ensures IsStatement(Statements(chunks)[j])
    ensures j < |Statements(chunks)| - 1 ==> Settled(End(Statements(chunks)[j], Start))
  {
    var rest := chunks[1..];
    assert ChunkSound(chunks[0], 0 == |chunks| - 1);
    if Trim(chunks[0]) != "" && j == 0 {
      assert |chunks| == 1 ==> Statements(rest) == [];
    } else {
      forall k | 0 <= k < |rest| ensures ChunkSound(rest[k], k == |rest| - 1) {
        assert ChunkSound(chunks[k + 1], k + 1 == |chunks| - 1);
      }
      StatementsSound(rest, if Trim(chunks[0]) == "" then j else j - 1);
    }
  }

  function TotalLength(texts: seq<string>): nat {
    if texts == [] then 0 else |texts[0]| + TotalLength(texts[1..])
  }

  function KeptCount(p: seq<Piece>): nat {
    if p == [] then 0 else (if p[0].Keep? then 1 else 0) + KeptCount(p[1..])
  }

  lemma {:induction false} ChunksHoldTheKept(p: seq<Piece>)
    ensures TotalLength(Chunks(p)) == KeptCount(p) <= |p|
    ensures KeptCount(p) == |p| ==> p == Keeps(Source(p))
  {
    if p != [] { ChunksHoldTheKept(p[1..]); }
  }

  lemma {:induction false} StatementsAreTrimmed(chunks: seq<string>)
    ensures TotalLength(Statements(chunks)) <= TotalLength(chunks)
    ensures forall j :: 0 <= j < |Statements(chunks)| ==> Statements(chunks)[j] != "" && Trimmed(Statements(chunks)[j])
  {
    if chunks != [] {
      StatementsAreTrimmed(chunks[1..]);
      var lead, tail := TrimSplits(chunks[0]);
      assert TotalLength([Trim(chunks[0])] + Statements(chunks[1..])) ==
             |Trim(chunks[0])| + TotalLength(Statements(chunks[1..])) by {
        assert ([Trim(chunks[0])] + Statements(chunks[1..]))[1..] == Statements(chunks[1..]);
      }
      if Trim(chunks[0]) == "" {
        assert Statement(chunks[0]) + Statements(chunks[1..]) == Statements(chunks[1..]);
      }
    }
  }

  /** A text that comes back as the one statement of itself was kept whole. */
  lemma WholeTextKept(s: string)
    requires Split(s) == [s]
    ensures IsStatement(s)
  {
    var p := Lex(s, Start);
    StatementsAreTrimmed(Chunks(p));
    assert Split(s)[0] == s;
    ChunksHoldTheKept(p);
    LexKeepsSource(s, Start);
    assert TotalLength([s]) == |s|;
  }

  lemma KeptIsOneChunk(s: string)
    ensures Chunks(Keeps(s)) == [s]
  {
    ChunksKeeps(s, []);
    AppendNothing(Keeps(s));
    AppendNothing(s);
  }

  /** A text is a statement exactly when it splits to itself alone; it then holds no separator and no meta-line. */
  lemma StatementSplitsToItself(s: string)
    ensures IsStatement(s) <==> Split(s) == [s]
  {
    if IsStatement(s) {
      KeptIsOneChunk(s);
      TrimPadded("", s, "");
      assert "" + s + "" == s;
      assert Statements([s]) == [s];
    }
    if Split(s) == [s] {
      WholeTextKept(s);
    }
  }

  // The start of a meta-line is dropped when the text is split by itself.
  lemma MetaIsNoStatement(s: string)
    requires StartsMeta(s)
    ensures Split(s) != [s]
  {
    assert Lex(s, Start)[0] == Drop('\\') && Keeps(s)[0] == Keep('\\');
    if Split(s) == [s] { WholeTextKept(s); }
  }

  /**
   * Splitting again changes nothing: a statement found splits to itself exactly if no backslash starts it, and all but
   * the last leave quotes and block comments closed.
   */
  lemma SplitIdempotent(sql: string, j: nat)
    requires j < |Split(sql)|
    ensures Split(Split(sql)[j]) == [Split(sql)[j]] <==> !StartsMeta(Split(sql)[j])
    ensures j < |Split(sql)| - 1 && !StartsMeta(Split(sql)[j]) ==> Settled(End(Split(sql)[j], Start))
  {
    if StartsMeta(Split(sql)[j]) {
      MetaIsNoStatement(Split(sql)[j]);
    } else {
      DumpChunksSound(sql);
      StatementsSound(Chunks(Lex(sql, Start)), j);
      StatementSplitsToItself(Split(sql)[j]);
    }
  }

  // ---------- Splitting undoes printing ----------

  /** The statements of a dump written one after the other, each followed by a line with a semicolon. */
  function Print(statements: seq<string>): string {
    if |statements| == 0 then ""
    else if |statements| == 1 then statements[0]
    else statements[0] + "\n;\n" + Print(statements[1..])
  }

  /** Each text splits to itself, and all but the last leave quotes and block comments closed. */
  ghost predicate Printable(statements: seq<string>) {
    forall j :: 0 <= j < |statements| ==>
      && Split(statements[j]) == [statements[j]]
      && (j < |statements| - 1 ==> Settled(End(statements[j], Start)))
  }

  lemma Unfold(c: char, s: string, m: Mode)
    ensures Lex([c] + s, m) == [Mark(m, c)] + Lex(s, Next(m, c))
  {
    assert ([c] + s)[1..] == s;
  }

  lemma SeparatorRead(m: Mode, rest: string)
    requires Settled(m) && !m.MetaLine?
    ensures Lex("\n;\n" + rest, m) == [Keep('\n'), Cut, Keep('\n')] + Lex(rest, Start)
  {
    assert Next(m, '\n') == Default(true);
    hide Lex, EndsWith;
    assert "\n;\n" + rest == ['\n'] + ([';'] + (['\n'] + rest));
    Unfold('\n', [';'] + (['\n'] + rest), m);
    Unfold(';', ['\n'] + rest, Default(true));
    Unfold('\n', rest, Default(false));
  }

  lemma {:induction false} StatementEndsOutsideMeta(s: string, m: Mode)
    requires Lex(s, m) == Keeps(s) && !m.MetaLine?
    ensures !End(s, m).MetaLine?
  {
    if s != "" {
      assert Lex(s, m)[0] == Mark(m, s[0]) && Lex(s, m)[1..] == Lex(s[1..], Next(m, s[0]));
      assert Keeps(s)[0] == Keep(s[0]) && Keeps(s)[1..] == Keeps(s[1..]);
      StatementEndsOutsideMeta(s[1..], Next(m, s[0]));
    }
  }

  lemma PrintStep(s: string, rest: string)
    requires IsStatement(s) && Settled(End(s, Start))
    ensures Split(s + "\n;\n" + rest) == [s] + Split(rest)
  {
    hide Lex, End, Next, Mark, Keeps;
    var more := Chunks(Lex(rest, Start));
    LexAppend(s, "\n;\n" + rest, Start);
    StatementEndsOutsideMeta(s, Start);
    SeparatorRead(End(s, Start), rest);
    assert s + "\n;\n" + rest == s + ("\n;\n" + rest);
    var p := [Keep('\n'), Cut, Keep('\n')] + Lex(rest, Start);
    ChunksKeeps(s, p);
    assert p[1..][1..][1..] == Lex(rest, Start);
    assert Chunks(p[1..]) == [""] + Glue("\n", more);
    assert Chunks(p) == ["\n"] + Glue("\n", more) by { assert "\n" + "" == "\n"; }
    var chunks := [s + "\n"] + Glue("\n", more);
    assert Glue(s, ["\n"] + Glue("\n", more)) == chunks;
    assert chunks[1..] == Glue("\n", more);
    TrimPadded("", s, "\n");
    assert "" + s + "\n" == s + "\n";
    LeadingNewline(more);
  }

  lemma LeadingNewline(chunks: seq<string>)
    requires |chunks| > 0
    ensures Statements(Glue("\n", chunks)) == Statements(chunks)
  {
    var s := "\n" + chunks[0];
    assert s[1..] == chunks[0];
    assert Trim(s) == Trim(chunks[0]);
    hide Trim;
    assert ([s] + chunks[1..])[1..] == chunks[1..];
  }

  lemma {:induction false} PrintableSplitsBack(statements: seq<string>)
    requires Printable(statements)
    ensures Split(Print(statements)) == statements
  {
    if |statements| == 0 {
      assert Statements([""]) == [];
    } else if |statements| > 1 {
      var rest := statements[1..];
      StatementSplitsToItself(statements[0]);
      PrintStep(statements[0], Print(rest));
      PrintableSplitsBack(rest);
      assert [statements[0]] + rest == statements;
    }
  }

  // ---------- Only printable lists come back ----------

  // The characters of a text that are no white space.
  function Solids(s: string): nat {
    if s == "" then 0 else (if IsSpace(s[0]) then 0 else 1) + Solids(s[1..])
  }

  function AllSolids(texts: seq<string>): nat {
    if texts == [] then 0 else Solids(texts[0]) + AllSolids(texts[1..])
  }

  // What is not kept: separators, and what is solid of meta-lines.
  function Losses(p: seq<Piece>): nat {
    if p == [] then 0 else (if p[0].Cut? || (p[0].Drop? && !IsSpace(p[0].c)) then 1 else 0) + Losses(p[1..])
  }

  lemma {:induction false} SolidsAppend(a: string, b: string)
    ensures Solids(a + b) == Solids(a) + Solids(b)
  {
    if a == "" {
      AppendNothing(b);
    } else {
      AppendTail(a, b);
      SolidsAppend(a[1..], b);
    }
  }

  lemma {:induction false} BlankSolids(s: string)
    requires Blank(s)
    ensures Solids(s) == 0
  {
    if s != "" { BlankSolids(s[1..]); }
  }

  lemma TrimSolids(s: string)
    ensures Solids(Trim(s)) == Solids(s)
  {
    var lead, tail := TrimSplits(s);
    hide Trim;
    SolidsAppend(lead + Trim(s), tail);
    SolidsAppend(lead, Trim(s));
    BlankSolids(lead);
    BlankSolids(tail);
  }

  lemma {:induction false} StatementsHoldTheSolids(chunks: seq<string>)
    ensures AllSolids(Statements(chunks)) == AllSolids(chunks) && |Statements(chunks)| <= |chunks|
    ensures chunks != [] && |Statements(chunks)| == |chunks| ==> Statements(chunks)[0] == Trim(chunks[0])
  {
    hide Trim;
    if chunks != [] {
      StatementsHoldTheSolids(chunks[1..]);
      TrimSolids(chunks[0]);
      if Trim(chunks[0]) == "" {
        AppendNothing(Statements(chunks[1..]));
      } else {
        ConsTail(Trim(chunks[0]), Statements(chunks[1..]));
      }
    }
  }

  lemma {:induction false} SolidsKeptOrLost(p: seq<Piece>)
    ensures Solids(Source(p)) == AllSolids(Chunks(p)) + Losses(p) && Losses(p) >= |Chunks(p)| - 1
  {
    if p != [] {
      var more := Chunks(p[1..]);
      SolidsKeptOrLost(p[1..]);
      ConsTail(if p[0].Cut? then ';' else p[0].c, Source(p[1..]));
      match p[0]
      case Keep(c) =>
        SolidsAppend([c], more[0]);
        assert Glue([c], more)[1..] == more[1..];
      case Cut =>
        ConsTail("", more);
      case Drop(_) =>
    }
  }

  // A scan that loses separators only begins with its first chunk.
  lemma {:induction false} FirstCut(s: string, m: Mode)
    requires !m.MetaLine? && |Chunks(Lex(s, m))| > 1 && Losses(Lex(s, m)) == |Chunks(Lex(s, m))| - 1
    ensures var chunk := Chunks(Lex(s, m))[0];
            |chunk| < |s| && s[..|chunk|] == chunk && s[|chunk|] == ';'
  {
    var c, p := s[0], Lex(s[1..], Next(m, s[0]));
    var more := Chunks(p);
    assert Lex(s, m) == [Mark(m, c)] + p;
    ConsTail(Mark(m, c), p);
    SolidsKeptOrLost(p);
    NextOutsideMeta(m, c);
    hide Next, Mark, Lex;
    match Mark(m, c)
    case Keep(_) =>
      assert Glue([c], more)[1..] == more[1..];
      FirstCut(s[1..], Next(m, c));
      assert s[..1 + |more[0]|] == [c] + s[1..][..|more[0]|];
    case Cut =>
      ConsTail("", more);
    case Drop(_) =>
  }

  lemma NextOutsideMeta(m: Mode, c: char)
    requires !m.MetaLine?
    ensures Mark(m, c) == Keep(c) ==> !Next(m, c).MetaLine?
    ensures match Mark(m, c) case Keep(c') => c' == c case Cut => c == ';' case Drop(c') => !IsSpace(c')
  {
  }

  lemma {:induction false} PrintSolids(statements: seq<string>)
    requires statements != []
    ensures Solids(Print(statements)) == AllSolids(statements) + |statements| - 1
  {
    if |statements| > 1 {
      var rest := statements[1..];
      PrintSolids(rest);
      SolidsAppend(statements[0] + "\n;\n", Print(rest));
      SolidsAppend(statements[0], "\n;\n");
      assert Solids("\n;\n") == 1 by { assert "\n;\n"[1..] == ";\n" && ";\n"[1..] == "\n"; }
    }
  }

  // A printed list that comes back loses separators only, and each of its chunks is a statement.
  lemma PrintedChunks(statements: seq<string>)
    requires |statements| > 1 && Split(Print(statements)) == statements
    ensures var p := Lex(Print(statements), Start);
            var chunks := Chunks(p);
            |chunks| > 1 && Losses(p) == |chunks| - 1 && Trim(chunks[0]) == statements[0]
    ensures statements[0] != "" && Trimmed(statements[0])
  {
    var p := Lex(Print(statements), Start);
    LexKeepsSource(Print(statements), Start);
    PrintSolids(statements);
    SolidsKeptOrLost(p);
    StatementsHoldTheSolids(Chunks(p));
    StatementsAreTrimmed(Chunks(p));
    hide Lex, Chunks, Losses, Statements, Print, Trimmed, Solids, AllSolids;
    assert Split(Print(statements))[0] == statements[0];
  }

  // So the first chunk ends where the first semicolon was printed.
  lemma FirstChunkPrinted(statements: seq<string>)
    requires |statements| > 1 && Split(Print(statements)) == statements
    ensures var chunks := Chunks(Lex(Print(statements), Start));
            |chunks| > 1 && chunks[0] == statements[0] + "\n" && Trim(chunks[0]) == statements[0]
    ensures statements[0] != "" && Trimmed(statements[0])
  {
    var s := Print(statements);
    PrintedChunks(statements);
    FirstCut(s, Start);
    var chunk := Chunks(Lex(s, Start))[0];
    var lead, tail := TrimSplits(chunk);
    assert s == statements[0] + ("\n;\n" + Print(statements[1..]));
    hide *;
    CutAtNewline(lead, statements[0], tail, s, Print(statements[1..]));
  }

  lemma CutAtNewline(lead: string, t: string, tail: string, s: string, rest: string)
    requires Blank(lead) && Blank(tail) && t != "" && Trimmed(t) && s == t + ("\n;\n" + rest)
    requires var chunk := lead + t + tail;
             |chunk| < |s| && s[..|chunk|] == chunk && s[|chunk|] == ';'
    ensures lead + t + tail == t + "\n"
  {
    Aligned(lead, t, tail, s);
    assert s[0] == t[0] && s[|t|] == '\n' && s[|t| + 1] == ';';
    assert lead == "" && lead + t + tail == t + tail;
    assert s[|t|..][..|tail|] == tail;
    assert |tail| == 1;
  }

  lemma Aligned(lead: string, t: string, tail: string, s: string)
    requires var chunk := lead + t + tail;
             |chunk| < |s| && s[..|chunk|] == chunk
    ensures s[..|lead|] == lead && s[|lead| + |t|..][..|tail|] == tail
  {
    assert s == (lead + t + tail) + s[|lead + t + tail|..];
  }

  lemma FirstPrintable(statements: seq<string>)
    requires |statements| > 1 && Split(Print(statements)) == statements
    ensures IsStatement(statements[0]) && Settled(End(statements[0], Start))
  {
    FirstChunkPrinted(statements);
    FirstChunkKept(Print(statements), Start);
    var chunk := Chunks(Lex(Print(statements), Start))[0];
    assert Lex(chunk, Start)[0] == Mark(Start, chunk[0]) && Keeps(chunk)[0] == Keep(chunk[0]);
    TrimmedChunkKept(chunk, true);
  }

  lemma {:induction false} OnlyPrintableComesBack(statements: seq<string>)
    requires Split(Print(statements)) == statements
    ensures Printable(statements)
  {
    if |statements| > 1 {
      var first, rest := statements[0], statements[1..];
      FirstPrintable(statements);
      PrintStep(first, Print(rest));
      ConsTail(first, Split(Print(rest)));
      StatementSplitsToItself(first);
      OnlyPrintableComesBack(rest);
      hide Split;
      assert forall j :: 0 < j < |statements| ==> statements[j] == rest[j - 1];
    }
  }

  /**
   * Splitting undoes printing for exactly the printable lists. A backslash at the start of a statement is one reason
   * for a list not to be: statements are printed at the start of a line, where it starts a meta-line.
   */
  lemma SplitUndoesPrint(statements: seq<string>)
    ensures Split(Print(statements)) == statements <==> Printable(statements)
  {
    if Printable(statements) { PrintableSplitsBack(statements); }
    if Split(Print(statements)) == statements { OnlyPrintableComesBack(statements); }
  }

  ghost predicate NoneStartsMeta(statements: seq<string>) {
    forall j :: 0 <= j < |statements| ==> !StartsMeta(statements[j])
  }

  /** What the splitter returns for a dump can be printed and split again exactly if no backslash starts any of it. */
  lemma PrintOfSplitSplitsBack(sql: string)
    ensures Split(Print(Split(sql))) == Split(sql) <==> NoneStartsMeta(Split(sql))
  {
    var statements := Split(sql);
    SplitUndoesPrint(statements);
    hide Split, StartsMeta;
    forall j | 0 <= j < |statements|
      ensures Split(statements[j]) == [statements[j]] <==> !StartsMeta(statements[j])
      ensures j < |statements| - 1 && !StartsMeta(statements[j]) ==> Settled(End(statements[j], Start))
    {
      SplitIdempotent(sql, j);
    }
  }

  /** There are dumps with such a statement, which then is lost: a backslash that does not begin its line starts it. */
  lemma BackslashStatement()
    ensures Split(" \\a") == ["\\a"] && Split(Print(Split(" \\a"))) == []
  {
    BackslashKept();
    BackslashDropped();
    assert Print(["\\a"]) == "\\a";
    hide Split, Print;
  }

  lemma BackslashKept()
    ensures Split(" \\a") == ["\\a"]
  {
    var sql := " \\a";
    BackslashRead();
    KeptIsOneChunk(sql);
    TrimPadded(" ", "\\a", "");
    assert " " + "\\a" + "" == sql;
    hide Lex, Keeps, Chunks, Trim;
    assert Statements([sql]) == ["\\a"];
  }

  lemma BackslashRead()
    ensures Lex(" \\a", Start) == Keeps(" \\a")
  {
    assert " \\a"[1..] == "\\a" && "\\a"[1..] == "a";
    assert Lex(" \\a", Start) == [Keep(' '), Keep('\\'), Keep('a')];
  }

  lemma BackslashDropped()
    ensures Split("\\a") == []
  {
    assert "\\a"[1..] == "a";
    var p := Lex("\\a", Start);
    assert p == [Drop('\\'), Drop('a')] && p[1..] == [Drop('a')] && p[1..][1..] == [];
    hide Lex;
    assert Chunks([]) == [""];
    assert Chunks(p[1..]) == [""];
    assert Chunks(p) == [""];
    assert Statements([""]) == [];
  }
}
