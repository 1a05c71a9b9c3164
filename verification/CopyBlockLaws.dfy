/** Cutting COPY blocks out of a dump: what becomes of every line, and when it commutes with splitting. */
module CopyBlockLaws {
  import opened Text
  import opened Seqs
  import opened SqlLexer
  import opened CopyBlocks
  import SplitterLaws

  // ---------- Every line is used once ----------

  function BlockLines(b: Block): seq<string> {
    match b
    case SqlLines(lines) => lines
    case CopyLines(header, rows, closed) => [header] + rows + if closed then [TERMINATOR] else []
  }

  function AllLines(blocks: seq<Block>): seq<string> {
    if blocks == [] then [] else BlockLines(blocks[0]) + AllLines(blocks[1..])
  }

  // A block as the tagged splitter cuts it; only the last block may be an unterminated COPY block.
  ghost predicate WellCutBlock(b: Block, last: bool) {
    match b
    case SqlLines(lines) => lines != [] && forall k :: 0 <= k < |lines| ==> !IsCopyHeader(lines[k])
    case CopyLines(header, rows, closed) => IsCopyHeader(header) && TERMINATOR !in rows && (closed || last)
  }

  /** Blocks of the right kinds, no two blocks of SQL lines next to each other. */
  ghost predicate WellCut(blocks: seq<Block>) {
    && (forall j :: 0 <= j < |blocks| ==> WellCutBlock(blocks[j], j == |blocks| - 1))
    && (forall j :: 0 <= j < |blocks| - 1 ==> !(blocks[j].SqlLines? && blocks[j + 1].SqlLines?))
  }

  lemma {:induction false} WellCutTail(blocks: seq<Block>)
    requires WellCut(blocks) && blocks != []
    ensures WellCut(blocks[1..])
  {
    forall j | 0 <= j < |blocks[1..]| ensures WellCutBlock(blocks[1..][j], j == |blocks[1..]| - 1) {
      assert WellCutBlock(blocks[j + 1], j + 1 == |blocks| - 1);
    }
  }

  lemma WellCutCons(b: Block, blocks: seq<Block>)
    requires WellCut(blocks) && WellCutBlock(b, blocks == [])
    requires b.SqlLines? && blocks != [] ==> !blocks[0].SqlLines?
    ensures WellCut([b] + blocks)
  {
    var all := [b] + blocks;
    forall j | 0 <= j < |all| ensures WellCutBlock(all[j], j == |all| - 1) {
      if j > 0 { assert WellCutBlock(blocks[j - 1], j - 1 == |blocks| - 1); }
    }
  }

  /** The blocks use every line of the dump once, in order, as SQL, header, row or terminator. */
  lemma {:induction false} LinesUsedOnce(lines: seq<string>)
    ensures WellCut(Blocks(lines)) && AllLines(Blocks(lines)) == lines
    ensures lines != [] ==> Blocks(lines) != [] && Blocks(lines)[0].CopyLines? == IsCopyHeader(lines[0])
    decreases |lines|
  {
    hide IsCopyHeader, WellCut, WellCutBlock;
    if lines == [] {
      assert WellCut(Blocks(lines)) by { NoBlocksWellCut(); }
    } else if IsCopyHeader(lines[0]) {
      var data := lines[1..];
      var n := RowRun(data);
      var rest := data[PastRows(data)..];
      LinesUsedOnce(rest);
      CopyCutWell(lines[0], data);
      WellCutCons(CopyLines(lines[0], data[..n], n < |data|), Blocks(rest));
      CopyLinesRebuilt(lines[0], data);
      hide RowRun, PastRows, BlockLines;
      assert lines == [lines[0]] + data;
    } else {
      var n := SqlRun(lines);
      LinesUsedOnce(lines[n..]);
      SqlCutWell(lines);
      hide SqlRun;
      WellCutCons(SqlLines(lines[..n]), Blocks(lines[n..]));
      assert lines == lines[..n] + lines[n..];
    }
  }

  lemma CopyLinesRebuilt(header: string, data: seq<string>)
    ensures var n := RowRun(data);
            BlockLines(CopyLines(header, data[..n], n < |data|)) + data[PastRows(data)..] == [header] + data
  {
    hide *;
    var n := RowRun(data);
    PastRowsIs(data);
    if n < |data| {
      ClosedRebuilt(header, data, n);
    } else {
      OpenRebuilt(header, data);
      assert data[..n] == data && data[n..] == [];
    }
  }

  lemma PastRowsIs(data: seq<string>)
    ensures var n := RowRun(data);
            && (n < |data| ==> data[n] == TERMINATOR && PastRows(data) == n + 1)
            && (n == |data| ==> PastRows(data) == n)
  {
  }

  lemma ClosedRebuilt(header: string, data: seq<string>, n: nat)
    requires n < |data| && data[n] == TERMINATOR
    ensures BlockLines(CopyLines(header, data[..n], true)) + data[n + 1..] == [header] + data
  {
    var all := [header] + data;
    assert BlockLines(CopyLines(header, data[..n], true)) == all[..n + 2];
    assert all[n + 2..] == data[n + 1..];
  }

  lemma OpenRebuilt(header: string, data: seq<string>)
    ensures BlockLines(CopyLines(header, data, false)) + [] == [header] + data
  {
    AppendNothing([header] + data);
  }

  lemma NoBlocksWellCut()
    ensures WellCut([])
  {
  }

  lemma CopyCutWell(header: string, data: seq<string>)
    requires IsCopyHeader(header)
    ensures WellCutBlock(CopyLines(header, data[..RowRun(data)], RowRun(data) < |data|),
                         Blocks(data[PastRows(data)..]) == [])
  {
    hide IsCopyHeader;
    var n := RowRun(data);
    assert TERMINATOR !in data[..n];
  }

  lemma SqlCutWell(lines: seq<string>)
    requires lines != [] && !IsCopyHeader(lines[0])
    ensures WellCutBlock(SqlLines(lines[..SqlRun(lines)]), Blocks(lines[SqlRun(lines)..]) == [])
    ensures SqlRun(lines) < |lines| ==> IsCopyHeader(lines[SqlRun(lines)..][0])
  {
    hide IsCopyHeader;
  }

  lemma {:induction false} SqlRunOver(a: seq<string>, rest: seq<string>)
    requires forall k :: 0 <= k < |a| ==> !IsCopyHeader(a[k])
    requires rest != [] ==> IsCopyHeader(rest[0])
    ensures SqlRun(a + rest) == |a|
  {
    hide IsCopyHeader;
    if a == [] {
      assert a + rest == rest;
    } else {
      assert (a + rest)[1..] == a[1..] + rest;
      SqlRunOver(a[1..], rest);
    }
  }

  lemma {:induction false} RowRunOver(rows: seq<string>, rest: seq<string>)
    requires TERMINATOR !in rows && (rest != [] ==> rest[0] == TERMINATOR)
    ensures RowRun(rows + rest) == |rows|
  {
    if rows == [] {
      assert rows + rest == rest;
    } else {
      assert (rows + rest)[1..] == rows[1..] + rest;
      RowRunOver(rows[1..], rest);
    }
  }

  lemma BlocksOfSql(sql: seq<string>, rest: seq<string>)
    requires sql != [] && forall k :: 0 <= k < |sql| ==> !IsCopyHeader(sql[k])
    requires rest != [] ==> IsCopyHeader(rest[0])
    ensures Blocks(sql + rest) == [SqlLines(sql)] + Blocks(rest)
  {
    hide IsCopyHeader;
    var lines := sql + rest;
    SqlRunOver(sql, rest);
    assert lines[0] == sql[0] && lines[..|sql|] == sql && lines[|sql|..] == rest;
  }

  lemma BlocksOfCopy(b: Block, rest: seq<string>)
    requires b.CopyLines? && IsCopyHeader(b.header) && TERMINATOR !in b.rows && (b.closed || rest == [])
    ensures Blocks(BlockLines(b) + rest) == [b] + Blocks(rest)
  {
    hide IsCopyHeader;
    var lines := BlockLines(b) + rest;
    var tail := (if b.closed then [TERMINATOR] else []) + rest;
    assert lines[1..] == b.rows + tail;
    RowRunOver(b.rows, tail);
    assert lines[1..][..|b.rows|] == b.rows;
    assert lines[1..][PastRows(lines[1..])..] == rest;
  }

  /** There is only one way to cut a dump into such blocks, and it is the one the splitter takes. */
  lemma {:induction false} CutIsUnique(blocks: seq<Block>)
    requires WellCut(blocks)
    ensures blocks == Blocks(AllLines(blocks))
  {
    hide IsCopyHeader, Blocks;
    if blocks == [] {
      NoLinesNoBlocks();
    } else {
      WellCutTail(blocks);
      CutIsUnique(blocks[1..]);
      var rest := AllLines(blocks[1..]);
      assert WellCutBlock(blocks[0], 0 == |blocks| - 1);
      if blocks[0].SqlLines? {
        if |blocks| > 1 {
          assert WellCutBlock(blocks[1], 1 == |blocks| - 1);
          assert rest[0] == BlockLines(blocks[1])[0];
        }
        BlocksOfSql(blocks[0].lines, rest);
      } else {
        BlocksOfCopy(blocks[0], rest);
      }
      assert blocks == [blocks[0]] + blocks[1..];
    }
  }

  lemma NoLinesNoBlocks()
    ensures Blocks([]) == []
  {
  }

  // ---------- The tokens ----------

  function SqlTexts(tokens: seq<Token>): seq<string> {
    if tokens == [] then []
    else (if tokens[0].Sql? then [tokens[0].text] else []) + SqlTexts(tokens[1..])
  }

  function CopyTokens(tokens: seq<Token>): seq<Token> {
    if tokens == [] then []
    else (if tokens[0].Copy? then [tokens[0]] else []) + CopyTokens(tokens[1..])
  }

  // The SQL blocks, each as the text that is split by itself.
  function Buffers(blocks: seq<Block>): seq<string> {
    if blocks == [] then []
    else (if blocks[0].SqlLines? then [Join(blocks[0].lines)] else []) + Buffers(blocks[1..])
  }

  // The lines of the dump with the COPY blocks left out.
  function SqlOnly(blocks: seq<Block>): seq<string> {
    if blocks == [] then []
    else (if blocks[0].SqlLines? then blocks[0].lines else []) + SqlOnly(blocks[1..])
  }

  // One token for each COPY block, its data lines verbatim and in order.
  function CopyBlockTokens(blocks: seq<Block>): seq<Token> {
    if blocks == [] then []
    else (match blocks[0]
          case SqlLines(_) => []
          case CopyLines(header, rows, _) => [Copy(Header(header), rows)]) + CopyBlockTokens(blocks[1..])
  }

  function SplitEach(texts: seq<string>): seq<string> {
    if texts == [] then [] else Split(texts[0]) + SplitEach(texts[1..])
  }

  lemma {:induction false} TokensApart(a: seq<string>, tokens: seq<Token>)
    ensures SqlTexts(SqlTokens(a) + tokens) == a + SqlTexts(tokens)
    ensures CopyTokens(SqlTokens(a) + tokens) == CopyTokens(tokens)
  {
    if a == [] {
      AppendNothing(tokens);
      AppendNothing(SqlTexts(tokens));
    } else {
      var rest := SqlTokens(a[1..]) + tokens;
      Associative([Sql(a[0])], SqlTokens(a[1..]), tokens);
      ConsTail(Sql(a[0]), rest);
      TokensApart(a[1..], tokens);
      Uncons(a);
      Associative([a[0]], a[1..], SqlTexts(tokens));
      AppendNothing(CopyTokens(rest));
    }
  }

  /** The tokens are the statements of each SQL block and the data of each COPY block, nothing more. */
  lemma {:induction false} TokensOfBlocks(blocks: seq<Block>)
    ensures SqlTexts(Tokens(blocks)) == SplitEach(Buffers(blocks))
    ensures CopyTokens(Tokens(blocks)) == CopyBlockTokens(blocks)
  {
    hide Split, Join, Header;
    if blocks != [] {
      TokensOfBlocks(blocks[1..]);
      var rest := Tokens(blocks[1..]);
      match blocks[0]
      case SqlLines(lines) =>
        TokensApart(Split(Join(lines)), rest);
        assert ([Join(lines)] + Buffers(blocks[1..]))[1..] == Buffers(blocks[1..]);
      case CopyLines(header, rows, _) =>
        assert ([Copy(Header(header), rows)] + rest)[1..] == rest;
        assert [] + SqlTexts(rest) == SqlTexts(rest) && [] + Buffers(blocks[1..]) == Buffers(blocks[1..]);
    }
  }

  lemma {:induction false} BuffersJoin(blocks: seq<Block>)
    requires WellCut(blocks)
    ensures Join(Buffers(blocks)) == Join(SqlOnly(blocks))
    ensures Buffers(blocks) == [] <==> SqlOnly(blocks) == []
  {
    hide IsCopyHeader;
    if blocks != [] {
      WellCutTail(blocks);
      BuffersJoin(blocks[1..]);
      assert WellCutBlock(blocks[0], 0 == |blocks| - 1);
      if blocks[0].SqlLines? {
        var lines, rest := blocks[0].lines, SqlOnly(blocks[1..]);
        if rest != [] {
          JoinAppend(lines, rest);
          assert ([Join(lines)] + Buffers(blocks[1..]))[1..] == Buffers(blocks[1..]);
        } else {
          assert lines + rest == lines;
        }
      } else {
        assert [] + Buffers(blocks[1..]) == Buffers(blocks[1..]);
        assert [] + SqlOnly(blocks[1..]) == SqlOnly(blocks[1..]);
      }
    }
  }

  // ---------- Where two texts meet ----------

  ghost predicate PendingBlank(text: string) { Blank(Last(Chunks(Lex(text, Start)))) }

  ghost predicate OpensBlank(text: string) { Blank(Chunks(Lex(text, Start))[0]) }

  /**
   * A cut between two texts is clear if no statement is pending before it or none begins right after it; a quote or
   * block comment that is open there takes in all that follows, so that nothing may follow but blanks.
   */
  ghost predicate ClearCut(text: string, rest: string) {
    if Settled(End(text, Start)) then PendingBlank(text) || OpensBlank(rest) else Blank(rest)
  }

  ghost predicate ClearCuts(texts: seq<string>) {
    |texts| <= 1 || (ClearCut(texts[0], Join(texts[1..])) && ClearCuts(texts[1..]))
  }

  lemma {:induction false} StatementsSplitUp(chunks: seq<string>)
    requires |chunks| > 0
    ensures Statements(chunks) == Statements(Front(chunks)) + Statement(Last(chunks))
  {
    StatementsAppend(Front(chunks), [Last(chunks)]);
    assert chunks == Front(chunks) + [Last(chunks)];
    assert Statements([Last(chunks)]) == Statement(Last(chunks));
  }

  // What both parts hold of a statement makes a longer one than the first part alone.
  lemma ChunkMeets(a: string, b: string)
    ensures Blank(a) || Blank(b) ==> Statement(a + b) == Statement(a) + Statement(b)
    ensures !Blank(a) && !Blank(b) ==> |Trim(a + b)| > |Trim(a)| > 0
  {
    TrimBlank(a);
    TrimBlank(b);
    hide Trim;
    var lead, tail := TrimSplits(a);
    var lead', tail' := TrimSplits(b);
    if Blank(a) {
      assert a + b == (a + lead') + Trim(b) + tail';
      TrimPadded(a + lead', Trim(b), tail');
    } else if Blank(b) {
      assert a + b == lead + Trim(a) + (tail + b);
      TrimPadded(lead, Trim(a), tail + b);
    } else {
      var all := Trim(a) + (tail + lead') + Trim(b);
      assert a + b == lead + all + tail';
      assert all[0] == Trim(a)[0] && all[|all| - 1] == Trim(b)[|Trim(b)| - 1];
      TrimPadded(lead, all, tail');
    }
  }

  lemma BlankAfter(a: string, blank: string)
    requires Blank(blank)
    ensures Statement(a + blank) == Statement(a) && Trim(a + blank) == Trim(a)
    ensures Blank(a + blank) <==> Blank(a)
  {
    ChunkMeets(a, blank);
    BlankStatement(blank);
    TrimBlank(a);
    TrimBlank(a + blank);
    hide Trim, Blank;
  }

  lemma BlankStatement(s: string)
    requires Blank(s)
    ensures Statement(s) == []
  {
    TrimBlank(s);
  }

  lemma ChunksAcrossJoin(text: string, rest: string) returns (newline: string)
    requires Settled(End(text, Start))
    ensures newline == "" || newline == "\n"
    ensures var a, b := Chunks(Lex(text, Start)), Chunks(Lex(rest, Start));
            Chunks(Lex(text + "\n" + rest, Start)) == Front(a) + Glue(Last(a) + newline, b)
  {
    var a, b := Chunks(Lex(text, Start)), Chunks(Lex(rest, Start));
    var m := End(text, Start);
    newline := if m.MetaLine? then "" else "\n";
    assert Next(m, '\n') == Start && Mark(m, '\n') == if m.MetaLine? then Drop('\n') else Keep('\n');
    hide Lex, End, Next, Mark;
    assert text + "\n" + rest == text + (['\n'] + rest);
    LexAppend(text, ['\n'] + rest, Start);
    SplitterLaws.Unfold('\n', rest, m);
    var p := [Mark(m, '\n')] + Lex(rest, Start);
    ChunksAppend(Lex(text, Start), p);
    assert p[1..] == Lex(rest, Start);
    GlueNothing(b);
    assert Chunks(p) == Glue(newline, b);
    hide Chunks;
    GlueTwice(Last(a), newline, b);
  }

  // A statement that runs on past the end of the first part is another than the one found there.
  lemma RunsOn(front: seq<string>, last: string, first: string, more: seq<string>)
    requires !Blank(last) && !Blank(first)
    ensures !(Statements(front) + Statement(last) <= Statements(front) + Statement(last + first) + more)
  {
    ChunkMeets(last, first);
    hide Trim, Blank;
    var k, all := |Statements(front)|, Statements(front) + Statement(last + first) + more;
    assert all[k] == Trim(last + first) && (Statements(front) + Statement(last))[k] == Trim(last);
  }

  // ---------- A quote or block comment that is open at a cut ----------

  // What opens or keeps open a quote or block comment is in the last chunk.
  lemma {:induction false} OpenChunk(s: string, m: Mode)
    requires !Settled(End(s, m))
    ensures var chunks := Chunks(Lex(s, m)); !Blank(Last(chunks)) || (!Settled(m) && |chunks| == 1)
  {
    if s == "" {
      assert Chunks([]) == [""];
    } else {
      var c, m' := s[0], Next(m, s[0]);
      OpenChunk(s[1..], m');
      assert Lex(s, m)[0] == Mark(m, c) && Lex(s, m)[1..] == Lex(s[1..], m');
      OpeningMark(m, c);
      hide Lex, Next, Mark, End;
      var rest := Chunks(Lex(s[1..], m'));
      if Mark(m, c).Keep? { KeptInFront(Mark(m, c).c, rest); }
    }
  }

  // An opening character is kept and not blank; inside, every character is kept.
  lemma OpeningMark(m: Mode, c: char)
    ensures Settled(m) && !Settled(Next(m, c)) ==> Mark(m, c) == Keep(c) && !IsSpace(c)
    ensures !Settled(m) ==> Mark(m, c) == Keep(c)
  {
  }

  lemma KeptInFront(c: char, chunks: seq<string>)
    requires |chunks| > 0
    ensures var glued := Glue([c], chunks);
            && |glued| == |chunks|
            && (!Blank(Last(chunks)) ==> !Blank(Last(glued)))
            && (!IsSpace(c) && |chunks| == 1 ==> !Blank(Last(glued)))
  {
    var glued := Glue([c], chunks);
    if |chunks| == 1 {
      assert glued[0] == [c] + chunks[0] && glued[0][0] == c;
      assert forall i :: 0 <= i < |chunks[0]| ==> glued[0][i + 1] == chunks[0][i];
    }
  }

  // Closing a quote or block comment takes a character that is not blank.
  lemma ClosingMark(m: Mode, c: char)
    requires SplitterLaws.Sane(m) && !Settled(m) && Settled(Next(m, c))
    ensures !IsSpace(c)
  {
    if m.DollarQuote? {
      if IsSpace(c) { SplitterLaws.BlankEndsNoTag(m.seen, c, m.tag); }
    }
  }

  // Inside a quote or block comment, the text up to its end belongs to the first chunk.
  lemma {:induction false} Swallowed(s: string, m: Mode)
    requires SplitterLaws.Sane(m) && !Settled(m)
    ensures Blank(Chunks(Lex(s, m))[0]) <==> Blank(s)
    ensures Blank(s) ==> Chunks(Lex(s, m)) == [s]
  {
    if s != "" {
      var c, m' := s[0], Next(m, s[0]);
      OpeningMark(m, c);
      assert Lex(s, m)[0] == Keep(c) && Lex(s, m)[1..] == Lex(s[1..], m');
      var rest := Chunks(Lex(s[1..], m'));
      var chunks := Glue([c], rest);
      assert chunks[0][0] == c && forall i :: 0 <= i < |rest[0]| ==> chunks[0][i + 1] == rest[0][i];
      SplitterLaws.MarkedStep(m, c);
      if Settled(m') {
        ClosingMark(m, c);
      } else {
        Swallowed(s[1..], m');
        assert Blank(s) <==> !(!IsSpace(c)) && Blank(s[1..]);
        assert Blank(chunks[0]) <==> !(!IsSpace(c)) && Blank(rest[0]);
        Uncons(s);
      }
    }
  }

  lemma FirstOfGlue(t: string, chunks: seq<string>)
    requires |chunks| > 0
    ensures Statements(Glue(t, chunks)) == Statement(t + chunks[0]) + Statements(chunks[1..])
  {
    assert Glue(t, chunks)[1..] == chunks[1..];
  }

  // ---------- Clear cuts ----------

  // The chunks of two texts, joined by a newline, when a quote or block comment is open between them.
  lemma ChunksAcrossQuote(text: string, rest: string)
    requires !Settled(End(text, Start))
    ensures var m := End(text, Start);
            var a, b := Chunks(Lex(text, Start)), Chunks(Lex("\n" + rest, m));
            Chunks(Lex(text + "\n" + rest, Start)) == Front(a) + Glue(Last(a), b)
  {
    hide Lex, End, Chunks;
    Associative(text, "\n", rest);
    LexAppend(text, "\n" + rest, Start);
    ChunksAppend(Lex(text, Start), Lex("\n" + rest, End(text, Start)));
  }

  lemma SplitAcrossQuote(text: string, rest: string)
    requires !Settled(End(text, Start))
    ensures Blank(rest) ==> Split(text + "\n" + rest) == Split(text)
    ensures !Blank(rest) ==> !(Split(text) <= Split(text + "\n" + rest))
  {
    var m := End(text, Start);
    var a, b := Chunks(Lex(text, Start)), Chunks(Lex("\n" + rest, m));
    assert forall i :: 0 <= i < |rest| ==> ("\n" + rest)[i + 1] == rest[i];
    assert Blank("\n" + rest) <==> Blank(rest);
    SplitterLaws.EndSane(text, Start);
    OpenChunk(text, Start);
    Swallowed("\n" + rest, m);
    ChunksAcrossQuote(text, rest);
    hide Lex, End, Chunks, Statement, Blank;
    StatementsAppend(Front(a), Glue(Last(a), b));
    StatementsSplitUp(a);
    FirstOfGlue(Last(a), b);
    if Blank(rest) {
      BlankAfter(Last(a), b[0]);
      assert Statements(b[1..]) == [];
    } else {
      RunsOn(Front(a), Last(a), b[0], Statements(b[1..]));
      Associative(Statements(Front(a)), Statement(Last(a) + b[0]), Statements(b[1..]));
    }
  }

  lemma SplitAcrossSettled(text: string, rest: string)
    requires Settled(End(text, Start))
    ensures PendingBlank(text) || OpensBlank(rest) ==> Split(text + "\n" + rest) == Split(text) + Split(rest)
    ensures !PendingBlank(text) && !OpensBlank(rest) ==> !(Split(text) <= Split(text + "\n" + rest))
  {
    hide Lex, Chunks, End, Statement, Blank;
    var newline := ChunksAcrossJoin(text, rest);
    var a, b := Chunks(Lex(text, Start)), Chunks(Lex(rest, Start));
    StatementsAppend(Front(a), Glue(Last(a) + newline, b));
    StatementsSplitUp(a);
    StatementsSplitUp([b[0]]);
    FirstOfGlue(Last(a) + newline, b);
    NewlineIsBlank(newline);
    BlankAfter(Last(a), newline);
    Associative(Statements(Front(a)), Statement(Last(a) + newline + b[0]), Statements(b[1..]));
    if PendingBlank(text) || OpensBlank(rest) {
      ChunkMeets(Last(a) + newline, b[0]);
      Associative(Statements(Front(a)), Statement(Last(a)), Statement(b[0]) + Statements(b[1..]));
      Associative(Statement(Last(a)), Statement(b[0]), Statements(b[1..]));
    } else {
      RunsOn(Front(a), Last(a) + newline, b[0], Statements(b[1..]));
    }
  }

  lemma NewlineIsBlank(newline: string)
    requires newline == "" || newline == "\n"
    ensures Blank(newline)
  {
  }

  lemma BlankSplits(text: string)
    requires Blank(text)
    ensures Split(text) == [] && Settled(End(text, Start)) && PendingBlank(text)
  {
    SplitterLaws.BlanksKeepDefault(text, true);
    ChunksKeeps(text, []);
    AppendNothing(Keeps(text));
    AppendNothing(text);
    assert Chunks([]) == [""];
    BlankStatement(text);
    hide Lex;
    assert Chunks(Keeps(text)) == [text];
    StatementsSplitUp([text]);
    assert Front([text]) == [];
  }

  /**
   * Splitting two texts apart gives the statements of the texts joined if and only if the cut between them is clear;
   * else the statement that is cut comes out shorter than it is.
   */
  lemma SplitAcrossJoin(text: string, rest: string)
    ensures Split(text + "\n" + rest) == Split(text) + Split(rest) <==> ClearCut(text, rest)
    ensures !ClearCut(text, rest) ==> !(Split(text) <= Split(text + "\n" + rest))
  {
    hide Split, PendingBlank, OpensBlank;
    if Settled(End(text, Start)) {
      SplitAcrossSettled(text, rest);
    } else {
      SplitAcrossQuote(text, rest);
      if Blank(rest) {
        BlankSplits(rest);
        AppendNothing(Split(text));
      }
    }
  }

  /** Texts split one by one give the statements of the texts joined if and only if every cut between them is clear. */
  lemma {:induction false} SplitEachOrJoined(texts: seq<string>)
    requires texts != []
    ensures SplitEach(texts) == Split(Join(texts)) <==> ClearCuts(texts)
  {
    hide Split, ClearCut;
    if |texts| == 1 {
      assert SplitEach(texts) == Split(texts[0]) + [];
    } else {
      var text, rest := texts[0], texts[1..];
      SplitEachOrJoined(rest);
      SplitAcrossJoin(text, Join(rest));
      if ClearCut(text, Join(rest)) && SplitEach(texts) == Split(Join(texts)) {
        var n := |Split(text)|;
        assert (Split(text) + SplitEach(rest))[n..] == SplitEach(rest);
        assert (Split(text) + Split(Join(rest)))[n..] == Split(Join(rest));
      }
    }
  }

  /**
   * Cutting out the COPY blocks commutes with splitting if and only if every cut is clear: then the SQL statements of
   * the tokens are those of the dump without the blocks.
   */
  lemma CopyBlocksCommute(sql: string)
    ensures var blocks := Blocks(Lines(sql));
            SqlTexts(Tokens(blocks)) == Split(Join(SqlOnly(blocks))) <==> ClearCuts(Buffers(blocks))
  {
    var blocks := Blocks(Lines(sql));
    hide IsCopyHeader, Split, Blocks, Lines, ClearCuts;
    LinesUsedOnce(Lines(sql));
    TokensOfBlocks(blocks);
    BuffersJoin(blocks);
    if Buffers(blocks) == [] {
      NothingToSplit(Buffers(blocks));
    } else {
      SplitEachOrJoined(Buffers(blocks));
    }
  }

  lemma NothingToSplit(texts: seq<string>)
    requires texts == []
    ensures SplitEach(texts) == Split(Join(texts)) && ClearCuts(texts)
  {
    assert Statements([""]) == [];
  }

  /** A dump without a COPY header is just split. */
  lemma NoCopyIsPlainSplit(sql: string)
    requires forall k :: 0 <= k < |Lines(sql)| ==> !IsCopyHeader(Lines(sql)[k])
    ensures Tokens(Blocks(Lines(sql))) == SqlTokens(Split(sql))
  {
    hide IsCopyHeader, Split;
    var lines := Lines(sql);
    SqlRunOver(lines, []);
    assert lines + [] == lines && lines[..|lines|] == lines && lines[|lines|..] == [];
    TokensOfSqlFirst(lines);
    assert Tokens(Blocks([])) == [];
    JoinLines(sql);
  }

  lemma {:induction false} InsideString(s: string)
    requires '\'' !in s
    ensures Lex(s, SingleQuote) == Keeps(s) && End(s, SingleQuote) == SingleQuote
  {
    if s != "" { InsideString(s[1..]); }
  }

  lemma OpenString(s: string)
    requires '\'' !in s && Trimmed("'" + s)
    ensures Split("'" + s) == ["'" + s] && End("'" + s, Start) == SingleQuote
  {
    var t := "'" + s;
    assert t[0] == '\'' && t[1..] == s;
    InsideString(s);
    SplitterLaws.StatementSplitsToItself(t);
  }

  // A COPY block inside an open string constant, the header being any.
  function OpenStringLines(header: string): seq<string> { ["'", header, TERMINATOR, ";"] }

  // There are such headers.
  lemma HeaderExample()
    ensures IsCopyHeader("COPY" + " t FROM stdin;")
  {
    SpacedExample();
    CopyThen(" t FROM stdin;");
  }

  lemma CopyThen(rest: string)
    requires SpacedFromStdin(rest)
    ensures IsCopyHeader("COPY" + rest)
  {
    var line := "COPY" + rest;
    assert line[0] == 'C' && SpaceRun(line) == 0 && line[0..] == line && line[4..] == rest;
    hide SpacedFromStdin, SpaceRun;
  }

  lemma SpacedExample()
    ensures SpacedFromStdin(" t FROM stdin;")
  {
    assert " t FROM stdin;"[1..] == "t FROM stdin;";
    NamedExample();
    hide NamedFromStdin;
  }

  lemma NamedExample()
    ensures NamedFromStdin("t FROM stdin;")
  {
    assert "t FROM stdin;"[1..] == " FROM stdin;";
    FromStdinExample();
    hide FromStdin;
  }

  lemma FromStdinExample()
    ensures FromStdin(" FROM stdin;")
  {
    var from := " FROM stdin;";
    assert from[1..] == "FROM stdin;" && from[5..] == " stdin;" && from[6..] == "stdin;";
    assert " stdin;"[1..] == "stdin;" && SpaceRun("stdin;") == 0;
    assert SpaceRun(" stdin;") == 1;
  }

  lemma NotHeaders()
    ensures !IsCopyHeader("'") && !IsCopyHeader(";")
  {
    assert SpaceRun("'") == 0 && SpaceRun(";") == 0;
    assert |"'"[0..]| == 1 && |";"[0..]| == 1;
  }

  lemma OpenStringBlocks(header: string)
    requires IsCopyHeader(header)
    ensures Blocks(OpenStringLines(header))
            == [SqlLines(["'"])] + ([CopyLines(header, [], true)] + [SqlLines([";"])])
  {
    NotHeaders();
    hide IsCopyHeader, Blocks;
    var b := CopyLines(header, [], true);
    assert BlockLines(b) == [header, TERMINATOR];
    assert OpenStringLines(header) == ["'"] + (BlockLines(b) + [";"]);
    BlocksOfSql([";"], []);
    NoLinesNoBlocks();
    AppendNothing([";"]);
    AppendNothing([SqlLines([";"])]);
    BlocksOfCopy(b, [";"]);
    BlocksOfSql(["'"], BlockLines(b) + [";"]);
  }

  lemma OpenStringTexts(header: string)
    ensures var blocks := [SqlLines(["'"])] + ([CopyLines(header, [], true)] + [SqlLines([";"])]);
            Buffers(blocks) == ["'", ";"] && SqlOnly(blocks) == ["'", ";"]
  {
    var a, b, c := SqlLines(["'"]), CopyLines(header, [], true), SqlLines([";"]);
    ConsTail(a, [b] + [c]);
    ConsTail(b, [c]);
    assert [c][1..] == [];
    assert Buffers([c]) == [";"] && SqlOnly([c]) == [";"];
    assert Buffers([b] + [c]) == [";"] && SqlOnly([b] + [c]) == [";"];
  }

  lemma OpenStringStatements()
    ensures SplitEach(["'", ";"]) == ["'"] && Split(Join(["'", ";"])) == ["'\n;"]
  {
    OpenString("");
    OpenString("\n;");
    assert "'" + "" == "'" && "'" + "\n;" == "'\n;";
    assert Chunks(Lex(";", Start)) == ["", ""];
    assert Statements(["", ""]) == [] by { assert ["", ""][1..] == [""]; }
    assert Split(";") == [];
    hide Split;
    assert ["'", ";"][1..] == [";"] && [";"][1..] == [];
    assert SplitEach([";"]) == [];
    assert Join(["'", ";"]) == "'" + "\n" + ";";
    assert "'" + "\n" + ";" == "'\n;";
  }

  /**
   * A dump with a cut that is not clear: a COPY block inside its string constant ends the string for the tagged
   * splitter only.
   */
  lemma OpenStringIsCut(header: string)
    requires IsCopyHeader(header) && '\n' !in header
    ensures var blocks := Blocks(Lines(Join(OpenStringLines(header))));
            SqlTexts(Tokens(blocks)) == ["'"] && Split(Join(SqlOnly(blocks))) == ["'\n;"]
  {
    var lines := OpenStringLines(header);
    assert forall i :: 0 <= i < |lines| ==> '\n' !in lines[i];
    hide IsCopyHeader, OpenStringLines, Split, Join, Blocks;
    LinesOfJoin(lines);
    OpenStringBlocks(header);
    OpenStringTexts(header);
    OpenStringStatements();
    TokensOfBlocks(Blocks(lines));
    hide *;
  }
}
