/** The tagged splitter: COPY blocks are cut out of a dump line by line, and what is left is split into statements. */
module CopyBlocks {
  import opened Seqs
  import opened Text
  import opened SqlLexer
  import SqlSplitter

  datatype Token = Sql(text: string) | Copy(header: string, rows: seq<string>)

  const TERMINATOR: string := "\\."

  // ---------- The header line of a COPY block ----------

  predicate IsLineTerminator(c: char) { c == '\n' || c == '\r' || c == '\U{2028}' || c == '\U{2029}' }

  // stdin\b
  predicate Stdin(s: string) { StartsWithWord(s, "stdin") && (|s| > 5 ==> !IsWordChar(s[5])) }

  // \sFROM\s+stdin\b
  predicate FromStdin(s: string) {
    s != "" && IsSpace(s[0]) && StartsWithWord(s[1..], "from") && SpaceRun(s[5..]) > 0 &&
    Stdin(s[5 + SpaceRun(s[5..])..])
  }

  // .+\sFROM\s+stdin\b
  predicate NamedFromStdin(s: string) {
    s != "" && !IsLineTerminator(s[0]) && (FromStdin(s[1..]) || NamedFromStdin(s[1..]))
  }

  // \s+.+\sFROM\s+stdin\b
  predicate SpacedFromStdin(s: string) {
    s != "" && IsSpace(s[0]) && (NamedFromStdin(s[1..]) || SpacedFromStdin(s[1..]))
  }

  /** The pattern /^\s*COPY\s+.+\sFROM\s+stdin\b/i. */
  predicate IsCopyHeader(line: string) {
    var p := SpaceRun(line);
    StartsWithWord(line[p..], "copy") && SpacedFromStdin(line[p + 4..])
  }

  /** line.replace(/;\s*$/, '').trim() */
  function Header(line: string): string {
    var t := TrimEnd(line);
    Trim(if t != "" && t[|t| - 1] == ';' then t[..|t| - 1] else line)
  }

  // ---------- A dump as blocks of lines ----------

  datatype Block = SqlLines(lines: seq<string>) | CopyLines(header: string, rows: seq<string>, closed: bool)

  // How many lines come before the first COPY header.
  function SqlRun(lines: seq<string>): (n: nat)
    ensures n <= |lines| && forall k :: 0 <= k < n ==> !IsCopyHeader(lines[k])
    ensures n < |lines| ==> IsCopyHeader(lines[n])
  {
    if lines == [] || IsCopyHeader(lines[0]) then 0 else 1 + SqlRun(lines[1..])
  }

  // How many lines come before the first terminator.
  function RowRun(lines: seq<string>): (n: nat)
    ensures n <= |lines| && forall k :: 0 <= k < n ==> lines[k] != TERMINATOR
    ensures n < |lines| ==> lines[n] == TERMINATOR
  {
    if lines == [] || lines[0] == TERMINATOR then 0 else 1 + RowRun(lines[1..])
  }

  // Where the lines after a COPY block begin.
  function PastRows(lines: seq<string>): (n: nat)
    ensures n <= |lines|
  {
    var n := RowRun(lines);
    if n < |lines| then n + 1 else n
  }

  /** The blocks of a dump, in order. */
  function Blocks(lines: seq<string>): seq<Block>
    decreases |lines|
  {
    if lines == [] then []
    else if IsCopyHeader(lines[0]) then
      var data := lines[1..];
      [CopyLines(lines[0], data[..RowRun(data)], RowRun(data) < |data|)] + Blocks(data[PastRows(data)..])
    else
      [SqlLines(lines[..SqlRun(lines)])] + Blocks(lines[SqlRun(lines)..])
  }

  function SqlTokens(statements: seq<string>): seq<Token> {
    if statements == [] then [] else [Sql(statements[0])] + SqlTokens(statements[1..])
  }

  function BlockTokens(b: Block): seq<Token> {
    match b
    case SqlLines(lines) => SqlTokens(Split(Join(lines)))
    case CopyLines(header, rows, _) => [Copy(Header(header), rows)]
  }

  /** The tokens of a dump, block by block. */
  function Tokens(blocks: seq<Block>): seq<Token> {
    if blocks == [] then [] else BlockTokens(blocks[0]) + Tokens(blocks[1..])
  }

  // ---------- The splitter ----------

  // The tokens of the lines still to be read, when the lines in buffer wait to be split.
  function TokensFrom(buffer: seq<string>, rest: seq<string>): seq<Token> {
    if buffer == [] then Tokens(Blocks(rest))
    else SqlTokens(Split(Join(buffer + rest[..SqlRun(rest)]))) + Tokens(Blocks(rest[SqlRun(rest)..]))
  }

  lemma {:induction false} SqlTokensAppend(a: seq<string>, b: seq<string>)
    ensures SqlTokens(a + b) == SqlTokens(a) + SqlTokens(b)
  {
    if a == [] {
      assert a + b == b;
    } else {
      assert (a + b)[1..] == a[1..] + b;
      SqlTokensAppend(a[1..], b);
    }
  }

  function Flushed(buffer: seq<string>): seq<Token> {
    if buffer == [] then [] else SqlTokens(Split(Join(buffer)))
  }

  method FlushBuffer(tokens: seq<Token>, buffer: seq<string>) returns (tokens': seq<Token>)
    ensures tokens' == tokens + Flushed(buffer)
  {
    tokens' := tokens;
    if |buffer| == 0 { return; }
    var statements := SqlSplitter.SplitSqlStatements(Join(buffer));
    var k := 0;
    while k < |statements|
      invariant 0 <= k <= |statements|
      invariant tokens' == tokens + SqlTokens(statements[..k])
    {
      tokens' := tokens' + [Sql(statements[k])];
      SqlTokensAppend(statements[..k], [statements[k]]);
      assert statements[..k + 1] == statements[..k] + [statements[k]];
      assert SqlTokens([statements[k]]) == [Sql(statements[k])];
      k := k + 1;
    }
    assert statements[..k] == statements;
  }

  lemma TokensFromSql(buffer: seq<string>, rest: seq<string>)
    requires buffer != [] || (rest != [] && !IsCopyHeader(rest[0]))
    ensures var n := SqlRun(rest);
            TokensFrom(buffer, rest) == SqlTokens(Split(Join(buffer + rest[..n]))) + Tokens(Blocks(rest[n..]))
  {
    if buffer == [] {
      TokensOfSqlFirst(rest);
      AppendNothing(rest[..SqlRun(rest)]);
    }
    hide IsCopyHeader, Join, Split, SqlTokens, Tokens, Blocks, SqlRun;
  }

  lemma BufferGrows(buffer: seq<string>, rest: seq<string>)
    requires rest != [] && !IsCopyHeader(rest[0])
    ensures TokensFrom(buffer, rest) == TokensFrom(buffer + [rest[0]], rest[1..])
  {
    TokensFromSql(buffer, rest);
    TokensFromSql(buffer + [rest[0]], rest[1..]);
    assert SqlRun(rest) == 1 + SqlRun(rest[1..]);
    hide *;
    Shift(buffer, rest, SqlRun(rest[1..]));
  }

  lemma TokensOfSqlFirst(lines: seq<string>)
    requires lines != [] && !IsCopyHeader(lines[0])
    ensures var n := SqlRun(lines);
            Tokens(Blocks(lines)) == SqlTokens(Split(Join(lines[..n]))) + Tokens(Blocks(lines[n..]))
  {
    hide IsCopyHeader, Join, Split;
    var blocks := Blocks(lines);
    assert blocks[1..] == Blocks(lines[SqlRun(lines)..]);
  }

  lemma TokensOfCopyFirst(lines: seq<string>)
    requires lines != [] && IsCopyHeader(lines[0])
    ensures var data := lines[1..];
            Tokens(Blocks(lines)) ==
            [Copy(Header(lines[0]), data[..RowRun(data)])] + Tokens(Blocks(data[PastRows(data)..]))
  {
    hide IsCopyHeader, Join, Split, Header;
    var blocks := Blocks(lines);
    assert blocks[1..] == Blocks(lines[1..][PastRows(lines[1..])..]);
  }

  lemma BufferFlushed(buffer: seq<string>, rest: seq<string>)
    requires rest == [] || IsCopyHeader(rest[0])
    ensures TokensFrom(buffer, rest) == Flushed(buffer) + Tokens(Blocks(rest))
  {
    hide IsCopyHeader, Join, Split, SqlTokens, Tokens, Blocks;
    assert rest[..0] == [] && rest[0..] == rest && buffer + [] == buffer;
  }

  lemma CopyCut(buffer: seq<string>, rest: seq<string>)
    requires rest != [] && IsCopyHeader(rest[0])
    ensures var data := rest[1..];
            TokensFrom(buffer, rest) ==
            Flushed(buffer) + [Copy(Header(rest[0]), data[..RowRun(data)])] + TokensFrom([], data[PastRows(data)..])
  {
    var data := rest[1..];
    var later := TokensFrom([], data[PastRows(data)..]);
    assert later == Tokens(Blocks(data[PastRows(data)..]));
    TokensOfCopyFirst(rest);
    BufferFlushed(buffer, rest);
    hide *;
    Associative(Flushed(buffer), [Copy(Header(rest[0]), data[..RowRun(data)])], later);
  }

  lemma LastFlush(buffer: seq<string>)
    ensures TokensFrom(buffer, []) == Flushed(buffer)
  {
    hide Join, Split, SqlTokens;
    assert buffer + [] == buffer;
  }

  lemma FirstTokens(lines: seq<string>)
    ensures TokensFrom([], lines[0..]) == Tokens(Blocks(lines))
  {
    assert lines[0..] == lines;
  }

  /** The tagged splitter returns the tokens of the blocks of the dump, in order. */
  method SplitSqlStatementsTagged(sql: string) returns (tokens: seq<Token>)
    ensures tokens == Tokens(Blocks(Lines(sql)))
  {
    tokens := [];
    var lines := Lines(sql);
    var buffer: seq<string> := [];
    var i := 0;
    FirstTokens(lines);
    hide *;
    while i < |lines|
      invariant 0 <= i <= |lines|
      invariant tokens + TokensFrom(buffer, lines[i..]) == Tokens(Blocks(lines))
    {
      var line := lines[i];
      assert lines[i..][1..] == lines[i + 1..];
      if IsCopyHeader(line) {
        CopyCut(buffer, lines[i..]);
        tokens := FlushBuffer(tokens, buffer);
        buffer := [];
        var header := Header(line);
        i := i + 1;
        var rows;
        rows, i := ReadRows(lines, i);
        tokens := tokens + [Copy(header, rows)];
      } else {
        BufferGrows(buffer, lines[i..]);
        buffer := buffer + [line];
        i := i + 1;
      }
    }
    assert lines[i..] == [];
    LastFlush(buffer);
    tokens := FlushBuffer(tokens, buffer);
  }

  // The rows of a COPY block, up to its terminator or the end of the dump.
  method ReadRows(lines: seq<string>, start: nat) returns (rows: seq<string>, i: nat)
    requires start <= |lines|
    ensures start <= i <= |lines|
    ensures rows == lines[start..][..RowRun(lines[start..])]
    ensures lines[i..] == lines[start..][PastRows(lines[start..])..]
  {
    rows := [];
    i := start;
    ghost var data := lines[start..];
    while i < |lines|
      invariant start <= i <= |lines|
      invariant rows == lines[start..i]
      invariant RowRun(data) == i - start + RowRun(lines[i..])
    {
      var rowLine := lines[i];
      if rowLine == TERMINATOR {
        assert lines[start..][..i - start] == lines[start..i];
        i := i + 1;
        return;
      }
      assert lines[i..][1..] == lines[i + 1..];
      rows := rows + [rowLine];
      i := i + 1;
    }
  }
}
