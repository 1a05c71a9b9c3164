/** The SQL dump splitter: a scanner with lookahead over an index, shown to read as the automaton of SqlLexer does. */
module SqlSplitter {
  import opened Text
  import opened Seqs
  import opened SqlLexer

  datatype State = InDefault | InSingleQuote | InLineComment | InBlockComment | InDollarQuote

  /** sql.indexOf(c, from) */
  method IndexOf(sql: string, c: char, from: nat) returns (k: int)
    requires from <= |sql|
    ensures k == -1 || from <= k < |sql|
    ensures k == -1 ==> c !in sql[from..]
    ensures k != -1 ==> sql[k] == c && c !in sql[from..k]
  {
    k := from;
    while k < |sql|
      invariant from <= k <= |sql|
      invariant c !in sql[from..k]
    {
      if sql[k] == c { return; }
      k := k + 1;
    }
    k := -1;
  }

  function WordRun(s: string): (n: nat)
    ensures n <= |s|
  {
    if s != "" && IsWordChar(s[0]) then 1 + WordRun(s[1..]) else 0
  }

  /** The length of the match of /^(\$[A-Za-z0-9_]*\$)/, 0 if there is none. */
  function TagLength(s: string): (n: nat)
    ensures n > 0 ==> 2 <= n <= |s| && s[n - 1] == '$'
  {
    if s != "" && s[0] == '$' then
      var n := WordRun(s[1..]);
      if 1 + n < |s| && s[1 + n] == '$' then n + 2 else 0
    else 0
  }

  // What is still to come out of the scan: the statements found, the text pending, and the rest of the dump.
  ghost function Outcome(statements: seq<string>, current: string, rest: string, m: Mode): seq<string> {
    statements + Statements(Glue(current, Chunks(Lex(rest, m))))
  }

  // The mode of the automaton that a state of the scanner stands for; body is where the dollar-quoted text starts.
  ghost function ModeAt(sql: string, i: nat, state: State, dollarTag: string, body: nat): Mode
    requires i <= |sql|
  {
    match state
    case InDefault => Default(i == 0 || sql[i - 1] == '\n')
    case InSingleQuote => SingleQuote
    case InLineComment => LineComment
    case InBlockComment => BlockComment(false)
    case InDollarQuote => DollarQuote(dollarTag, if body <= i then sql[body..i] else "")
  }

  // A character that is neither blank nor a separator.
  ghost predicate HasSolid(s: string) { exists k :: 0 <= k < |s| && !IsSpace(s[k]) && s[k] != ';' }

  // The scanner reads n characters into the pending text and goes on in mode m'.
  ghost predicate Reads(rest: string, m: Mode, n: nat, m': Mode) {
    n <= |rest| && Lex(rest, m) == Keeps(rest[..n]) + Lex(rest[n..], m')
  }

  lemma ReadsOn(statements: seq<string>, current: string, rest: string, m: Mode, n: nat, m': Mode)
    requires Reads(rest, m, n, m')
    ensures Outcome(statements, current, rest, m) == Outcome(statements, current + rest[..n], rest[n..], m')
  {
    ChunksKeeps(rest[..n], Lex(rest[n..], m'));
    GlueTwice(current, rest[..n], Chunks(Lex(rest[n..], m')));
  }

  lemma ReadsOne(rest: string, m: Mode, m': Mode)
    requires rest != "" && Mark(m, rest[0]).Keep?
    requires Lex(rest[1..], Next(m, rest[0])) == Lex(rest[1..], m')
    ensures Reads(rest, m, 1, m')
  {
    assert rest[..1][1..] == "";
    assert Keeps(rest[..1]) == [Keep(rest[0])];
  }

  lemma ReadsTwo(rest: string, m: Mode, m': Mode)
    requires |rest| >= 2 && Mark(m, rest[0]).Keep? && Mark(Next(m, rest[0]), rest[1]).Keep?
    requires m' == Next(Next(m, rest[0]), rest[1])
    ensures Reads(rest, m, 2, m')
  {
    assert rest[1..][1..] == rest[2..];
    assert rest[..2][1..] == [rest[1]];
    assert Keeps([rest[1]]) == [Keep(rest[1])];
    assert Keeps(rest[..2]) == [Keep(rest[0]), Keep(rest[1])];
    assert Lex(rest[1..], Next(m, rest[0])) == [Keep(rest[1])] + Lex(rest[2..], m');
  }

  // ---------- Lookahead from the default state ----------

  lemma TwoDashes(rest: string, bol: bool)
    requires "--" <= rest
    ensures Reads(rest, Default(bol), 1, LineComment)
  {
    ReadsOne(rest, Default(bol), LineComment);
  }

  lemma SlashStar(rest: string, bol: bool)
    requires "/*" <= rest
    ensures Reads(rest, Default(bol), 1, BlockComment(false))
  {
    ReadsOne(rest, Default(bol), BlockComment(false));
  }

  lemma {:induction false} TagFails(rest: string, t: string)
    requires var n := WordRun(rest); n < |rest| ==> rest[n] != '$'
    ensures Lex(rest, Tag(t)) == Lex(rest, Default(false))
  {
    if rest != "" {
      var c := rest[0];
      if IsWordChar(c) {
        TagFails(rest[1..], t + [c]);
        assert Next(Tag(t), c) == Tag(t + [c]) && Next(Default(false), c) == Default(false);
      } else {
        assert Next(Tag(t), c) == Next(Default(false), c);
      }
      hide Next;
    }
  }

  lemma {:induction false} TagRuns(rest: string, t: string, n: nat)
    requires n == WordRun(rest) < |rest| && rest[n] == '$'
    ensures Reads(rest, Tag(t), n + 1, DollarQuote(t + rest[..n + 1], ""))
  {
    if n == 0 {
      ReadsOne(rest, Tag(t), DollarQuote(t + "$", ""));
      assert rest[..1] == "$";
    } else {
      var c, more := rest[0], rest[1..];
      TagRuns(more, t + [c], n - 1);
      assert rest == [c] + more && rest[..n + 1] == [c] + more[..n];
      Associative(t, [c], more[..n]);
      hide Reads, WordRun;
      ReadsAfter(c, more, Tag(t), n, DollarQuote(t + rest[..n + 1], ""));
    }
  }

  lemma TagOpens(rest: string, bol: bool)
    requires TagLength(rest) > 0
    ensures Reads(rest, Default(bol), TagLength(rest), DollarQuote(rest[..TagLength(rest)], ""))
  {
    var n, more := TagLength(rest), rest[1..];
    assert Mark(Default(bol), '$') == Keep('$') && Next(Default(bol), '$') == Tag("$");
    TagRuns(more, "$", n - 2);
    hide Mark, Next, Reads, TagLength, WordRun;
    assert rest == ['$'] + more && rest[..n] == "$" + more[..n - 1];
    ReadsAfter('$', more, Default(bol), n - 1, DollarQuote(rest[..n], ""));
  }

  // Any other character of the default state that is neither a separator nor the start of a meta-line.
  lemma Ordinary(rest: string, bol: bool)
    requires rest != "" && rest[0] != '\'' && rest[0] != ';' && !(rest[0] == '\\' && bol)
    requires !("--" <= rest) && !("/*" <= rest) && TagLength(rest) == 0
    ensures Reads(rest, Default(bol), 1, Default(rest[0] == '\n'))
  {
    if rest[0] == '$' {
      TagFails(rest[1..], "$");
    }
    ReadsOne(rest, Default(bol), Default(rest[0] == '\n'));
  }

  // ---------- The other states ----------

  lemma InsideBlockComment(rest: string)
    requires rest != "" && !("*/" <= rest)
    ensures Reads(rest, BlockComment(false), 1, BlockComment(false))
  {
    ReadsOne(rest, BlockComment(false), BlockComment(false));
  }

  // Text that has held no occurrence of the tag so far; the quote closes where the first one ends.
  ghost predicate NoTagBefore(sql: string, tag: string, body: nat, i: nat) {
    body <= i <= |sql| && |tag| >= 2 && tag[|tag| - 1] == '$' && forall j :: body <= j < i ==> !(tag <= sql[j..])
  }

  lemma InDollarQuoteStep(tag: string, seen: string, c: char)
    ensures var m := DollarQuote(tag, seen);
            && Mark(m, c) == Keep(c)
            && Next(m, c) == if EndsWith(seen + [c], tag) then Default(false) else DollarQuote(tag, seen + [c])
  {
  }

  lemma {:induction false} TagCloses(sql: string, tag: string, body: nat, i: nat, k: nat)
    requires NoTagBefore(sql, tag, body, i) && tag <= sql[i..] && k < |tag|
    ensures Reads(sql[i + k..], DollarQuote(tag, sql[body..i + k]), |tag| - k, Default(false))
    decreases |tag| - k
  {
    var rest, seen := sql[i + k..], sql[body..i + k];
    assert seen + [rest[0]] == sql[body..i + k + 1];
    InDollarQuoteStep(tag, seen, rest[0]);
    assert rest[1..] == sql[i + k + 1..] && rest == [rest[0]] + rest[1..];
    hide EndsWith, Next, Mark, Lex, Reads, NoTagBefore;
    if k + 1 == |tag| {
      EndsHere(sql, tag, body, i);
      ReadsOne(rest, DollarQuote(tag, seen), Default(false));
    } else {
      NotYet(sql, tag, body, i, i + k + 1);
      TagCloses(sql, tag, body, i, k + 1);
      ReadsAfter(rest[0], sql[i + k + 1..], DollarQuote(tag, seen), |tag| - k - 1, Default(false));
    }
  }

  lemma EndsHere(sql: string, tag: string, body: nat, i: nat)
    requires body <= i <= |sql| && tag <= sql[i..]
    ensures EndsWith(sql[body..i + |tag|], tag)
  {
    assert sql[body..i + |tag|][i - body..] == sql[i..][..|tag|];
  }

  lemma ReadsAfter(c: char, rest: string, m: Mode, n: nat, m': Mode)
    requires Mark(m, c).Keep? && Reads(rest, Next(m, c), n, m')
    ensures Reads([c] + rest, m, n + 1, m')
  {
    hide Next, Mark;
    ConsTail(c, rest);
    assert ([c] + rest)[..n + 1] == [c] + rest[..n] && ([c] + rest)[n + 1..] == rest[n..];
    ConsTail(c, rest[..n]);
    Associative([Keep(c)], Keeps(rest[..n]), Lex(rest[n..], m'));
    assert Mark(m, c) == Keep(c) by { MarkKeeps(m, c); }
  }

  lemma MarkKeeps(m: Mode, c: char)
    ensures Mark(m, c).Keep? ==> Mark(m, c) == Keep(c)
  {
  }

  // Before the first occurrence of the tag has been read to its end, the text does not end with the tag.
  lemma NotYet(sql: string, tag: string, body: nat, i: nat, e: nat)
    requires NoTagBefore(sql, tag, body, i) && body <= e <= |sql| && e < i + |tag|
    ensures !EndsWith(sql[body..e], tag)
  {
    if |tag| <= e - body {
      var j := e - |tag|;
      assert sql[body..e][e - body - |tag|..] == sql[j..][..|tag|];
      assert !(tag <= sql[j..]);
    }
  }

  lemma InsideDollarQuote(sql: string, tag: string, body: nat, i: nat)
    requires NoTagBefore(sql, tag, body, i) && i < |sql| && !(tag <= sql[i..])
    ensures NoTagBefore(sql, tag, body, i + 1)
    ensures Reads(sql[i..], DollarQuote(tag, sql[body..i]), 1, DollarQuote(tag, sql[body..i + 1]))
  {
    NotYet(sql, tag, body, i + 1, i + 1);
    assert sql[body..i] + [sql[i]] == sql[body..i + 1];
    ReadsOne(sql[i..], DollarQuote(tag, sql[body..i]), DollarQuote(tag, sql[body..i + 1]));
  }

  lemma {:induction false} SkipsLine(rest: string, eol: int)
    requires eol == -1 ==> '\n' !in rest
    requires eol != -1 ==> 0 <= eol < |rest| && rest[eol] == '\n' && '\n' !in rest[..eol]
    ensures Chunks(Lex(rest, MetaLine)) == Chunks(Lex(if eol == -1 then "" else rest[eol + 1..], Default(true)))
  {
    if rest != "" && eol != 0 {
      if eol > 0 {
        assert rest[0] == rest[..eol][0];
        assert rest[1..][..eol - 1] == rest[..eol][1..];
        assert rest[1..][eol - 1 + 1..] == rest[eol + 1..];
      }
      SkipsLine(rest[1..], if eol == -1 then -1 else eol - 1);
    }
  }

  // Nothing but a separator and blanks can not be pending.
  lemma NotABareSeparator(current: string)
    requires ';' in current ==> HasSolid(current)
    ensures Trim(current) != ";"
  {
    var lead, tail := TrimSplits(current);
    var t := Trim(current);
    if ';' in current {
      var k :| 0 <= k < |current| && !IsSpace(current[k]) && current[k] != ';';
      assert |lead| <= k;
      assert k < |lead| + |t| by {
        assert forall j :: |lead| + |t| <= j < |current| ==> current[j] == tail[j - |lead| - |t|];
      }
      assert t[k - |lead|] == current[k];
    } else if t != "" {
      assert t[0] == current[|lead|];
    }
  }

  lemma SolidGrows(current: string, more: string)
    ensures HasSolid(current) ==> HasSolid(current + more)
    ensures HasSolid(more) ==> HasSolid(current + more)
  {
    if HasSolid(current) {
      var k :| 0 <= k < |current| && !IsSpace(current[k]) && current[k] != ';';
      assert (current + more)[k] == current[k];
    }
    if HasSolid(more) {
      var k :| 0 <= k < |more| && !IsSpace(more[k]) && more[k] != ';';
      assert (current + more)[|current| + k] == more[k];
    }
  }

  // The scanner at index i: what it holds and what is still unread make up the result.
  ghost predicate Scanning(
    sql: string, statements: seq<string>, current: string, i: nat, state: State, dollarTag: string, body: nat)
  {
    && i <= |sql|
    && Outcome(statements, current, sql[i..], ModeAt(sql, i, state, dollarTag, body)) == Split(sql)
    && (state == InDollarQuote ==> NoTagBefore(sql, dollarTag, body, i))
    && (state != InDefault || ';' in current ==> HasSolid(current))
  }

  // One move of the scanner that keeps n characters.
  lemma Moves(
    sql: string, statements: seq<string>, current: string, i: nat, state: State, dollarTag: string, body: nat,
    n: nat, state': State, dollarTag': string, body': nat)
    requires Scanning(sql, statements, current, i, state, dollarTag, body)
    requires 0 < n <= |sql| - i
    requires Reads(sql[i..], ModeAt(sql, i, state, dollarTag, body), n, ModeAt(sql, i + n, state', dollarTag', body'))
    requires state' == InDollarQuote ==> NoTagBefore(sql, dollarTag', body', i + n)
    requires state != InDefault || (if state' != InDefault then sql[i] in "-/'$" else n == 1 && sql[i] != ';')
    ensures Scanning(sql, statements, current + sql[i..i + n], i + n, state', dollarTag', body')
  {
    var m := ModeAt(sql, i, state, dollarTag, body);
    ReadsOn(statements, current, sql[i..], m, n, ModeAt(sql, i + n, state', dollarTag', body'));
    assert sql[i..][..n] == sql[i..i + n] && sql[i..][n..] == sql[i + n..];
    SolidGrows(current, sql[i..i + n]);
    assert sql[i..i + n][0] == sql[i];
    assert state == InDefault && state' == InDefault ==> sql[i..i + n] == [sql[i]];
  }

  // ---------- One lemma for each branch of the scanner ----------

  lemma CommentOpens(sql: string, statements: seq<string>, current: string, i: nat, dollarTag: string, body: nat)
    requires Scanning(sql, statements, current, i, InDefault, dollarTag, body)
    requires i + 1 < |sql| && ((sql[i] == '-' && sql[i + 1] == '-') || (sql[i] == '/' && sql[i + 1] == '*'))
    ensures var state' := if sql[i] == '-' then InLineComment else InBlockComment;
            Scanning(sql, statements, current + [sql[i]], i + 1, state', dollarTag, body)
  {
    hide Scanning, Reads;
    var bol := i == 0 || sql[i - 1] == '\n';
    assert sql[i..][1] == sql[i + 1] && sql[i..i + 1] == [sql[i]];
    if sql[i] == '-' {
      TwoDashes(sql[i..], bol);
      Moves(sql, statements, current, i, InDefault, dollarTag, body, 1, InLineComment, dollarTag, body);
    } else {
      SlashStar(sql[i..], bol);
      Moves(sql, statements, current, i, InDefault, dollarTag, body, 1, InBlockComment, dollarTag, body);
    }
  }

  lemma QuoteOpens(sql: string, statements: seq<string>, current: string, i: nat, dollarTag: string, body: nat)
    requires Scanning(sql, statements, current, i, InDefault, dollarTag, body)
    requires i < |sql| && sql[i] == '\''
    ensures Scanning(sql, statements, current + [sql[i]], i + 1, InSingleQuote, dollarTag, body)
  {
    hide Scanning, Reads;
    assert sql[i..i + 1] == [sql[i]];
    ReadsOne(sql[i..], Default(i == 0 || sql[i - 1] == '\n'), SingleQuote);
    Moves(sql, statements, current, i, InDefault, dollarTag, body, 1, InSingleQuote, dollarTag, body);
  }

  lemma DefaultGoesOn(
    sql: string, statements: seq<string>, current: string, i: nat, dollarTag: string, body: nat)
    requires Scanning(sql, statements, current, i, InDefault, dollarTag, body)
    requires i < |sql| && sql[i] != '\'' && sql[i] != ';' && !(sql[i] == '\\' && (i == 0 || sql[i - 1] == '\n'))
    requires i + 1 < |sql| ==> !(sql[i] == '-' && sql[i + 1] == '-') && !(sql[i] == '/' && sql[i + 1] == '*')
    requires TagLength(sql[i..]) == 0
    ensures Scanning(sql, statements, current + [sql[i]], i + 1, InDefault, dollarTag, body)
  {
    hide Scanning, Reads;
    assert sql[i..i + 1] == [sql[i]];
    assert i + 1 < |sql| ==> sql[i..][1] == sql[i + 1];
    Ordinary(sql[i..], i == 0 || sql[i - 1] == '\n');
    Moves(sql, statements, current, i, InDefault, dollarTag, body, 1, InDefault, dollarTag, body);
  }

  lemma QuoteDoubled(sql: string, statements: seq<string>, current: string, i: nat, dollarTag: string, body: nat)
    requires Scanning(sql, statements, current, i, InSingleQuote, dollarTag, body)
    requires i + 1 < |sql| && sql[i] == '\'' == sql[i + 1]
    ensures Scanning(sql, statements, current + [sql[i], sql[i + 1]], i + 2, InSingleQuote, dollarTag, body)
  {
    hide Scanning, Reads;
    assert sql[i..][1] == sql[i + 1] && sql[i..i + 2] == [sql[i], sql[i + 1]];
    ReadsTwo(sql[i..], SingleQuote, SingleQuote);
    Moves(sql, statements, current, i, InSingleQuote, dollarTag, body, 2, InSingleQuote, dollarTag, body);
  }

  // Single characters of a quoted string and of a line comment, the closing one included.
  lemma OneByOne(
    sql: string, statements: seq<string>, current: string, i: nat, state: State, dollarTag: string, body: nat)
    requires Scanning(sql, statements, current, i, state, dollarTag, body)
    requires i < |sql| && (state == InSingleQuote || state == InLineComment)
    requires state == InSingleQuote && sql[i] == '\'' && i + 1 < |sql| ==> sql[i + 1] != '\''
    ensures var state' := if sql[i] == (if state == InSingleQuote then '\'' else '\n') then InDefault else state;
            Scanning(sql, statements, current + [sql[i]], i + 1, state', dollarTag, body)
  {
    hide Scanning, Reads;
    assert sql[i..i + 1] == [sql[i]];
    var mode := ModeAt(sql, i, state, dollarTag, body);
    ReadsOne(sql[i..], mode, Next(mode, sql[i]));
    var state' := if sql[i] == (if state == InSingleQuote then '\'' else '\n') then InDefault else state;
    Moves(sql, statements, current, i, state, dollarTag, body, 1, state', dollarTag, body);
  }

  lemma BlockCommentCloses(
    sql: string, statements: seq<string>, current: string, i: nat, dollarTag: string, body: nat)
    requires Scanning(sql, statements, current, i, InBlockComment, dollarTag, body)
    requires i + 1 < |sql| && sql[i] == '*' && sql[i + 1] == '/'
    ensures Scanning(sql, statements, current + [sql[i], sql[i + 1]], i + 2, InDefault, dollarTag, body)
  {
    hide Scanning, Reads;
    assert sql[i..][1] == sql[i + 1] && sql[i..i + 2] == [sql[i], sql[i + 1]];
    ReadsTwo(sql[i..], BlockComment(false), Default(false));
    Moves(sql, statements, current, i, InBlockComment, dollarTag, body, 2, InDefault, dollarTag, body);
  }

  lemma BlockCommentGoesOn(
    sql: string, statements: seq<string>, current: string, i: nat, dollarTag: string, body: nat)
    requires Scanning(sql, statements, current, i, InBlockComment, dollarTag, body)
    requires i < |sql| && (sql[i] == '*' && i + 1 < |sql| ==> sql[i + 1] != '/')
    ensures Scanning(sql, statements, current + [sql[i]], i + 1, InBlockComment, dollarTag, body)
  {
    hide Scanning, Reads;
    assert sql[i..i + 1] == [sql[i]];
    assert i + 1 < |sql| ==> sql[i..][1] == sql[i + 1];
    InsideBlockComment(sql[i..]);
    Moves(sql, statements, current, i, InBlockComment, dollarTag, body, 1, InBlockComment, dollarTag, body);
  }

  lemma DollarOpens(
    sql: string, statements: seq<string>, current: string, i: nat, dollarTag: string, body: nat)
    requires Scanning(sql, statements, current, i, InDefault, dollarTag, body)
    requires i < |sql| && TagLength(sql[i..]) > 0
    ensures var n := TagLength(sql[i..]);
            Scanning(sql, statements, current + sql[i..][..n], i + n, InDollarQuote, sql[i..][..n], i + n)
  {
    hide Scanning, Reads;
    var n := TagLength(sql[i..]);
    TagOpens(sql[i..], i == 0 || sql[i - 1] == '\n');
    assert sql[i + n..i + n] == "" && sql[i..][..n] == sql[i..i + n];
    Moves(sql, statements, current, i, InDefault, dollarTag, body, n, InDollarQuote, sql[i..][..n], i + n);
  }

  lemma TagText(sql: string, tag: string, i: nat)
    requires i <= |sql| && tag <= sql[i..]
    ensures i + |tag| <= |sql| && sql[i..i + |tag|] == tag
    ensures tag != "" ==> sql[i + |tag| - 1] == tag[|tag| - 1]
  {
    assert sql[i..i + |tag|] == sql[i..][..|tag|];
    if tag != "" {
      assert sql[i..][|tag| - 1] == tag[|tag| - 1];
    }
  }

  lemma TagClosesHere(sql: string, tag: string, body: nat, i: nat)
    requires NoTagBefore(sql, tag, body, i) && tag <= sql[i..]
    ensures Reads(sql[i..], DollarQuote(tag, sql[body..i]), |tag|, Default(false))
  {
    TagCloses(sql, tag, body, i, 0);
  }

  lemma DollarCloses(
    sql: string, statements: seq<string>, current: string, i: nat, dollarTag: string, body: nat)
    requires Scanning(sql, statements, current, i, InDollarQuote, dollarTag, body)
    requires i < |sql| && dollarTag <= sql[i..]
    ensures |dollarTag| > 0
    ensures Scanning(sql, statements, current + dollarTag, i + |dollarTag|, InDefault, "", body)
  {
    assert NoTagBefore(sql, dollarTag, body, i);
    assert |dollarTag| >= 2 && dollarTag[|dollarTag| - 1] == '$' && body <= i;
    hide Scanning, NoTagBefore, Reads;
    var n := |dollarTag|;
    TagText(sql, dollarTag, i);
    TagClosesHere(sql, dollarTag, body, i);
    assert ModeAt(sql, i, InDollarQuote, dollarTag, body) == DollarQuote(dollarTag, sql[body..i]);
    assert ModeAt(sql, i + n, InDefault, "", body) == Default(false);
    hide *;
    Moves(sql, statements, current, i, InDollarQuote, dollarTag, body, n, InDefault, "", body);
  }

  lemma DollarGoesOn(
    sql: string, statements: seq<string>, current: string, i: nat, dollarTag: string, body: nat)
    requires Scanning(sql, statements, current, i, InDollarQuote, dollarTag, body)
    requires i < |sql| && !(dollarTag <= sql[i..])
    ensures Scanning(sql, statements, current + [sql[i]], i + 1, InDollarQuote, dollarTag, body)
  {
    assert NoTagBefore(sql, dollarTag, body, i);
    InsideDollarQuote(sql, dollarTag, body, i);
    assert body <= i;
    assert sql[i..i + 1] == [sql[i]];
    hide Scanning, Reads, NoTagBefore;
    Moves(sql, statements, current, i, InDollarQuote, dollarTag, body, 1, InDollarQuote, dollarTag, body);
  }

  lemma Cuts(sql: string, statements: seq<string>, current: string, i: nat, dollarTag: string, body: nat)
    requires Scanning(sql, statements, current, i, InDefault, dollarTag, body)
    requires i < |sql| && sql[i] == ';'
    ensures Scanning(sql, statements + Statement(current), "", i + 1, InDefault, dollarTag, body)
  {
    var bol := i == 0 || sql[i - 1] == '\n';
    assert sql[i..] == [';'] + sql[i + 1..];
    CutComesOut(statements, current, sql[i + 1..], bol);
  }

  lemma CutComesOut(statements: seq<string>, current: string, rest: string, bol: bool)
    ensures Outcome(statements, current, [';'] + rest, Default(bol)) ==
            Outcome(statements + Statement(current), "", rest, Default(false))
  {
    ConsTail(';', rest);
    var p := Lex(rest, Default(false));
    assert Lex([';'] + rest, Default(bol)) == [Cut] + p;
    hide Lex;
    ConsTail(Cut, p);
    var chunks := Chunks(p);
    assert Chunks([Cut] + p) == [""] + chunks;
    hide Chunks;
    ConsTail("", chunks);
    AppendNothing(current);
    assert Glue(current, [""] + chunks) == [current] + chunks;
    GlueNothing(chunks);
    ConsTail(current, chunks);
    assert Statements([current] + chunks) == Statement(current) + Statements(chunks);
    Associative(statements, Statement(current), Statements(chunks));
  }

  lemma MetaLineOpens(rest: string)
    requires rest != "" && rest[0] == '\\'
    ensures Lex(rest, Default(true)) == Lex(rest, MetaLine)
  {
    assert Mark(Default(true), '\\') == Mark(MetaLine, '\\') && Next(Default(true), '\\') == Next(MetaLine, '\\');
    hide Mark, Next;
  }

  lemma Skips(
    sql: string, statements: seq<string>, current: string, i: nat, dollarTag: string, body: nat, eol: int)
    requires Scanning(sql, statements, current, i, InDefault, dollarTag, body)
    requires i < |sql| && sql[i] == '\\' && (i == 0 || sql[i - 1] == '\n')
    requires eol == -1 ==> '\n' !in sql[i..]
    requires eol != -1 ==> i <= eol < |sql| && sql[eol] == '\n' && '\n' !in sql[i..eol]
    ensures var i' := if eol == -1 then |sql| else eol + 1;
            Scanning(sql, statements, current, i', InDefault, dollarTag, body)
  {
    var rest := sql[i..];
    MetaLineOpens(rest);
    if eol != -1 {
      assert rest[..eol - i] == sql[i..eol] && rest[eol - i + 1..] == sql[eol + 1..];
    } else {
      assert sql[|sql|..] == "";
    }
    SkipsLine(rest, if eol == -1 then -1 else eol - i);
  }

  lemma ScanStarts(sql: string)
    ensures Scanning(sql, [], "", 0, InDefault, "", 0)
  {
    assert sql[0..] == sql;
    GlueNothing(Chunks(Lex(sql, Start)));
  }

  lemma ScanEnds(sql: string, statements: seq<string>, current: string, state: State, dollarTag: string, body: nat)
    requires Scanning(sql, statements, current, |sql|, state, dollarTag, body)
    ensures Split(sql) == statements + Statement(current)
    ensures Trim(current) != ";"
  {
    assert sql[|sql|..] == "" && current + "" == current;
    assert Statements([current]) == Statement(current);
    NotABareSeparator(current);
  }

  /** One turn of the scanner outside every quote and comment. */
  method ScanDefault(
    sql: string, statements: seq<string>, current: string, i: nat, dollarTag: string, ghost body: nat)
    returns (statements': seq<string>, current': string, i': nat, state': State, dollarTag': string, ghost body': nat)
    requires i < |sql| && Scanning(sql, statements, current, i, InDefault, dollarTag, body)
    ensures i < i' <= |sql| && Scanning(sql, statements', current', i', state', dollarTag', body')
  {
    hide *;
    statements', current', i', state', dollarTag', body' := statements, current, i, InDefault, dollarTag, body;
    var ch := sql[i];
    var next := if i + 1 < |sql| then sql[i + 1] else '\0';
    var tagLength := TagLength(sql[i..]);
    if ch == '-' && next == '-' {
      CommentOpens(sql, statements, current, i, dollarTag, body);
      state' := InLineComment;
      current' := current + [ch];
      i' := i + 1;
    } else if ch == '/' && next == '*' {
      CommentOpens(sql, statements, current, i, dollarTag, body);
      state' := InBlockComment;
      current' := current + [ch];
      i' := i + 1;
    } else if ch == '\'' {
      QuoteOpens(sql, statements, current, i, dollarTag, body);
      state' := InSingleQuote;
      current' := current + [ch];
      i' := i + 1;
    } else if tagLength > 0 {
      DollarOpens(sql, statements, current, i, dollarTag, body);
      dollarTag' := sql[i..][..tagLength];
      state' := InDollarQuote;
      current' := current + dollarTag';
      i' := i + |dollarTag'|;
      body' := i';
    } else if ch == ';' {
      Cuts(sql, statements, current, i, dollarTag, body);
      statements' := statements + Statement(current);
      current' := "";
      i' := i + 1;
    } else if ch == '\\' && (i == 0 || sql[i - 1] == '\n') {
      var eol := IndexOf(sql, '\n', i);
      Skips(sql, statements, current, i, dollarTag, body, eol);
      i' := if eol == -1 then |sql| else eol + 1;
    } else {
      DefaultGoesOn(sql, statements, current, i, dollarTag, body);
      current' := current + [ch];
      i' := i + 1;
    }
  }

  /** One turn of the scanner inside a quote or a comment. */
  method ScanInside(
    sql: string, statements: seq<string>, current: string, i: nat, state: State, dollarTag: string, ghost body: nat)
    returns (current': string, i': nat, state': State, dollarTag': string)
    requires i < |sql| && state != InDefault && Scanning(sql, statements, current, i, state, dollarTag, body)
    ensures i < i' <= |sql| && Scanning(sql, statements, current', i', state', dollarTag', body)
  {
    hide *;
    current', i', state', dollarTag' := current + [sql[i]], i + 1, state, dollarTag;
    var ch := sql[i];
    var next := if i + 1 < |sql| then sql[i + 1] else '\0';
    match state
    case InSingleQuote =>
      if ch == '\'' && next == '\'' {
        QuoteDoubled(sql, statements, current, i, dollarTag, body);
        current' := current + [ch, next];
        i' := i + 2;
      } else {
        OneByOne(sql, statements, current, i, state, dollarTag, body);
        if ch == '\'' {
          state' := InDefault;
        }
      }
    case InLineComment =>
      OneByOne(sql, statements, current, i, state, dollarTag, body);
      if ch == '\n' {
        state' := InDefault;
      }
    case InBlockComment =>
      if ch == '*' && next == '/' {
        BlockCommentCloses(sql, statements, current, i, dollarTag, body);
        current' := current + [ch, next];
        i' := i + 2;
        state' := InDefault;
      } else {
        BlockCommentGoesOn(sql, statements, current, i, dollarTag, body);
      }
    case InDollarQuote =>
      if dollarTag <= sql[i..] {
        DollarCloses(sql, statements, current, i, dollarTag, body);
        current' := current + dollarTag;
        i' := i + |dollarTag|;
        state' := InDefault;
        dollarTag' := "";
      } else {
        DollarGoesOn(sql, statements, current, i, dollarTag, body);
      }
  }

  /** Splitting a dump into statements: the scanner finds exactly the statements of the lexical grammar. */
  method SplitSqlStatements(sql: string) returns (statements: seq<string>)
    ensures statements == Split(sql)
  {
    statements := [];
    var current := "";
    var i := 0;
    var state := InDefault;
    var dollarTag := "";
    ghost var body: nat := 0;
    ScanStarts(sql);
    hide *;
    while i < |sql|
      invariant 0 <= i <= |sql|
      invariant Scanning(sql, statements, current, i, state, dollarTag, body)
    {
      if state == InDefault {
        statements, current, i, state, dollarTag, body :=
          ScanDefault(sql, statements, current, i, dollarTag, body);
      } else {
        current, i, state, dollarTag := ScanInside(sql, statements, current, i, state, dollarTag, body);
      }
    }
    ScanEnds(sql, statements, current, state, dollarTag, body);
    var trailing := Trim(current);
    if |trailing| > 0 && trailing != ";" {
      statements := statements + [trailing];
    }
  }
}
