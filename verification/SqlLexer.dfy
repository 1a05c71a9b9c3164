/**
 * The lexical grammar that the SQL dump splitter follows, as an automaton that reads one character at a time and
 * never looks ahead or back.
 */
module SqlLexer {
  import opened Text
  import opened Seqs

  // Dash, Slash and Tag remember what the scanner of the repository finds by looking ahead from its default state;
  // MetaLine is the rest of a psql meta-line, which it skips in one jump.
  datatype Mode =
    | Default(bol: bool)
    | Dash
    | Slash
    | Tag(opening: string)
    | SingleQuote
    | LineComment
    | BlockComment(star: bool)
    | DollarQuote(tag: string, seen: string)
    | MetaLine

  // What becomes of one character of the dump: part of a statement, a separator, or part of a meta-line.
  datatype Piece = Keep(c: char) | Cut | Drop(c: char)

  // Outside every quote, comment and meta-line.
  predicate Active(m: Mode) { m.Default? || m.Dash? || m.Slash? || m.Tag? }

  // A newline read in this mode leads back to the start of a line outside every quote and comment.
  predicate Settled(m: Mode) { Active(m) || m.LineComment? || m.MetaLine? }

  function Plain(c: char, bol: bool): Mode {
    if c == '-' then Dash
    else if c == '/' then Slash
    else if c == '\'' then SingleQuote
    else if c == '$' then Tag("$")
    else if c == '\\' && bol then MetaLine
    else Default(c == '\n')
  }

  function Next(m: Mode, c: char): Mode {
    match m
    case Default(bol) => Plain(c, bol)
    case Dash => if c == '-' then LineComment else Plain(c, false)
    case Slash => if c == '*' then BlockComment(true) else Plain(c, false)
    case Tag(t) =>
      if IsWordChar(c) then Tag(t + [c]) else if c == '$' then DollarQuote(t + "$", "") else Plain(c, false)
    case SingleQuote => if c == '\'' then Default(false) else SingleQuote
    case LineComment => if c == '\n' then Default(true) else LineComment
    case BlockComment(star) => if star && c == '/' then Default(false) else BlockComment(c == '*')
    case DollarQuote(tag, seen) =>
      if EndsWith(seen + [c], tag) then Default(false) else DollarQuote(tag, seen + [c])
    case MetaLine => if c == '\n' then Default(true) else MetaLine
  }

  function Mark(m: Mode, c: char): Piece {
    if m.MetaLine? || (m == Default(true) && c == '\\') then Drop(c)
    else if Active(m) && c == ';' then Cut
    else Keep(c)
  }

  /** The marked characters of s, read from mode m. */
  function Lex(s: string, m: Mode): seq<Piece> {
    if s == "" then [] else [Mark(m, s[0])] + Lex(s[1..], Next(m, s[0]))
  }

  /** The mode after reading s from mode m. */
  function End(s: string, m: Mode): Mode {
    if s == "" then m else End(s[1..], Next(m, s[0]))
  }

  // The text that the marked characters spell.
  function Source(p: seq<Piece>): string {
    if p == [] then "" else [if p[0].Cut? then ';' else p[0].c] + Source(p[1..])
  }

  function Keeps(s: string): seq<Piece> {
    if s == "" then [] else [Keep(s[0])] + Keeps(s[1..])
  }

  // Put t in front of the first chunk.
  function Glue(t: string, chunks: seq<string>): seq<string>
    requires |chunks| > 0
  {
    [t + chunks[0]] + chunks[1..]
  }

  /** The kept text between the separators: one chunk more than there are separators. */
  function Chunks(p: seq<Piece>): (chunks: seq<string>)
    ensures |chunks| > 0
  {
    if p == [] then [""]
    else
      match p[0]
      case Keep(c) => Glue([c], Chunks(p[1..]))
      case Cut => [""] + Chunks(p[1..])
      case Drop(_) => Chunks(p[1..])
  }

  function Statement(chunk: string): seq<string> { if Trim(chunk) == "" then [] else [Trim(chunk)] }

  /** The chunks that hold a statement, trimmed. */
  function Statements(chunks: seq<string>): seq<string> {
    if chunks == [] then [] else Statement(chunks[0]) + Statements(chunks[1..])
  }

  const Start: Mode := Default(true)

  /** The statements of a dump. */
  function Split(sql: string): seq<string> { Statements(Chunks(Lex(sql, Start))) }

  // ---------- Reading, and reading in two parts ----------

  /** Nothing is lost: the marked characters, in order, spell the dump, and only ';' separates. */
  lemma {:induction false} LexKeepsSource(s: string, m: Mode)
    ensures |Lex(s, m)| == |s| && Source(Lex(s, m)) == s
  {
    if s != "" {
      LexKeepsSource(s[1..], Next(m, s[0]));
    }
  }

  /** Reading a + b is reading a and then b. */
  lemma {:induction false} LexAppend(a: string, b: string, m: Mode)
    ensures Lex(a + b, m) == Lex(a, m) + Lex(b, End(a, m))
    ensures End(a + b, m) == End(b, End(a, m))
  {
    hide Next, Mark;
    if a == "" {
      AppendNothing(b);
      AppendNothing(Lex(b, m));
    } else {
      AppendTail(a, b);
      var m' := Next(m, a[0]);
      LexAppend(a[1..], b, m');
      Associative([Mark(m, a[0])], Lex(a[1..], m'), Lex(b, End(a, m)));
    }
  }

  lemma {:induction false} KeepsAppend(a: string, b: string)
    ensures Keeps(a + b) == Keeps(a) + Keeps(b)
  {
    if a == "" {
      assert a + b == b;
    } else {
      assert (a + b)[1..] == a[1..] + b;
      KeepsAppend(a[1..], b);
    }
  }

  lemma {:induction false} KeepsLength(s: string)
    ensures |Keeps(s)| == |s|
  {
    if s != "" { KeepsLength(s[1..]); }
  }

  lemma GlueNothing(chunks: seq<string>)
    requires |chunks| > 0
    ensures Glue("", chunks) == chunks
  {
    assert "" + chunks[0] == chunks[0];
    assert chunks == [chunks[0]] + chunks[1..];
  }

  lemma GlueTwice(s: string, t: string, chunks: seq<string>)
    requires |chunks| > 0
    ensures Glue(s, Glue(t, chunks)) == Glue(s + t, chunks)
  {
    assert s + (t + chunks[0]) == (s + t) + chunks[0];
  }

  lemma {:induction false} ChunksKeeps(s: string, p: seq<Piece>)
    ensures Chunks(Keeps(s) + p) == Glue(s, Chunks(p))
  {
    if s == "" {
      AppendNothing(p);
      GlueNothing(Chunks(p));
    } else {
      var rest := Keeps(s[1..]) + p;
      Associative([Keep(s[0])], Keeps(s[1..]), p);
      ConsTail(Keep(s[0]), rest);
      ChunksKeeps(s[1..], p);
      Uncons(s);
      hide Keeps;
      assert Chunks(Keeps(s) + p) == Glue([s[0]], Chunks(rest));
      hide Chunks, Glue;
      GlueTwice([s[0]], s[1..], Chunks(p));
    }
  }

  // All chunks but the last.
  function Front(chunks: seq<string>): seq<string>
    requires |chunks| > 0
  { chunks[..|chunks| - 1] }

  function Last(chunks: seq<string>): string
    requires |chunks| > 0
  { chunks[|chunks| - 1] }

  lemma GlueMeets(t: string, a: seq<string>, b: seq<string>)
    requires |a| > 0 && |b| > 0
    ensures Glue(t, Front(a) + Glue(Last(a), b)) == Front(Glue(t, a)) + Glue(Last(Glue(t, a)), b)
  {
    if |a| == 1 {
      assert t + (a[0] + b[0]) == (t + a[0]) + b[0];
    } else {
      assert (Front(a) + Glue(Last(a), b))[1..] == Front(a)[1..] + Glue(Last(a), b);
      assert Front(Glue(t, a)) == [t + a[0]] + Front(a)[1..];
    }
  }

  /** Where two marked texts meet, the last chunk of the one runs on into the first chunk of the other. */
  lemma {:induction false} ChunksAppend(p: seq<Piece>, q: seq<Piece>)
    ensures Chunks(p + q) == Front(Chunks(p)) + Glue(Last(Chunks(p)), Chunks(q))
  {
    if p == [] {
      assert p + q == q;
      GlueNothing(Chunks(q));
    } else {
      assert (p + q)[1..] == p[1..] + q;
      ChunksAppend(p[1..], q);
      var a, b := Chunks(p[1..]), Chunks(q);
      match p[0]
      case Keep(c) =>
        GlueMeets([c], a, b);
      case Cut =>
        var joined := [""] + a;
        assert Front(joined) == [""] + Front(a);
        assert [""] + (Front(a) + Glue(Last(a), b)) == Front(joined) + Glue(Last(joined), b);
      case Drop(_) =>
    }
  }

  lemma {:induction false} StatementsAppend(a: seq<string>, b: seq<string>)
    ensures Statements(a + b) == Statements(a) + Statements(b)
  {
    if a == [] {
      assert a + b == b;
    } else {
      assert (a + b)[1..] == a[1..] + b;
      StatementsAppend(a[1..], b);
    }
  }
}
