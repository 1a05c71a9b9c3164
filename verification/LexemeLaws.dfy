/** How each kind of text is read outside quotes and comments, stated without the automaton's steps. */
module LexemeLaws {
  import opened Text
  import opened Seqs
  import opened SqlLexer
  import SplitterLaws

  /** All characters of a kept text are kept, in order. */
  lemma {:induction false} KeepsAll(s: string)
    ensures |Keeps(s)| == |s| && forall k :: 0 <= k < |s| ==> Keeps(s)[k] == Keep(s[k])
  {
    if s != "" { KeepsAll(s[1..]); }
  }

  // x is read from mode m as part of a statement, whatever follows it.
  lemma KeptThen(x: string, rest: string, m: Mode)
    requires Lex(x, m) == Keeps(x)
    ensures Lex(x + rest, m) == Keeps(x) + Lex(rest, End(x, m))
  {
    LexAppend(x, rest, m);
  }

  lemma KeptTogether(x: string, y: string, m: Mode)
    requires Lex(x, m) == Keeps(x) && Lex(y, End(x, m)) == Keeps(y)
    ensures Lex(x + y, m) == Keeps(x + y) && End(x + y, m) == End(y, End(x, m))
  {
    LexAppend(x, y, m);
    KeepsAppend(x, y);
  }

  lemma One(c: char, m: Mode)
    ensures Lex([c], m) == [Mark(m, c)] && End([c], m) == Next(m, c) && Keeps([c]) == [Keep(c)]
  {
    assert [c][1..] == [];
    hide Mark, Next;
  }

  // ---------- Dollar quotes ----------

  // The characters that a dollar-quote tag may have between its dollar signs.
  predicate IsTagChar(c: char) { 'A' <= c <= 'Z' || 'a' <= c <= 'z' || '0' <= c <= '9' || c == '_' }

  // tag occurs in body + tag at its very end only.
  ghost predicate EndsOnlyAtLast(body: string, tag: string) {
    forall a, b :: body + tag == a + tag + b ==> b == ""
  }

  lemma {:induction false} TagRead(w: string, t: string)
    requires forall i :: 0 <= i < |w| ==> IsTagChar(w[i])
    ensures Lex(w, Tag(t)) == Keeps(w) && End(w, Tag(t)) == Tag(t + w)
  {
    if w == "" {
      AppendNothing(t);
    } else {
      TagRead(w[1..], t + [w[0]]);
      Uncons(w);
      Associative(t, [w[0]], w[1..]);
    }
  }

  lemma {:induction false} BodyRead(body: string, tag: string, seen: string)
    requires forall n :: |seen| < n <= |seen + body| ==> !EndsWith((seen + body)[..n], tag)
    ensures Lex(body, DollarQuote(tag, seen)) == Keeps(body)
    ensures End(body, DollarQuote(tag, seen)) == DollarQuote(tag, seen + body)
  {
    if body == "" {
      AppendNothing(seen);
    } else {
      var seen' := seen + [body[0]];
      Uncons(body);
      Associative(seen, [body[0]], body[1..]);
      assert (seen + body)[..|seen| + 1] == seen';
      hide EndsWith;
      BodyRead(body[1..], tag, seen');
    }
  }

  /**
   * A dollar quote, with any tag of letters, digits and underscores or with none, is kept whole up to its closing tag,
   * whatever it holds, and also if it is not closed.
   */
  lemma DollarQuoted(w: string, body: string, bol: bool)
    requires forall i :: 0 <= i < |w| ==> IsTagChar(w[i])
    requires EndsOnlyAtLast(body, "$" + w + "$")
    ensures var tag := "$" + w + "$";
            && Lex(tag + body, Default(bol)) == Keeps(tag + body)
            && Lex(tag + body + tag, Default(bol)) == Keeps(tag + body + tag)
            && End(tag + body + tag, Default(bol)) == Default(false)
  {
    var tag := "$" + w + "$";
    TagOpens(w, bol);
    hide Lex, End, Keeps;
    BodyCloses(body, tag);
    KeptTogether(tag, body + tag, Default(bol));
    Associative(tag, body, tag);
    SplitterLaws.KeepsSplit(tag + body, tag, Default(bol));
  }

  lemma BodyCloses(body: string, tag: string)
    requires EndsOnlyAtLast(body, tag) && tag != ""
    ensures var m := DollarQuote(tag, "");
            Lex(body + tag, m) == Keeps(body + tag) && End(body + tag, m) == Default(false)
  {
    hide *;
    var all := body + tag;
    var inside, last := all[..|all| - 1], all[|all| - 1];
    assert all == inside + [last];
    forall n | 0 < n <= |inside| ensures !EndsWith(inside[..n], tag) {
      EndsEarlier(body, tag, n);
      PrefixOfPrefix(all, |all| - 1, n);
    }
    LastCloses(body, tag);
    BodyReadFromStart(inside, tag);
    LastRead(inside, last, tag);
    KeptTogether(inside, [last], DollarQuote(tag, ""));
  }

  lemma PrefixOfPrefix(s: string, m: nat, n: nat)
    requires n <= m <= |s|
    ensures s[..m][..n] == s[..n]
  {
  }

  lemma LastCloses(body: string, tag: string)
    ensures EndsWith(body + tag, tag)
  {
    assert (body + tag)[|body|..] == tag;
  }

  lemma LastRead(inside: string, last: char, tag: string)
    requires EndsWith(inside + [last], tag)
    ensures var m := DollarQuote(tag, inside);
            Lex([last], m) == Keeps([last]) && End([last], m) == Default(false)
  {
    One(last, DollarQuote(tag, inside));
    hide Lex, End, Keeps, EndsWith;
  }

  lemma BodyReadFromStart(inside: string, tag: string)
    requires forall n :: 0 < n <= |inside| ==> !EndsWith(inside[..n], tag)
    ensures var m := DollarQuote(tag, "");
            Lex(inside, m) == Keeps(inside) && End(inside, m) == DollarQuote(tag, inside)
  {
    assert "" + inside == inside;
    hide EndsWith, Lex, End, Keeps;
    BodyRead(inside, tag, "");
  }

  lemma EndsEarlier(body: string, tag: string, n: nat)
    requires EndsOnlyAtLast(body, tag) && n < |body + tag|
    ensures !EndsWith((body + tag)[..n], tag)
  {
    var all := body + tag;
    var a, b := if |tag| <= n then all[..n][..n - |tag|] else "", all[n..];
    assert all == all[..n] + b && b != "";
    EndsWithIs(all[..n], tag);
    hide EndsWith;
    assert all == a + tag + b ==> b == "";
  }

  lemma EndsWithIs(s: string, tag: string)
    ensures EndsWith(s, tag) ==> |tag| <= |s| && s == s[..|s| - |tag|] + tag
  {
  }

  lemma TagOpens(w: string, bol: bool)
    requires forall i :: 0 <= i < |w| ==> IsTagChar(w[i])
    ensures var tag := "$" + w + "$";
            Lex(tag, Default(bol)) == Keeps(tag) && End(tag, Default(bol)) == DollarQuote(tag, "")
  {
    One('$', Default(bol));
    TagRead(w, "$");
    One('$', Tag("$" + w));
    hide Lex, End, Keeps;
    KeptTogether("$", w, Default(bol));
    KeptTogether("$" + w, "$", Default(bol));
  }

  /** A dollar sign that opens no dollar quote is kept like any other character. */
  lemma LoneDollar(w: string, rest: string, bol: bool)
    requires forall i :: 0 <= i < |w| ==> IsTagChar(w[i])
    requires rest != "" ==> !IsTagChar(rest[0]) && rest[0] != '$'
    ensures Lex("$" + w + rest, Default(bol)) == Keeps("$" + w) + Lex(rest, Default(false))
  {
    One('$', Default(bol));
    TagRead(w, "$");
    KeptTogether("$", w, Default(bol));
    KeptThen("$" + w, rest, Default(bol));
    assert Lex(rest, Tag("$" + w)) == Lex(rest, Default(false));
  }

  // ---------- String constants ----------

  // The text of a string constant, in which a quote is written twice.
  function Doubled(s: string): string {
    if s == "" then "" else (if s[0] == '\'' then "''" else [s[0]]) + Doubled(s[1..])
  }

  lemma {:induction false} StringRead(s: string)
    ensures Lex(Doubled(s), SingleQuote) == Keeps(Doubled(s)) && End(Doubled(s), SingleQuote) == SingleQuote
  {
    if s != "" {
      StringRead(s[1..]);
      if s[0] == '\'' {
        One('\'', SingleQuote);
        One('\'', Default(false));
        hide Lex, End, Keeps;
        KeptTogether("'", "'", SingleQuote);
        assert "'" + "'" == "''";
        KeptTogether("''", Doubled(s[1..]), SingleQuote);
      } else {
        One(s[0], SingleQuote);
        hide Lex, End, Keeps;
        KeptTogether([s[0]], Doubled(s[1..]), SingleQuote);
      }
    }
  }

  /** A string constant is kept whole, whatever it holds, and also if it is not closed. */
  lemma Quoted(s: string, bol: bool)
    ensures Lex("'" + Doubled(s), Default(bol)) == Keeps("'" + Doubled(s))
    ensures var x := "'" + Doubled(s) + "'";
            Lex(x, Default(bol)) == Keeps(x) && End(x, Default(bol)) == Default(false)
  {
    One('\'', Default(bol));
    StringRead(s);
    One('\'', SingleQuote);
    hide Lex, End, Keeps;
    KeptTogether("'", Doubled(s), Default(bol));
    KeptTogether("'" + Doubled(s), "'", Default(bol));
  }

  // ---------- Comments ----------

  lemma {:induction false} CommentRead(s: string)
    requires '\n' !in s
    ensures Lex(s, LineComment) == Keeps(s) && End(s, LineComment) == LineComment
  {
    if s != "" { CommentRead(s[1..]); }
  }

  /** A line comment is kept whole up to the end of its line or of the dump; then a line begins. */
  lemma LineCommented(s: string, bol: bool)
    requires '\n' !in s
    ensures Lex("--" + s, Default(bol)) == Keeps("--" + s)
    ensures var x := "--" + s + "\n";
            Lex(x, Default(bol)) == Keeps(x) && End(x, Default(bol)) == Default(true)
  {
    One('-', Default(bol));
    One('-', Dash);
    CommentRead(s);
    One('\n', LineComment);
    hide Lex, End, Keeps;
    KeptTogether("-", "-", Default(bol));
    assert "-" + "-" == "--";
    KeptTogether("--", s, Default(bol));
    KeptTogether("--" + s, "\n", Default(bol));
  }

  /** A single dash opens no comment. */
  lemma LoneDash(rest: string, bol: bool)
    requires rest == "" || rest[0] != '-'
    ensures Lex("-" + rest, Default(bol)) == [Keep('-')] + Lex(rest, Default(false))
  {
    assert ("-" + rest)[1..] == rest;
  }

  // Whether the last character read is a star.
  lemma {:induction false} BlockRead(s: string, star: bool)
    requires s != "" && s[0] == '/' ==> !star
    requires forall n :: 0 < n < |s| && s[n] == '/' ==> s[n - 1] != '*'
    ensures Lex(s, BlockComment(star)) == Keeps(s)
    ensures End(s, BlockComment(star)) == BlockComment(if s == "" then star else s[|s| - 1] == '*')
  {
    if s != "" {
      Uncons(s);
      assert forall n :: 0 <= n < |s[1..]| ==> s[1..][n] == s[n + 1];
      One(s[0], BlockComment(star));
      BlockRead(s[1..], s[0] == '*');
      KeptTogether([s[0]], s[1..], BlockComment(star));
    }
  }

  /**
   * A block comment is kept whole up to the first slash behind a star, be it the star that opens it, and also if there
   * is none; comments do not nest.
   */
  lemma BlockCommented(body: string, bol: bool)
    requires body != "" ==> body[0] != '/'
    requires forall n :: 0 < n < |body| && body[n] == '/' ==> body[n - 1] != '*'
    ensures Lex("/*" + body, Default(bol)) == Keeps("/*" + body)
    ensures var x := "/*" + body + "*/";
            Lex(x, Default(bol)) == Keeps(x) && End(x, Default(bol)) == Default(false)
  {
    One('/', Default(bol));
    One('*', Slash);
    BlockRead(body, true);
    var star := if body == "" then true else body[|body| - 1] == '*';
    One('*', BlockComment(star));
    One('/', BlockComment(true));
    hide Lex, End, Keeps;
    hide Next, Mark;
    KeptTogether("/", "*", Default(bol));
    assert "/" + "*" == "/*";
    KeptTogether("/*", body, Default(bol));
    KeptTogether("/*" + body, "*", Default(bol));
    KeptTogether("/*" + body + "*", "/", Default(bol));
    Associative("/*" + body, "*", "/");
    assert "*" + "/" == "*/";
  }

  /** A single slash opens no comment. */
  lemma LoneSlash(rest: string, bol: bool)
    requires rest == "" || rest[0] != '*'
    ensures Lex("/" + rest, Default(bol)) == [Keep('/')] + Lex(rest, Default(false))
  {
    assert ("/" + rest)[1..] == rest;
  }

  // ---------- Semicolons, meta-lines and everything else ----------

  /** Outside quotes and comments a semicolon separates. */
  lemma Semicolon(rest: string, bol: bool)
    ensures Lex(";" + rest, Default(bol)) == [Cut] + Lex(rest, Default(false))
  {
    assert (";" + rest)[1..] == rest;
  }

  lemma {:induction false} MetaRead(s: string)
    requires '\n' !in s
    ensures End(s, MetaLine) == MetaLine && |Lex(s, MetaLine)| == |s|
    ensures forall k :: 0 <= k < |s| ==> Lex(s, MetaLine)[k] == Drop(s[k])
  {
    if s != "" { MetaRead(s[1..]); }
  }

  /** A line that a backslash starts is dropped, with the end of the line. */
  lemma MetaLineDropped(s: string, rest: string)
    requires '\n' !in s
    ensures var x := "\\" + s + "\n";
            var p := Lex(x + rest, Start);
            && |p| == |x + rest|
            && (forall k :: 0 <= k < |x| ==> p[k] == Drop(x[k]))
            && p[|x|..] == Lex(rest, Start)
  {
    var x := "\\" + s + "\n";
    One('\\', Start);
    MetaRead(s);
    One('\n', MetaLine);
    LexAppend("\\", s, Start);
    LexAppend("\\" + s, "\n", Start);
    LexAppend(x, rest, Start);
    LexKeepsSource(rest, Start);
    hide Lex, End;
    var p := Lex(x, Start);
    assert p == [Drop('\\')] + Lex(s, MetaLine) + [Drop('\n')];
    forall k | 0 <= k < |x| ensures p[k] == Drop(x[k]) {
      if 0 < k <= |s| { assert p[k] == Lex(s, MetaLine)[k - 1]; }
    }
  }

  /** Any other character is kept, and so is a backslash that does not start its line. */
  lemma OtherChar(c: char, rest: string, bol: bool)
    requires c !in "-/'$;\\" || (c == '\\' && !bol)
    ensures Lex([c] + rest, Default(bol)) == [Keep(c)] + Lex(rest, Default(c == '\n'))
  {
    assert ([c] + rest)[1..] == rest;
  }

  // ---------- What is quoted does not separate ----------

  lemma {:induction false} PlainRead(s: string, bol: bool)
    requires forall i :: 0 <= i < |s| ==> s[i] !in "-/'$;\\"
    ensures Lex(s, Default(bol)) == Keeps(s) && End(s, Default(bol)).Default?
  {
    if s != "" {
      Uncons(s);
      One(s[0], Default(bol));
      PlainRead(s[1..], s[0] == '\n');
      KeptTogether([s[0]], s[1..], Default(bol));
    }
  }

  /**
   * A statement that holds a dollar quote, a string constant or a comment x between ordinary texts is one statement,
   * whatever semicolons x holds, and the next one begins behind its own semicolon.
   */
  lemma OneStatement(before: string, x: string, after: string, more: string)
    requires forall i :: 0 <= i < |before| ==> before[i] !in "-/'$;\\"
    requires forall i :: 0 <= i < |after| ==> after[i] !in "-/'$;\\"
    requires forall bol :: Lex(x, Default(bol)) == Keeps(x) && End(x, Default(bol)).Default?
    requires !Blank(x)
    ensures Split(before + x + after + ";") == [Trim(before + x + after)]
    ensures Split(before + x + after + ";" + more)
            == [Trim(before + x + after)] + Statements(Chunks(Lex(more, Default(false))))
  {
    var s := before + x + after;
    PlainRead(before, true);
    var m := End(before, Start);
    KeptTogether(before, x, Start);
    var m' := End(before + x, Start);
    PlainRead(after, m'.bol);
    KeptTogether(before + x, after, Start);
    assert Trim(s) != "" by {
      TrimBlank(s);
      var i :| 0 <= i < |x| && !IsSpace(x[i]);
      assert s[|before| + i] == x[i];
    }
    var d := End(s, Start);
    SeparatedBy(s, more, d);
    SeparatedBy(s, "", d);
    assert s + ";" + "" == s + ";";
  }

  /** So a function body between dollar quotes is not cut at its semicolons. */
  lemma FunctionBodyKept(before: string, w: string, body: string, after: string)
    requires forall i :: 0 <= i < |before| ==> before[i] !in "-/'$;\\"
    requires forall i :: 0 <= i < |after| ==> after[i] !in "-/'$;\\"
    requires forall i :: 0 <= i < |w| ==> IsTagChar(w[i])
    requires EndsOnlyAtLast(body, "$" + w + "$")
    ensures var x := "$" + w + "$" + body + ("$" + w + "$");
            Split(before + x + after + ";") == [Trim(before + x + after)]
  {
    var x := "$" + w + "$" + body + ("$" + w + "$");
    forall bol ensures Lex(x, Default(bol)) == Keeps(x) && End(x, Default(bol)) == Default(false) {
      DollarQuoted(w, body, bol);
    }
    assert !Blank(x) by { assert x[0] == '$'; }
    hide Lex, End, Keeps, Split, Trim, Blank;
    OneStatement(before, x, after, "");
  }

  lemma SeparatedBy(s: string, more: string, d: Mode)
    requires Lex(s, Start) == Keeps(s) && End(s, Start) == d && d.Default? && Trim(s) != ""
    ensures Split(s + ";" + more) == [Trim(s)] + Statements(Chunks(Lex(more, Default(false))))
  {
    KeptThen(s, ";" + more, Start);
    Semicolon(more, d.bol);
    Associative(s, ";", more);
    var p := Lex(more, Default(false));
    ChunksKeeps(s, [Cut] + p);
    ConsTail(Cut, p);
    assert Chunks([Cut] + p) == [""] + Chunks(p);
    AppendNothing(s);
    hide Lex, Keeps, Chunks, Trim;
    assert Glue(s, [""] + Chunks(p)) == [s] + Chunks(p);
    ConsTail(s, Chunks(p));
  }
}
