/** What the importer's regular expressions match, written out: words in any case, blanks and what is between. */
module PatternForms {
  import opened Text
  import opened Seqs
  import opened CopyBlocks
  import opened SqlImport
  import LexemeLaws

  // a is a word in any mixture of its lower-case and upper-case spelling.
  ghost predicate Spelled(a: string, lower: string, upper: string) {
    |a| == |lower| == |upper| && forall i :: 0 <= i < |a| ==> a[i] == lower[i] || a[i] == upper[i]
  }

  // Two spellings of one word.
  ghost predicate Cased(lower: string, upper: string) {
    |lower| == |upper| && forall i :: 0 <= i < |lower| ==>
      if 'a' <= lower[i] <= 'z' then upper[i] as int == lower[i] as int - 'a' as int + 'A' as int
      else upper[i] == lower[i] && !('A' <= lower[i] <= 'Z')
  }

  lemma StartsSpelled(s: string, lower: string, upper: string)
    requires Cased(lower, upper)
    ensures StartsWithWord(s, lower) <==> |lower| <= |s| && Spelled(s[..|lower|], lower, upper)
  {
    if |lower| <= |s| {
      assert forall i :: 0 <= i < |lower| ==> (Lower(s[i]) == lower[i] <==> s[i] == lower[i] || s[i] == upper[i]);
      assert forall i :: 0 <= i < |lower| ==> s[..|lower|][i] == s[i];
    }
  }

  // The word at the start of a text, and what follows it.
  lemma WordThen(a: string, rest: string, lower: string, upper: string)
    requires Cased(lower, upper) && Spelled(a, lower, upper)
    ensures StartsWithWord(a + rest, lower) && (a + rest)[|lower|..] == rest
  {
    assert (a + rest)[..|lower|] == a;
    StartsSpelled(a + rest, lower, upper);
  }

  lemma WordAhead(s: string, lower: string, upper: string)
    requires Cased(lower, upper) && StartsWithWord(s, lower)
    ensures Spelled(s[..|lower|], lower, upper) && s == s[..|lower|] + s[|lower|..]
  {
    StartsSpelled(s, lower, upper);
  }

  // A word begins with no blank, so that blanks before it are all there are.
  lemma BlanksThen(gap: string, t: string)
    requires Blank(gap) && (t == "" || !IsSpace(t[0]))
    ensures TrimStart(gap + t) == t && SpaceRun(gap + t) == |gap|
  {
    TrimStartPadded(gap, t);
    RunOfBlanks(gap, t);
  }

  lemma {:induction false} RunOfBlanks(gap: string, t: string)
    requires Blank(gap) && (t == "" || !IsSpace(t[0]))
    ensures SpaceRun(gap + t) == |gap|
  {
    if gap == "" {
      AppendNothing(t);
    } else {
      AppendTail(gap, t);
      RunOfBlanks(gap[1..], t);
    }
  }

  lemma {:induction false} BlanksAhead(s: string)
    ensures var n := SpaceRun(s);
            Blank(s[..n]) && s[n..] == TrimStart(s) && s == s[..n] + s[n..]
    ensures TrimStart(s) == "" || !IsSpace(TrimStart(s)[0])
  {
    if s != "" && IsSpace(s[0]) {
      BlanksAhead(s[1..]);
      assert s[1..][SpaceRun(s[1..])..] == s[SpaceRun(s)..];
      assert forall i :: 0 < i < SpaceRun(s) ==> s[i] == s[1..][..SpaceRun(s[1..])][i - 1];
    }
  }

  // ---------- Statements that the importer skips ----------

  // "set", blanks, "search_path", anything.
  ghost predicate SetForm(s: string) {
    exists a, gap, b, more :: s == a + (gap + (b + more)) && Spelled(a, "set", "SET")
                              && gap != "" && Blank(gap) && Spelled(b, "search_path", "SEARCH_PATH")
  }

  // Blanks, "'search_path'", anything.
  ghost predicate ArgumentForm(s: string) {
    exists gap, a, more :: s == gap + (a + more) && Blank(gap) && Spelled(a, "'search_path'", "'SEARCH_PATH'")
  }

  // "pg_catalog.set_config", blanks, "(" and the argument.
  ghost predicate ConfigForm(s: string) {
    exists a, gap, more :: s == a + (gap + ("(" + more)) && Blank(gap) && ArgumentForm(more)
                           && Spelled(a, "pg_catalog.set_config", "PG_CATALOG.SET_CONFIG")
  }

  // "select", blanks and the call.
  ghost predicate SelectForm(s: string) {
    exists a, gap, more :: s == a + (gap + more) && Spelled(a, "select", "SELECT")
                           && gap != "" && Blank(gap) && ConfigForm(more)
  }

  // A backslash, a letter, anything.
  ghost predicate MetaForm(s: string) {
    |s| >= 2 && s[0] == '\\' && ('a' <= s[1] <= 'z' || 'A' <= s[1] <= 'Z')
  }

  ghost predicate SkippedForm(stmt: string) {
    exists lead, s :: stmt == lead + s && Blank(lead) && (SetForm(s) || SelectForm(s) || MetaForm(s))
  }

  lemma Words()
    ensures Cased("set", "SET") && Cased("select", "SELECT")
    ensures Cased("search_path", "SEARCH_PATH") && Cased("'search_path'", "'SEARCH_PATH'")
  {
  }

  lemma ConfigWord()
    ensures Cased("pg_catalog.set_config", "PG_CATALOG.SET_CONFIG")
  {
  }

  lemma CopyWords()
    ensures Cased("copy", "COPY") && Cased("from", "FROM") && Cased("stdin", "STDIN")
  {
  }

  // A text that begins with a spelled word begins with no blank.
  lemma WordIsSolid(a: string, rest: string, lower: string, upper: string)
    requires Spelled(a, lower, upper) && a != "" && !IsSpace(lower[0]) && !IsSpace(upper[0])
    ensures a + rest != "" && !IsSpace((a + rest)[0])
  {
  }

  lemma SetIs(s: string)
    ensures SetsSearchPath(s) <==> SetForm(s)
  {
    Words();
    hide Cased, Spelled, StartsWithWord, TrimStart, SpaceRun, Blank;
    if SetsSearchPath(s) {
      WordAhead(s, "set", "SET");
      BlanksAhead(s[3..]);
      var t := TrimStart(s[3..]);
      WordAhead(t, "search_path", "SEARCH_PATH");
      assert s == s[..3] + (s[3..][..SpaceRun(s[3..])] + (t[..11] + t[11..]));
    }
    if SetForm(s) {
      var a, gap, b, more :| s == a + (gap + (b + more)) && Spelled(a, "set", "SET")
                             && gap != "" && Blank(gap) && Spelled(b, "search_path", "SEARCH_PATH");
      WordThen(a, gap + (b + more), "set", "SET");
      assert b != "" by { SpelledLength(b, "search_path", "SEARCH_PATH"); }
      WordIsSolid(b, more, "search_path", "SEARCH_PATH");
      BlanksThen(gap, b + more);
      WordThen(b, more, "search_path", "SEARCH_PATH");
    }
  }

  lemma SpelledLength(a: string, lower: string, upper: string)
    requires Spelled(a, lower, upper)
    ensures |a| == |lower|
  {
  }

  lemma ArgumentIs(s: string)
    ensures StartsWithWord(TrimStart(s), "'search_path'") <==> ArgumentForm(s)
  {
    Words();
    hide Cased, Spelled, StartsWithWord, TrimStart, SpaceRun, Blank;
    var t := TrimStart(s);
    if StartsWithWord(t, "'search_path'") {
      BlanksAhead(s);
      WordAhead(t, "'search_path'", "'SEARCH_PATH'");
      assert s == s[..SpaceRun(s)] + (t[..13] + t[13..]);
    }
    if ArgumentForm(s) {
      var gap, a, more :| s == gap + (a + more) && Blank(gap) && Spelled(a, "'search_path'", "'SEARCH_PATH'");
      SpelledLength(a, "'search_path'", "'SEARCH_PATH'");
      WordIsSolid(a, more, "'search_path'", "'SEARCH_PATH'");
      BlanksThen(gap, a + more);
      WordThen(a, more, "'search_path'", "'SEARCH_PATH'");
    }
  }

  // The call of set_config at the start of a text.
  predicate CallsSetConfig(s: string) {
    StartsWithWord(s, "pg_catalog.set_config") && SearchPathArgument(s[21..])
  }

  lemma ConfigIs(s: string)
    ensures CallsSetConfig(s) <==> ConfigForm(s)
  {
    ConfigWord();
    hide Cased, Spelled, StartsWithWord, TrimStart, SpaceRun, Blank, ArgumentForm;
    if CallsSetConfig(s) {
      WordAhead(s, "pg_catalog.set_config", "PG_CATALOG.SET_CONFIG");
      BlanksAhead(s[21..]);
      var t := TrimStart(s[21..]);
      ArgumentIs(t[1..]);
      assert s == s[..21] + (s[21..][..SpaceRun(s[21..])] + ("(" + t[1..]));
    }
    if ConfigForm(s) {
      var a, gap, more :| s == a + (gap + ("(" + more)) && Blank(gap) && ArgumentForm(more)
                          && Spelled(a, "pg_catalog.set_config", "PG_CATALOG.SET_CONFIG");
      WordThen(a, gap + ("(" + more), "pg_catalog.set_config", "PG_CATALOG.SET_CONFIG");
      BlanksThen(gap, "(" + more);
      assert ("(" + more)[1..] == more;
      ArgumentIs(more);
    }
  }

  lemma SelectIs(s: string)
    ensures SelectsSetConfig(s) <==> SelectForm(s)
  {
    Words();
    hide Cased, Spelled, StartsWithWord, TrimStart, SpaceRun, Blank, ConfigForm, SearchPathArgument;
    if SelectsSetConfig(s) {
      WordAhead(s, "select", "SELECT");
      BlanksAhead(s[6..]);
      var t := TrimStart(s[6..]);
      ConfigIs(t);
      assert s == s[..6] + (s[6..][..SpaceRun(s[6..])] + t);
    }
    if SelectForm(s) {
      var a, gap, more :| s == a + (gap + more) && Spelled(a, "select", "SELECT")
                          && gap != "" && Blank(gap) && ConfigForm(more);
      WordThen(a, gap + more, "select", "SELECT");
      ConfigSolid(more);
      BlanksThen(gap, more);
      ConfigIs(more);
    }
  }

  lemma ConfigSolid(s: string)
    requires ConfigForm(s)
    ensures s != "" && !IsSpace(s[0])
  {
    hide Blank, ArgumentForm, Spelled;
    var a, gap, more :| s == a + (gap + ("(" + more)) && Blank(gap) && ArgumentForm(more)
                        && Spelled(a, "pg_catalog.set_config", "PG_CATALOG.SET_CONFIG");
    SpelledLength(a, "pg_catalog.set_config", "PG_CATALOG.SET_CONFIG");
    WordIsSolid(a, gap + ("(" + more), "pg_catalog.set_config", "PG_CATALOG.SET_CONFIG");
  }

  lemma FormsAreSolid(s: string)
    requires SetForm(s) || SelectForm(s) || MetaForm(s)
    ensures s != "" && !IsSpace(s[0])
  {
    hide Blank, Spelled, ConfigForm;
    if SetForm(s) {
      var a, gap, b, more :| s == a + (gap + (b + more)) && Spelled(a, "set", "SET")
                             && gap != "" && Blank(gap) && Spelled(b, "search_path", "SEARCH_PATH");
      SpelledLength(a, "set", "SET");
      WordIsSolid(a, gap + (b + more), "set", "SET");
    } else if SelectForm(s) {
      var a, gap, more :| s == a + (gap + more) && Spelled(a, "select", "SELECT")
                          && gap != "" && Blank(gap) && ConfigForm(more);
      SpelledLength(a, "select", "SELECT");
      WordIsSolid(a, gap + more, "select", "SELECT");
    }
  }

  /** The importer skips exactly the settings of the search path and the psql commands. */
  lemma SkippedIs(stmt: string)
    ensures ShouldSkip(stmt) <==> SkippedForm(stmt)
  {
    var s := TrimStart(stmt);
    BlanksAhead(stmt);
    SetIs(s);
    SelectIs(s);
    hide SetForm, SelectForm, SetsSearchPath, SelectsSetConfig, Blank, TrimStart, SpaceRun;
    if SkippedForm(stmt) {
      var lead, t :| stmt == lead + t && Blank(lead) && (SetForm(t) || SelectForm(t) || MetaForm(t));
      FormsAreSolid(t);
      BlanksThen(lead, t);
    }
  }

  /**
   * So an import runs the SQL statements of the dump, in order, without those, and counts those as skipped; a dry run
   * also counts the COPY blocks and their rows.
   */
  lemma {:induction false} ImportRuns(before: seq<Token>, t: Token, after: seq<Token>)
    ensures ToRun([]) == [] && Skipped([]) == CopyCount([]) == RowTotal([]) == 0
    ensures var skips := t.Sql? && SkippedForm(t.text);
            && ToRun(before + [t] + after) ==
               ToRun(before) + (if t.Sql? && !skips then [t.text] else []) + ToRun(after)
            && Skipped(before + [t] + after) == Skipped(before) + (if skips then 1 else 0) + Skipped(after)
            && CopyCount(before + [t] + after) == CopyCount(before) + (if t.Copy? then 1 else 0) + CopyCount(after)
            && RowTotal(before + [t] + after) ==
               RowTotal(before) + (if t.Copy? then |t.rows| else 0) + RowTotal(after)
  {
    hide SkippedForm, ShouldSkip;
    if t.Sql? { SkippedIs(t.text); }
    TokenAdded(before, t);
    RunAppend(before + [t], after);
  }

  lemma {:induction false} RunAppend(a: seq<Token>, b: seq<Token>)
    ensures ToRun(a + b) == ToRun(a) + ToRun(b) && Skipped(a + b) == Skipped(a) + Skipped(b)
    ensures CopyCount(a + b) == CopyCount(a) + CopyCount(b) && RowTotal(a + b) == RowTotal(a) + RowTotal(b)
  {
    hide ShouldSkip;
    if a == [] {
      AppendNothing(b);
      AppendNothing(ToRun(b));
    } else {
      AppendTail(a, b);
      RunAppend(a[1..], b);
      var t := a[0];
      Associative(if t.Sql? && !ShouldSkip(t.text) then [t.text] else [], ToRun(a[1..]), ToRun(b));
    }
  }

  // ---------- Header lines of COPY blocks ----------

  // "stdin" where the word ends.
  ghost predicate StdinForm(s: string) {
    exists a, more :: s == a + more && Spelled(a, "stdin", "STDIN") &&
                      (more != "" ==> !LexemeLaws.IsTagChar(more[0]))
  }

  // A blank, "from", blanks and "stdin".
  ghost predicate FromForm(s: string) {
    exists c, a, gap, more :: s == [c] + (a + (gap + more)) && IsSpace(c) && Spelled(a, "from", "FROM")
                              && gap != "" && Blank(gap) && StdinForm(more)
  }

  // One character or more of a line, and then that.
  ghost predicate NamedForm(s: string) {
    exists name, more :: s == name + more && FromForm(more) && name != "" &&
                         forall i :: 0 <= i < |name| ==> name[i] !in "\n\r\U{2028}\U{2029}"
  }

  ghost predicate SpacedForm(s: string) {
    exists gap, more :: s == gap + more && gap != "" && Blank(gap) && NamedForm(more)
  }

  // Blanks, "copy", blanks, a name and what it is copied from, anything.
  ghost predicate CopyForm(line: string) {
    exists lead, a, more :: line == lead + (a + more) && Blank(lead) && Spelled(a, "copy", "COPY") && SpacedForm(more)
  }

  lemma StdinIs(s: string)
    ensures Stdin(s) <==> StdinForm(s)
  {
    CopyWords();
    hide Cased, Spelled, StartsWithWord;
    if Stdin(s) {
      WordAhead(s, "stdin", "STDIN");
      assert |s| > 5 ==> s[5..][0] == s[5];
    }
    if StdinForm(s) {
      var a, more :| s == a + more && Spelled(a, "stdin", "STDIN") && (more != "" ==> !IsWordChar(more[0]));
      WordThen(a, more, "stdin", "STDIN");
      assert more != "" ==> s[5] == more[0];
    }
  }

  lemma StdinIsSolid(s: string)
    requires StdinForm(s)
    ensures s != "" && !IsSpace(s[0])
  {
    hide Spelled;
    var a, more :| s == a + more && Spelled(a, "stdin", "STDIN");
    SpelledLength(a, "stdin", "STDIN");
    WordIsSolid(a, more, "stdin", "STDIN");
  }

  lemma FromIs(s: string)
    ensures FromStdin(s) <==> FromForm(s)
  {
    CopyWords();
    hide Cased, Spelled, StartsWithWord, SpaceRun, Blank, Stdin, StdinForm, IsSpace;
    if FromStdin(s) {
      var t := s[1..];
      WordAhead(t, "from", "FROM");
      assert t[4..] == s[5..];
      BlanksAhead(s[5..]);
      var n := SpaceRun(s[5..]);
      assert s[5..][n..] == s[5 + n..];
      StdinIs(s[5 + n..]);
      assert s == [s[0]] + (t[..4] + (s[5..][..n] + s[5 + n..]));
    }
    if FromForm(s) {
      var c, a, gap, more :| s == [c] + (a + (gap + more)) && IsSpace(c) && Spelled(a, "from", "FROM")
                             && gap != "" && Blank(gap) && StdinForm(more);
      ConsTail(c, a + (gap + more));
      WordThen(a, gap + more, "from", "FROM");
      assert s[5..] == s[1..][4..] == gap + more;
      StdinIsSolid(more);
      BlanksThen(gap, more);
      assert s[5 + |gap|..] == s[5..][|gap|..] == more;
      StdinIs(more);
    }
  }

  lemma {:induction false} NamedIs(s: string)
    ensures NamedFromStdin(s) <==> NamedForm(s)
  {
    hide FromForm, FromStdin;
    if s != "" {
      NamedIs(s[1..]);
      FromIs(s[1..]);
      Uncons(s);
      if NamedFromStdin(s) {
        if FromStdin(s[1..]) {
          assert s == [s[0]] + s[1..];
        } else {
          var name, more :| s[1..] == name + more && FromForm(more) && name != "" &&
                            forall i :: 0 <= i < |name| ==> name[i] !in "\n\r\U{2028}\U{2029}";
          Associative([s[0]], name, more);
          assert s == ([s[0]] + name) + more;
        }
      }
      if NamedForm(s) {
        var name, more :| s == name + more && FromForm(more) && name != "" &&
                          forall i :: 0 <= i < |name| ==> name[i] !in "\n\r\U{2028}\U{2029}";
        AppendTail(name, more);
        if name[1..] == "" {
          AppendNothing(more);
        } else {
          assert forall i :: 0 <= i < |name[1..]| ==> name[1..][i] == name[i + 1];
          assert NamedForm(s[1..]);
        }
      }
    }
  }

  lemma {:induction false} SpacedIs(s: string)
    ensures SpacedFromStdin(s) <==> SpacedForm(s)
  {
    hide NamedForm, NamedFromStdin, IsSpace;
    if s != "" {
      SpacedIs(s[1..]);
      NamedIs(s[1..]);
      Uncons(s);
      if SpacedFromStdin(s) {
        if NamedFromStdin(s[1..]) {
          assert s == [s[0]] + s[1..];
        } else {
          var gap, more :| s[1..] == gap + more && gap != "" && Blank(gap) && NamedForm(more);
          Associative([s[0]], gap, more);
          assert s == ([s[0]] + gap) + more;
        }
      }
      if SpacedForm(s) {
        var gap, more :| s == gap + more && gap != "" && Blank(gap) && NamedForm(more);
        AppendTail(gap, more);
        if gap[1..] == "" {
          AppendNothing(more);
        } else {
          assert forall i :: 0 <= i < |gap[1..]| ==> gap[1..][i] == gap[i + 1];
          assert SpacedForm(s[1..]);
        }
      }
    }
  }

  lemma HeaderHasForm(line: string)
    requires IsCopyHeader(line)
    ensures CopyForm(line)
  {
    var p := SpaceRun(line);
    var t, more := line[p..], line[p + 4..];
    SpacedIs(more);
    CopyWords();
    BlanksAhead(line);
    hide Cased, Spelled, StartsWithWord, SpaceRun, TrimStart, Blank, SpacedForm, SpacedFromStdin;
    WordAhead(t, "copy", "COPY");
    assert t[4..] == more;
    hide IsCopyHeader;
    assert line == line[..p] + (t[..4] + more);
  }

  lemma FormIsHeader(line: string)
    requires CopyForm(line)
    ensures IsCopyHeader(line)
  {
    CopyWords();
    hide Cased, Spelled, StartsWithWord, SpaceRun, TrimStart, Blank, SpacedForm, SpacedFromStdin;
    var lead, a, more :| line == lead + (a + more) && Blank(lead) && Spelled(a, "copy", "COPY") && SpacedForm(more);
    hide CopyForm;
    SpelledLength(a, "copy", "COPY");
    WordIsSolid(a, more, "copy", "COPY");
    BlanksThen(lead, a + more);
    WordThen(a, more, "copy", "COPY");
    assert line[|lead|..] == a + more && line[|lead| + 4..] == more;
    SpacedIs(more);
  }

  /** A COPY block is opened by exactly the lines that name stdin behind COPY, a name and FROM. */
  lemma CopyHeaderIs(line: string)
    ensures IsCopyHeader(line) <==> CopyForm(line)
  {
    hide IsCopyHeader, CopyForm;
    if IsCopyHeader(line) { HeaderHasForm(line); }
    if CopyForm(line) { FormIsHeader(line); }
  }

  /** The header kept is the line without a semicolon at its end, trimmed. */
  lemma HeaderIs(lead: string, s: string, tail: string)
    requires Blank(lead) && Blank(tail)
    ensures Header(s + ";" + tail) == Trim(s)
    ensures Trimmed(s) && (s != "" ==> s[|s| - 1] != ';') ==> Header(lead + s + tail) == s
  {
    TrimEndPadded(s + ";", tail);
    assert (s + ";")[..|s|] == s;
    if Trimmed(s) && s != "" && s[|s| - 1] != ';' {
      TrimEndPadded(lead + s, tail);
      assert (lead + s)[|lead + s| - 1] == s[|s| - 1];
      TrimPadded(lead, s, tail);
    } else if s == "" {
      TrimEndPadded("", lead + tail);
      assert "" + (lead + tail) == lead + s + tail;
      TrimPadded(lead, s, tail);
    }
  }
}
