/**
 * A reader for version 0.0.4 of the Prometheus text exposition format (its sections "Line format" and "Comments, help
 * text, and type information"), and the label escaping and sample lines that the repository writes for it.
 */
module PrometheusFormat {
  import opened Wrappers
  import opened Text
  import opened Seqs

  type Label = (string, string)

  datatype Entry =
    | Help(name: string, doc: string)
    | Type(name: string, kind: string)
    | Sample(name: string, labels: seq<Label>, value: real)

  // ---------- The reader ----------

  predicate IsBlank(c: char) { c == ' ' || c == '\t' }

  function SkipBlanks(s: string): (r: string)
    ensures |r| <= |s|
  {
    if s != "" && IsBlank(s[0]) then SkipBlanks(s[1..]) else s
  }

  // The characters of metric names, and without the colon those of label names.
  predicate IsNameChar(c: char, metric: bool) { IsWordChar(c) || (metric && c == ':') }

  // How long the name is that the text begins with; 0 if there is none.
  function NameRun(s: string, metric: bool): (n: nat)
    ensures n <= |s|
  {
    if s != "" && IsNameChar(s[0], metric) then 1 + NameRun(s[1..], metric) else 0
  }

  predicate IsName(s: string, metric: bool) { s != "" && !IsDigit(s[0]) && NameRun(s, metric) == |s| }

  function TokenRun(s: string): (n: nat)
    ensures n <= |s|
  {
    if s != "" && !IsBlank(s[0]) then 1 + TokenRun(s[1..]) else 0
  }

  // A label value up to its closing quote, and the text behind the quote.
  function ReadQuoted(s: string): (r: Option<(string, string)>)
    ensures r.Some? ==> |r.value.1| < |s|
  {
    if s == "" then None
    else if s[0] == '"' then Some(("", s[1..]))
    else if s[0] == '\\' then
      if |s| < 2 || s[1] !in "\\\"n" then None
      else
        var more := ReadQuoted(s[2..]);
        if more.None? then None
        else Some(([if s[1] == 'n' then '\n' else s[1]] + more.value.0, more.value.1))
    else
      var more := ReadQuoted(s[1..]);
      if more.None? then None else Some(([s[0]] + more.value.0, more.value.1))
  }

  // One label, and the text behind it.
  function ReadLabel(s: string): (r: Option<(Label, string)>)
    ensures r.Some? ==> |r.value.1| < |s|
  {
    var n := NameRun(s, false);
    if n == 0 || IsDigit(s[0]) then None
    else
      var equals := SkipBlanks(s[n..]);
      if equals == "" || equals[0] != '=' then None
      else
        var quote := SkipBlanks(equals[1..]);
        if quote == "" || quote[0] != '"' then None
        else
          var value := ReadQuoted(quote[1..]);
          if value.None? then None else Some(((s[..n], value.value.0), SkipBlanks(value.value.1)))
  }

  // The labels up to the closing brace, and the text behind the brace; a comma may follow the last label.
  function ReadLabels(s: string): (r: Option<(seq<Label>, string)>)
    decreases |s|
  {
    var t := SkipBlanks(s);
    if t == "" then None
    else if t[0] == '}' then Some(([], t[1..]))
    else
      var first := ReadLabel(t);
      if first.None? || first.value.1 == "" then None
      else
        var next := first.value.1;
        if next[0] == '}' then Some(([first.value.0], next[1..]))
        else if next[0] != ',' then None
        else
          var more := ReadLabels(next[1..]);
          if more.None? then None else Some(([first.value.0] + more.value.0, more.value.1))
  }

  predicate IsInteger(s: string) {
    var digits := if s != "" && s[0] == '-' then s[1..] else s;
    digits != "" && forall i :: 0 <= i < |digits| ==> IsDigit(digits[i])
  }

  // A value, and after it perhaps a time stamp.
  function ReadValue(number: string -> Option<real>, s: string): Option<real> {
    var n := TokenRun(s);
    var stamp := SkipBlanks(s[n..]);
    var m := TokenRun(stamp);
    if stamp != "" && (!IsInteger(stamp[..m]) || SkipBlanks(stamp[m..]) != "") then None else number(s[..n])
  }

  function ReadSample(number: string -> Option<real>, s: string): Option<Entry> {
    var n := NameRun(s, true);
    if n == 0 || IsDigit(s[0]) then None
    else
      var t := SkipBlanks(s[n..]);
      var labels := if t != "" && t[0] == '{' then ReadLabels(t[1..]) else Some(([], t));
      if labels.None? then None
      else
        var value := ReadValue(number, SkipBlanks(labels.value.1));
        if value.None? then None else Some(Sample(s[..n], labels.value.0, value.value))
  }

  predicate IsKind(s: string) {
    s == "counter" || s == "gauge" || s == "histogram" || s == "summary" || s == "untyped"
  }

  // What follows the number sign; comments other than HELP and TYPE say nothing.
  function ReadComment(s: string): Option<seq<Entry>> {
    var word := s[..TokenRun(s)];
    if word != "HELP" && word != "TYPE" then Some([])
    else
      var t := SkipBlanks(s[4..]);
      var name := t[..TokenRun(t)];
      var rest := SkipBlanks(t[TokenRun(t)..]);
      if !IsName(name, true) then None
      else if word == "HELP" then Some([Help(name, rest)])
      else
        var kind := rest[..TokenRun(rest)];
        if !IsKind(kind) || SkipBlanks(rest[|kind|..]) != "" then None
        else Some([Type(name, kind)])
  }

  function ReadLine(number: string -> Option<real>, s: string): Option<seq<Entry>> {
    var t := SkipBlanks(s);
    if t == "" then Some([])
    else if t[0] == '#' then ReadComment(SkipBlanks(t[1..]))
    else
      var sample := ReadSample(number, t);
      if sample.None? then None else Some([sample.value])
  }

  function ReadLines(number: string -> Option<real>, lines: seq<string>): Option<seq<Entry>> {
    if lines == [] then Some([])
    else
      var first := ReadLine(number, lines[0]);
      var rest := ReadLines(number, lines[1..]);
      if first.None? || rest.None? then None else Some(first.value + rest.value)
  }

  /** The entries of a text, whose last line must end with a newline; number reads a value. */
  function ReadText(number: string -> Option<real>, s: string): Option<seq<Entry>> {
    if s == "" || s[|s| - 1] != '\n' then None else ReadLines(number, Lines(s[..|s| - 1]))
  }

  // ---------- The writer ----------

  // s.replace(/c/g, with)
  function ReplaceAll(s: string, c: char, with: string): string {
    if s == "" then "" else (if s[0] == c then with else [s[0]]) + ReplaceAll(s[1..], c, with)
  }

  function EscapeLabel(value: string): string {
    ReplaceAll(ReplaceAll(ReplaceAll(value, '\\', "\\\\"), '"', "\\\""), '\n', "\\n")
  }

  function LabelText(l: Label): string { l.0 + "=\"" + EscapeLabel(l.1) + "\"" }

  // parts.join(',')
  function LabelTexts(labels: seq<Label>): string {
    if labels == [] then ""
    else if |labels| == 1 then LabelText(labels[0])
    else LabelText(labels[0]) + "," + LabelTexts(labels[1..])
  }

  function FormatLabels(labels: seq<Label>): string {
    if labels == [] then "" else "{" + LabelTexts(labels) + "}"
  }

  // A number of the source: either finite, or an infinity or not a number.
  datatype Number = Finite(value: real) | NotFinite

  function FiniteOrZero(v: Number): real { if v.Finite? then v.value else 0.0 }

  function MetricLine(show: real -> string, name: string, labels: seq<Label>, value: Number): string {
    name + FormatLabels(labels) + " " + show(FiniteOrZero(value))
  }

  /** Printing the number gives one token, which reads as the number again. */
  ghost predicate PrintsBack(show: real -> string, number: string -> Option<real>, v: real) {
    IsToken(show(v)) && number(show(v)) == Some(v)
  }

  /** The values of these entries print and read back. */
  ghost predicate PrintsAll(show: real -> string, number: string -> Option<real>, es: seq<Entry>) {
    forall i :: 0 <= i < |es| && es[i].Sample? ==> PrintsBack(show, number, es[i].value)
  }

  predicate IsToken(s: string) { s != "" && TokenRun(s) == |s| && s[0] != '{' && '\n' !in s }

  // ---------- Escaping ----------

  // One pass over the characters.
  function Escape(s: string): string {
    if s == "" then "" else EscapeChar(s[0]) + Escape(s[1..])
  }

  function EscapeChar(c: char): string {
    if c == '\\' then "\\\\" else if c == '"' then "\\\"" else if c == '\n' then "\\n" else [c]
  }

  lemma {:induction false} ReplaceAllAppend(a: string, b: string, c: char, with: string)
    ensures ReplaceAll(a + b, c, with) == ReplaceAll(a, c, with) + ReplaceAll(b, c, with)
  {
    if a == "" {
      AppendNothing(b);
    } else {
      AppendTail(a, b);
      ReplaceAllAppend(a[1..], b, c, with);
    }
  }

  lemma ReplaceAllOne(d: char, c: char, with: string)
    ensures ReplaceAll([d], c, with) == if d == c then with else [d]
  {
  }

  lemma ReplaceAllTwo(d: char, e: char, c: char, with: string)
    requires d != c && e != c
    ensures ReplaceAll([d, e], c, with) == [d, e]
  {
    ReplaceAllAppend([d], [e], c, with);
    assert [d, e] == [d] + [e];
  }

  lemma EscapeOne(c: char)
    ensures EscapeLabel([c]) == EscapeChar(c)
  {
    ReplaceAllOne(c, '\\', "\\\\");
    ReplaceAllOne(c, '"', "\\\"");
    ReplaceAllOne(c, '\n', "\\n");
    ReplaceAllTwo('\\', '\\', '"', "\\\"");
    ReplaceAllTwo('\\', '\\', '\n', "\\n");
    ReplaceAllTwo('\\', '"', '\n', "\\n");
    hide ReplaceAll;
  }

  /** The three replacements of escapeLabel, in their order, escape each character once. */
  lemma {:induction false} EscapeIsOnePass(s: string)
    ensures EscapeLabel(s) == Escape(s)
  {
    if s != "" {
      EscapeIsOnePass(s[1..]);
      EscapeOne(s[0]);
      var a, b := [s[0]], s[1..];
      Uncons(s);
      ReplaceAllAppend(a, b, '\\', "\\\\");
      ReplaceAllAppend(ReplaceAll(a, '\\', "\\\\"), ReplaceAll(b, '\\', "\\\\"), '"', "\\\"");
      ReplaceAllAppend(ReplaceAll(ReplaceAll(a, '\\', "\\\\"), '"', "\\\""),
                       ReplaceAll(ReplaceAll(b, '\\', "\\\\"), '"', "\\\""), '\n', "\\n");
      hide ReplaceAll;
    }
  }

  /** An escaped value and its closing quote read as the value; no newline and no bare quote is left in it. */
  lemma {:induction false} EscapedReadsBack(s: string, rest: string)
    ensures ReadQuoted(EscapeLabel(s) + "\"" + rest) == Some((s, rest))
    ensures '\n' !in EscapeLabel(s)
  {
    EscapeIsOnePass(s);
    if s == "" {
      assert EscapeLabel(s) + "\"" + rest == "\"" + rest;
    } else {
      EscapedReadsBack(s[1..], rest);
      EscapeIsOnePass(s[1..]);
      var c, more := EscapeChar(s[0]), Escape(s[1..]) + "\"" + rest;
      assert Escape(s) + "\"" + rest == c + more;
      assert (c + more)[|c|..] == more;
      Uncons(s);
    }
  }

  // ---------- Reading what was written ----------

  lemma {:induction false} NameThen(name: string, rest: string, metric: bool)
    requires NameRun(name, metric) == |name|
    requires rest == "" || !IsNameChar(rest[0], metric)
    ensures NameRun(name + rest, metric) == |name|
    ensures (name + rest)[..|name|] == name && (name + rest)[|name|..] == rest
  {
    if name == "" {
      AppendNothing(rest);
    } else {
      AppendTail(name, rest);
      NameThen(name[1..], rest, metric);
    }
  }

  lemma {:induction false} TokenThen(token: string, rest: string)
    requires TokenRun(token) == |token| && (rest == "" || IsBlank(rest[0]))
    ensures TokenRun(token + rest) == |token|
    ensures (token + rest)[..|token|] == token && (token + rest)[|token|..] == rest
  {
    if token == "" {
      AppendNothing(rest);
    } else {
      AppendTail(token, rest);
      TokenThen(token[1..], rest);
    }
  }

  lemma ReadLabelBack(l: Label, rest: string)
    requires IsName(l.0, false) && rest != "" && !IsBlank(rest[0])
    ensures ReadLabel(LabelText(l) + rest) == Some((l, rest))
  {
    var quoted := EscapeLabel(l.1) + "\"" + rest;
    assert "=\"" + quoted == "=" + ("\"" + quoted);
    hide EscapeLabel;
    assert LabelText(l) + rest == l.0 + ("=" + ("\"" + quoted));
    hide LabelText;
    NameThen(l.0, "=" + ("\"" + quoted), false);
    hide NameRun;
    ConsTail('=', "\"" + quoted);
    ConsTail('"', quoted);
    EscapedReadsBack(l.1, rest);
    hide ReadQuoted;
  }

  // A label starts with its name, so neither with a blank nor with a brace.
  lemma LabelStarts(l: Label, rest: string)
    requires IsName(l.0, false)
    ensures var s := LabelText(l) + rest; s != "" && !IsBlank(s[0]) && s[0] != '}' && SkipBlanks(s) == s
  {
    assert (LabelText(l) + rest)[0] == l.0[0] && IsNameChar(l.0[0], false);
  }

  lemma {:induction false} ReadLabelsBack(labels: seq<Label>, rest: string)
    requires forall l :: l in labels ==> IsName(l.0, false)
    ensures ReadLabels(LabelTexts(labels) + "}" + rest) == Some((labels, rest))
  {
    if labels == [] {
      assert LabelTexts(labels) + "}" + rest == "}" + rest;
      assert ("}" + rest)[1..] == rest;
    } else {
      var l := labels[0];
      var more := LabelTexts(labels[1..]) + "}" + rest;
      var tail := if |labels| == 1 then "}" + rest else "," + more;
      assert LabelTexts(labels) + "}" + rest == LabelText(l) + tail;
      assert tail[1..] == if |labels| == 1 then rest else more;
      ReadLabelBack(l, tail);
      LabelStarts(l, tail);
      hide ReadLabel, LabelText, NameRun, LabelTexts, SkipBlanks;
      if |labels| > 1 {
        ReadLabelsBack(labels[1..], rest);
      }
      Uncons(labels);
      AppendNothing([l]);
    }
  }

  // The end of a sample line: a blank and the value.
  lemma ReadValueBack(show: real -> string, number: string -> Option<real>, v: real)
    requires PrintsBack(show, number, v)
    ensures SkipBlanks(" " + show(v)) == SkipBlanks(show(v)) == show(v)
    ensures ReadValue(number, show(v)) == Some(v)
  {
    assert IsToken(show(v));
    TokenThen(show(v), "");
    AppendNothing(show(v));
    assert (" " + show(v))[1..] == show(v);
  }

  lemma ReadLabelPart(labels: seq<Label>, rest: string)
    requires forall l :: l in labels ==> IsName(l.0, false)
    requires rest != "" && rest[0] == ' ' && SkipBlanks(rest) != "" && SkipBlanks(rest)[0] != '{'
    ensures var t := SkipBlanks(FormatLabels(labels) + rest);
            if labels == [] then t == SkipBlanks(rest)
            else t != "" && t[0] == '{' && ReadLabels(t[1..]) == Some((labels, rest))
  {
    if labels == [] {
      AppendNothing(rest);
    } else {
      assert FormatLabels(labels) + rest == "{" + (LabelTexts(labels) + "}" + rest);
      ConsTail('{', LabelTexts(labels) + "}" + rest);
      ReadLabelsBack(labels, rest);
      hide ReadLabels, LabelTexts;
    }
  }

  // A line of a name, labels and a value, whatever is known of these parts.
  lemma ReadSampleParts(number: string -> Option<real>, name: string, rest: string, labels: seq<Label>, tail: string)
    requires IsName(name, true) && NameRun(name + rest, true) == |name|
    requires (name + rest)[..|name|] == name && (name + rest)[|name|..] == rest
    requires var t := SkipBlanks(rest);
             if t != "" && t[0] == '{' then ReadLabels(t[1..]) == Some((labels, tail))
             else labels == [] && SkipBlanks(t) == SkipBlanks(tail)
    requires ReadValue(number, SkipBlanks(tail)).Some?
    ensures ReadLine(number, name + rest) == Some([Sample(name, labels, ReadValue(number, SkipBlanks(tail)).value)])
  {
    var s := name + rest;
    assert s[0] == name[0] && IsNameChar(name[0], true);
    assert SkipBlanks(s) == s;
    hide ReadLabels, ReadValue, NameRun, SkipBlanks;
  }

  /** A sample line reads as its name, labels and value; a value that is not finite reads as 0. */
  lemma MetricLineReadsBack(
    show: real -> string, number: string -> Option<real>, name: string, labels: seq<Label>, value: Number)
    requires PrintsBack(show, number, FiniteOrZero(value)) && IsName(name, true)
    requires forall l :: l in labels ==> IsName(l.0, false)
    ensures ReadLine(number, MetricLine(show, name, labels, value))
            == Some([Sample(name, labels, if value.Finite? then value.value else 0.0)])
  {
    var v := show(FiniteOrZero(value));
    assert IsToken(v);
    var tail := " " + v;
    var rest := FormatLabels(labels) + tail;
    assert MetricLine(show, name, labels, value) == name + rest;
    ReadValueBack(show, number, FiniteOrZero(value));
    assert rest != "" && rest[0] in "{ " by {
      if labels == [] { AppendNothing(tail); }
    }
    NameThen(name, rest, true);
    ReadLabelPart(labels, tail);
    hide ReadLabels, LabelTexts, FormatLabels, ReadValue, NameRun, SkipBlanks, MetricLine, ReadLine, TokenRun;
    hide PrintsBack;
    ReadSampleParts(number, name, rest, labels, tail);
  }

  lemma {:induction false} NoNewlineInName(name: string, metric: bool)
    requires NameRun(name, metric) == |name|
    ensures '\n' !in name
  {
    if name != "" {
      NoNewlineInName(name[1..], metric);
      Uncons(name);
    }
  }

  lemma {:induction false} NoNewlineInLabels(labels: seq<Label>)
    requires forall l :: l in labels ==> IsName(l.0, false)
    ensures '\n' !in LabelTexts(labels)
  {
    if labels != [] {
      NoNewlineInName(labels[0].0, false);
      EscapedReadsBack(labels[0].1, "");
      NoNewlineInLabels(labels[1..]);
    }
  }

  lemma NoNewlineInMetricLine(
    show: real -> string, number: string -> Option<real>, name: string, labels: seq<Label>, value: Number)
    requires PrintsBack(show, number, FiniteOrZero(value)) && IsName(name, true)
    requires forall l :: l in labels ==> IsName(l.0, false)
    ensures '\n' !in MetricLine(show, name, labels, value)
  {
    NoNewlineInName(name, true);
    NoNewlineInLabels(labels);
    assert IsToken(show(FiniteOrZero(value)));
  }

  lemma {:induction false} ReadLinesAppend(number: string -> Option<real>, a: seq<string>, b: seq<string>)
    requires ReadLines(number, a).Some? && ReadLines(number, b).Some?
    ensures ReadLines(number, a + b) == Some(ReadLines(number, a).value + ReadLines(number, b).value)
  {
    if a == [] {
      AppendNothing(b);
      AppendNothing(ReadLines(number, b).value);
    } else {
      AppendTail(a, b);
      ReadLinesAppend(number, a[1..], b);
      Associative(ReadLine(number, a[0]).value, ReadLines(number, a[1..]).value, ReadLines(number, b).value);
    }
  }

  // ---------- Comment lines ----------

  function HelpLine(name: string, doc: string): string { "# HELP " + name + " " + doc }

  function TypeLine(name: string, kind: string): string { "# TYPE " + name + " " + kind }

  lemma {:induction false} NoBlankIsToken(s: string)
    requires forall i :: 0 <= i < |s| ==> !IsBlank(s[i])
    ensures TokenRun(s) == |s|
  {
    if s != "" {
      NoBlankIsToken(s[1..]);
    }
  }

  lemma {:induction false} NameIsToken(name: string, metric: bool)
    requires NameRun(name, metric) == |name|
    ensures TokenRun(name) == |name|
  {
    if name != "" {
      NameIsToken(name[1..], metric);
    }
  }

  lemma SkipOne(rest: string)
    requires rest != "" && !IsBlank(rest[0])
    ensures SkipBlanks(rest) == rest && SkipBlanks(" " + rest) == rest
  {
    ConsTail(' ', rest);
  }

  // A text that begins with a token and a blank.
  lemma NextToken(token: string, rest: string)
    requires token != "" && TokenRun(token) == |token| && rest != "" && !IsBlank(rest[0])
    ensures var s := token + (" " + rest);
            && s != "" && !IsBlank(s[0]) && SkipBlanks(" " + s) == s
            && TokenRun(s) == |token| && s[..|token|] == token && SkipBlanks(s[|token|..]) == rest
  {
    var s := token + (" " + rest);
    AppendTail(token, " " + rest);
    TokenThen(token, " " + rest);
    assert !IsBlank(s[0]);
    hide SkipBlanks, TokenRun;
    SkipOne(s);
    SkipOne(rest);
  }

  // A comment is read from behind its number sign and a blank.
  lemma CommentLine(number: string -> Option<real>, s: string)
    requires s != "" && !IsBlank(s[0])
    ensures ReadLine(number, "# " + s) == ReadComment(s)
  {
    assert "# " + s == "#" + (" " + s);
    ConsTail('#', " " + s);
    SkipOne(s);
    assert SkipBlanks("#" + (" " + s)) == "#" + (" " + s);
    hide SkipBlanks, ReadComment;
  }

  // The word, the name and the text of a comment.
  lemma CommentParts(word: string, name: string, rest: string)
    requires word == "HELP" || word == "TYPE"
    requires IsName(name, true) && rest != "" && !IsBlank(rest[0])
    ensures var s := word + (" " + (name + (" " + rest)));
            var t := name + (" " + rest);
            && !IsBlank(s[0]) && TokenRun(s) == 4 && s[..4] == word && SkipBlanks(s[4..]) == t
            && TokenRun(t) == |name| && t[..|name|] == name && SkipBlanks(t[|name|..]) == rest
  {
    NoBlankIsToken(word);
    NameIsToken(name, true);
    hide TokenRun, NameRun, SkipBlanks;
    NextToken(name, rest);
    NextToken(word, name + (" " + rest));
  }

  lemma HelpLineReadsBack(number: string -> Option<real>, name: string, doc: string)
    requires IsName(name, true) && doc != "" && !IsBlank(doc[0])
    ensures ReadLine(number, HelpLine(name, doc)) == Some([Help(name, doc)])
  {
    var s := "HELP" + (" " + (name + (" " + doc)));
    assert HelpLine(name, doc) == "# " + s;
    CommentParts("HELP", name, doc);
    CommentLine(number, s);
    hide TokenRun, SkipBlanks, ReadLine, IsName, HelpLine;
  }

  lemma TypeLineReadsBack(number: string -> Option<real>, name: string, kind: string)
    requires IsName(name, true) && IsKind(kind) && kind != "" && forall i :: 0 <= i < |kind| ==> !IsBlank(kind[i])
    ensures ReadLine(number, TypeLine(name, kind)) == Some([Type(name, kind)])
  {
    var s := "TYPE" + (" " + (name + (" " + kind)));
    assert TypeLine(name, kind) == "# " + s;
    hide TypeLine, IsKind;
    NoBlankIsToken(kind);
    assert kind[..|kind|] == kind && kind[|kind|..] == "" && SkipBlanks("") == "";
    hide TokenRun, SkipBlanks, IsName;
    CommentParts("TYPE", name, kind);
    CommentLine(number, s);
    hide ReadLine;
    assert "TYPE"[0] != "HELP"[0];
  }
}
