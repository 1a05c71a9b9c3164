/** Strings as the JavaScript string functions used by the repository see them. */
module Text {
  import opened Seqs

  // White space removed by String.prototype.trim: the white space and line terminator characters of ECMAScript.
  predicate IsSpace(c: char) {
    || c == ' ' || ('\t' <= c <= '\r') || c == '\U{00A0}' || c == '\U{FEFF}' || c == '\U{1680}'
    || ('\U{2000}' <= c <= '\U{200A}') || c == '\U{2028}' || c == '\U{2029}' || c == '\U{202F}'
    || c == '\U{205F}' || c == '\U{3000}'
  }

  // The same by code points: controls from 9 to 13, and every other separator of Unicode up to U+FEFF.
  lemma SpacesAre(c: char)
    ensures IsSpace(c) <==> c as int in {
              9, 10, 11, 12, 13, 32, 160, 0x1680, 0x2000, 0x2001, 0x2002, 0x2003, 0x2004, 0x2005, 0x2006, 0x2007,
              0x2008, 0x2009, 0x200A, 0x2028, 0x2029, 0x202F, 0x205F, 0x3000, 0xFEFF}
  {
  }

  predicate IsDigit(c: char) { '0' <= c <= '9' }

  predicate IsLetter(c: char) { 'a' <= c <= 'z' || 'A' <= c <= 'Z' }

  // The characters [A-Za-z0-9_].
  predicate IsWordChar(c: char) { IsLetter(c) || IsDigit(c) || c == '_' }

  function SpaceRun(s: string): (n: nat)
    ensures n <= |s|
  {
    if s != "" && IsSpace(s[0]) then 1 + SpaceRun(s[1..]) else 0
  }

  function Lower(c: char): char {
    if 'A' <= c <= 'Z' then (c as int - 'A' as int + 'a' as int) as char else c
  }

  // Ignoring case; word is in lower case.
  predicate StartsWithWord(s: string, word: string) {
    |word| <= |s| && forall i :: 0 <= i < |word| ==> Lower(s[i]) == word[i]
  }

  predicate EndsWith(s: string, suffix: string) { |suffix| <= |s| && s[|s| - |suffix|..] == suffix }

  // The digits of a number.
  function Decimal(n: nat): string {
    (if n < 10 then "" else Decimal(n / 10)) + [('0' as int + n % 10) as char]
  }

  // The number that digits stand for.
  function NumberOf(digits: string): int {
    if digits == "" then 0
    else 10 * NumberOf(digits[..|digits| - 1]) + (digits[|digits| - 1] as int - '0' as int)
  }

  /** The digits of a number stand for it, without a leading zero. */
  lemma {:induction false} DecimalReadsBack(n: nat)
    ensures NumberOf(Decimal(n)) == n
    ensures Decimal(n) != "" && forall i :: 0 <= i < |Decimal(n)| ==> '0' <= Decimal(n)[i] <= '9'
    ensures n > 0 ==> Decimal(n)[0] != '0'
    decreases n
  {
    var front, last := if n < 10 then "" else Decimal(n / 10), ('0' as int + n % 10) as char;
    if n >= 10 { DecimalReadsBack(n / 10); }
    assert Decimal(n) == front + [last] && '0' <= last <= '9';
    assert n >= 10 ==> n / 10 > 0;
    NumberOfMore(front, last);
    hide Decimal, NumberOf;
    assert NumberOf(front) == n / 10 by { NumberOfNone(); }
    assert n == 10 * (n / 10) + n % 10;
  }

  lemma NumberOfNone()
    ensures NumberOf("") == 0
  {
  }

  lemma NumberOfMore(front: string, last: char)
    ensures NumberOf(front + [last]) == 10 * NumberOf(front) + (last as int - '0' as int)
  {
    var s := front + [last];
    assert s[..|s| - 1] == front && s[|s| - 1] == last;
  }

  ghost predicate Blank(s: string) { forall i :: 0 <= i < |s| ==> IsSpace(s[i]) }

  // No white space at either end.
  predicate Trimmed(s: string) { s == "" || (!IsSpace(s[0]) && !IsSpace(s[|s| - 1])) }

  function TrimStart(s: string): string {
    if s != "" && IsSpace(s[0]) then TrimStart(s[1..]) else s
  }

  function TrimEnd(s: string): string {
    if s != "" && IsSpace(s[|s| - 1]) then TrimEnd(s[..|s| - 1]) else s
  }

  function Trim(s: string): string { TrimEnd(TrimStart(s)) }

  lemma {:induction false} TrimStartSplits(s: string) returns (lead: string)
    ensures Blank(lead) && s == lead + TrimStart(s)
    ensures TrimStart(s) == "" || !IsSpace(TrimStart(s)[0])
  {
    if s != "" && IsSpace(s[0]) {
      var rest := TrimStartSplits(s[1..]);
      lead := [s[0]] + rest;
    } else {
      lead := "";
    }
  }

  lemma {:induction false} TrimEndSplits(s: string) returns (tail: string)
    ensures Blank(tail) && s == TrimEnd(s) + tail
    ensures TrimEnd(s) == "" || !IsSpace(TrimEnd(s)[|TrimEnd(s)| - 1])
  {
    if s != "" && IsSpace(s[|s| - 1]) {
      var rest := TrimEndSplits(s[..|s| - 1]);
      tail := rest + [s[|s| - 1]];
    } else {
      tail := "";
    }
  }

  lemma {:induction false} TrimStartPadded(lead: string, s: string)
    requires Blank(lead) && (s == "" || !IsSpace(s[0]))
    ensures TrimStart(lead + s) == s
  {
    if lead == "" {
      assert lead + s == s;
    } else {
      assert (lead + s)[1..] == lead[1..] + s;
      TrimStartPadded(lead[1..], s);
    }
  }

  lemma {:induction false} TrimEndPadded(s: string, tail: string)
    requires Blank(tail) && (s == "" || !IsSpace(s[|s| - 1]))
    ensures TrimEnd(s + tail) == s
  {
    if tail == "" {
      assert s + tail == s;
    } else {
      var all := s + tail;
      assert all[..|all| - 1] == s + tail[..|tail| - 1];
      TrimEndPadded(s, tail[..|tail| - 1]);
    }
  }

  /** The trimmed middle of a string is unique. */
  lemma TrimPadded(lead: string, s: string, tail: string)
    requires Blank(lead) && Trimmed(s) && Blank(tail)
    ensures Trim(lead + s + tail) == s
  {
    if s == "" {
      TrimStartPadded(lead + tail, "");
      assert lead + s + tail == (lead + tail) + "";
    } else {
      TrimStartPadded(lead, s + tail);
      TrimEndPadded(s, tail);
      assert lead + s + tail == lead + (s + tail);
    }
  }

  /** Trimming removes blanks only, and removes all of them. */
  lemma TrimSplits(s: string) returns (lead: string, tail: string)
    ensures Blank(lead) && Blank(tail) && s == lead + Trim(s) + tail
    ensures Trimmed(Trim(s))
  {
    lead := TrimStartSplits(s);
    tail := TrimEndSplits(TrimStart(s));
    assert TrimStart(s) == Trim(s) + tail;
    if Trim(s) != "" {
      assert Trim(s)[0] == TrimStart(s)[0];
    }
  }

  lemma TrimBlank(s: string)
    ensures Trim(s) == "" <==> Blank(s)
  {
    if Blank(s) {
      TrimStartPadded(s, "");
      assert s + "" == s;
    }
    var lead, tail := TrimSplits(s);
    if Trim(s) == "" {
      assert s == lead + tail;
    }
  }

  /** sql.split('\n') */
  function Lines(s: string): (lines: seq<string>)
    ensures |lines| > 0
  {
    if s == "" then [""]
    else
      var rest := Lines(s[1..]);
      if s[0] == '\n' then [""] + rest else [[s[0]] + rest[0]] + rest[1..]
  }

  /** lines.join('\n') */
  function Join(lines: seq<string>): string {
    if |lines| == 0 then ""
    else if |lines| == 1 then lines[0]
    else lines[0] + "\n" + Join(lines[1..])
  }

  /** Splitting into lines loses nothing, and no line holds a newline. */
  lemma {:induction false} JoinLines(s: string)
    ensures Join(Lines(s)) == s
    ensures forall i :: 0 <= i < |Lines(s)| ==> '\n' !in Lines(s)[i]
  {
    if s != "" {
      JoinLines(s[1..]);
      var rest := Lines(s[1..]);
      if s[0] == '\n' {
        assert ([""] + rest)[1..] == rest;
        assert s == "\n" + s[1..];
      } else {
        var lines := [[s[0]] + rest[0]] + rest[1..];
        assert lines[1..] == rest[1..];
        assert Join(lines) == [s[0]] + Join(rest);
      }
    }
  }

  lemma {:induction false} JoinAppend(a: seq<string>, b: seq<string>)
    requires |a| > 0 && |b| > 0
    ensures Join(a + b) == Join(a) + "\n" + Join(b)
  {
    if |a| == 1 {
      assert (a + b)[1..] == b;
    } else {
      JoinAppend(a[1..], b);
      assert (a + b)[1..] == a[1..] + b;
      assert Join(a + b) == a[0] + "\n" + Join(a[1..] + b);
      assert a[0] + "\n" + (Join(a[1..]) + "\n" + Join(b)) == (a[0] + "\n" + Join(a[1..])) + "\n" + Join(b);
    }
  }

  /** Joined lines that hold no newline are split again into the same lines. */
  lemma {:induction false} LinesOfJoin(lines: seq<string>)
    requires lines != [] && forall i :: 0 <= i < |lines| ==> '\n' !in lines[i]
    ensures Lines(Join(lines)) == lines
    decreases |lines|, |lines[0]|
  {
    if lines[0] != "" {
      var shorter := [lines[0][1..]] + lines[1..];
      LinesOfJoin(shorter);
      assert lines[0] == [lines[0][0]] + lines[0][1..];
      assert lines[0][0] in lines[0];
      assert shorter[1..] == lines[1..];
      assert Join(lines) == [lines[0][0]] + Join(shorter);
      ConsTail(lines[0][0], Join(shorter));
      assert lines == [lines[0]] + lines[1..];
    } else if |lines| > 1 {
      LinesOfJoin(lines[1..]);
      assert Join(lines) == "\n" + Join(lines[1..]);
      ConsTail('\n', Join(lines[1..]));
      assert lines == [""] + lines[1..];
    }
  }
}
