/** Names that the drivers put into statements. */
module Identifiers {
  import opened Text

  // /^[a-zA-Z0-9_-]{1,63}$/
  predicate SafeIdentifier(s: string) {
    1 <= |s| <= 63 && forall i :: 0 <= i < |s| ==> IsWordChar(s[i]) || s[i] == '-'
  }

  /** Safe are one to 63 letters, digits, underscores and dashes; no quote, blank or semicolon is among them. */
  lemma SafeIs(s: string)
    ensures SafeIdentifier(s) <==> s != "" && |s| < 64 && forall c :: c in s ==>
              'a' <= c <= 'z' || 'A' <= c <= 'Z' || '0' <= c <= '9' || c == '_' || c == '-'
  {
    if SafeIdentifier(s) {
      forall c | c in s ensures IsWordChar(c) || c == '-' {
        var i :| 0 <= i < |s| && s[i] == c;
      }
    } else if 1 <= |s| <= 63 {
      var i :| 0 <= i < |s| && !(IsWordChar(s[i]) || s[i] == '-');
      assert s[i] in s;
    }
  }
}
