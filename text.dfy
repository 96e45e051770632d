/** String helpers that stand for the JavaScript built-ins the client uses:
    `toLowerCase`, `includes` and `trim`. */
module Text {

  /** `toLowerCase` on one character (ASCII letters only). */
  function LowerChar(c: char): char
  {
    if 'A' <= c <= 'Z' then (c as int + 32) as char else c
  }

  /** `s.toLowerCase()`: same length, each letter lowered. */
  function Lower(s: string): (r: string)
    ensures |r| == |s|
    ensures forall i :: 0 <= i < |s| ==> r[i] == LowerChar(s[i])
    ensures forall i :: 0 <= i < |r| ==> !('A' <= r[i] <= 'Z')
  {
    if s == [] then [] else [LowerChar(s[0])] + Lower(s[1..])
  }

  predicate StartsWith(s: string, prefix: string)
  {
    |prefix| <= |s| && s[..|prefix|] == prefix
  }

  /** `s.includes(part)`: `part` occurs somewhere in `s`. */
  predicate Includes(s: string, part: string)
    decreases |s|
  {
    StartsWith(s, part) || (s != [] && Includes(s[1..], part))
  }

  /** `part` occurs in `s` at position `i`. */
  predicate OccursAt(s: string, part: string, i: nat)
  {
    i + |part| <= |s| && s[i..i + |part|] == part
  }

  /** `Includes` agrees with the positional definition of an occurrence. */
  lemma {:induction false} IncludesAt(s: string, part: string)
    ensures Includes(s, part) <==> exists i: nat :: OccursAt(s, part, i)
  {
    if StartsWith(s, part) {
      assert OccursAt(s, part, 0);
    } else if s == [] {
      if i: nat :| OccursAt(s, part, i) {
        assert false;
      }
    } else {
      IncludesAt(s[1..], part);
      if Includes(s[1..], part) {
        var i: nat :| OccursAt(s[1..], part, i);
        assert s[i + 1..i + 1 + |part|] == s[1..][i..i + |part|];
        assert OccursAt(s, part, i + 1);
      }
      if i: nat :| OccursAt(s, part, i) {
        assert i != 0;
        assert s[1..][i - 1..i - 1 + |part|] == s[i..i + |part|];
        assert OccursAt(s[1..], part, i - 1);
      }
    }
  }

  /** The empty string occurs in every string. */
  lemma IncludesEmpty(s: string)
    ensures Includes(s, "")
  {
  }

  /** White space and line terminators as ECMAScript's `trim` removes them. */
  predicate IsJsWhitespace(c: char)
  {
    c == '\t' || c == '\n' || c == '\U{000B}' || c == '\U{000C}' || c == '\r' || c == ' '
    || c == '\U{00A0}' || c == '\U{1680}' || ('\U{2000}' <= c <= '\U{200A}')
    || c == '\U{2028}' || c == '\U{2029}' || c == '\U{202F}' || c == '\U{205F}'
    || c == '\U{3000}' || c == '\U{FEFF}'
  }

  /** `s.trim()` is the empty string. */
  predicate IsBlank(s: string)
  {
    forall i :: 0 <= i < |s| ==> IsJsWhitespace(s[i])
  }
}
