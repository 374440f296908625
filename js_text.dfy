/**
 * The few JavaScript string operations the application relies on: rendering a
 * non-negative integer in decimal (template literals, `toString()`),
 * `padStart`, `includes` and `toLowerCase`.
 */
module JsText {

  function DigitChar(d: nat): char
    requires d < 10
  {
    "0123456789"[d]
  }

  /** `${n}` for a non-negative integer: its decimal digits, no leading zero. */
  function NatToString(n: nat): (r: string)
    ensures |r| >= 1
    ensures |r| == 1 <==> n < 10
    ensures forall i :: 0 <= i < |r| ==> '0' <= r[i] <= '9'
  {
    if n < 10 then [DigitChar(n)] else NatToString(n / 10) + [DigitChar(n % 10)]
  }

  /** `s.padStart(width, fill)` with a one-character fill string. */
  function PadStart(s: string, width: nat, fill: char): (r: string)
    ensures |r| == if |s| >= width then |s| else width
    ensures r[|r| - |s|..] == s
    ensures forall i :: 0 <= i < |r| - |s| ==> r[i] == fill
  {
    if |s| >= width then s else seq(width - |s|, _ => fill) + s
  }

  predicate StartsWith(s: string, prefix: string) {
    |prefix| <= |s| && s[..|prefix|] == prefix
  }

  /** `s.includes(sub)`: `sub` occurs somewhere in `s` (the empty string occurs everywhere). */
  predicate Includes(s: string, sub: string)
  {
    StartsWith(s, sub) || (s != [] && Includes(s[1..], sub))
  }

  /** For a one-character argument, `includes` is plain membership. */
  lemma {:induction false} IncludesChar(s: string, c: char)
    ensures Includes(s, [c]) <==> c in s
  {
    if s != [] {
      IncludesChar(s[1..], c);
      assert s == [s[0]] + s[1..];
    }
  }

  /** Every character of an included string occurs in the string that includes it. */
  lemma {:induction false} IncludedCharsOccur(s: string, sub: string)
    requires Includes(s, sub)
    ensures forall c :: c in sub ==> c in s
  {
    if StartsWith(s, sub) {
      forall c | c in sub
        ensures c in s
      {
        var i :| 0 <= i < |sub| && sub[i] == c;
        assert s[i] == c;
      }
    } else {
      IncludedCharsOccur(s[1..], sub);
      forall c | c in sub
        ensures c in s
      {
        assert c in s[1..];
      }
    }
  }

  /** A string lacking some character of `sub` does not include `sub`. */
  lemma MissingCharExcludes(s: string, sub: string, c: char)
    requires c in sub && c !in s
    ensures !Includes(s, sub)
  {
    if Includes(s, sub) {
      IncludedCharsOccur(s, sub);
    }
  }

  predicate IsAsciiUpper(c: char) {
    'A' <= c <= 'Z'
  }

  function LowerChar(c: char): char {
    if IsAsciiUpper(c) then (c as int + 32) as char else c
  }

  /** `s.toLowerCase()`, restricted to the ASCII letters. */
  function ToLowerCase(s: string): string
  {
    if s == [] then [] else [LowerChar(s[0])] + ToLowerCase(s[1..])
  }

  /** Lower-casing works character by character and keeps the length. */
  lemma {:induction false} ToLowerCaseAt(s: string)
    ensures |ToLowerCase(s)| == |s|
    ensures forall i :: 0 <= i < |s| ==> ToLowerCase(s)[i] == LowerChar(s[i])
  {
    if s != [] {
      ToLowerCaseAt(s[1..]);
    }
  }

  /** No upper-case ASCII letter survives lower-casing. */
  lemma ToLowerCaseHasNoUpper(s: string)
    ensures forall c :: c in ToLowerCase(s) ==> !IsAsciiUpper(c)
  {
    ToLowerCaseAt(s);
  }

  /** Lower-casing twice is lower-casing once, so two spellings that differ only in case store the same text. */
  lemma ToLowerCaseIdempotent(s: string)
    ensures ToLowerCase(ToLowerCase(s)) == ToLowerCase(s)
  {
    ToLowerCaseAt(s);
    ToLowerCaseAt(ToLowerCase(s));
  }

  /** Lower-casing neither adds nor removes an '@'. */
  lemma ToLowerCaseKeepsAt(s: string)
    ensures '@' in ToLowerCase(s) <==> '@' in s
  {
    ToLowerCaseAt(s);
    if '@' in s {
      var i :| 0 <= i < |s| && s[i] == '@';
      assert ToLowerCase(s)[i] == '@';
    }
    if '@' in ToLowerCase(s) {
      var i :| 0 <= i < |ToLowerCase(s)| && ToLowerCase(s)[i] == '@';
      assert s[i] == '@';
    }
  }
}
