/**
  String methods the CRM code calls: `trim`, `toLowerCase`, `toUpperCase`,
  `charAt(0)`, `includes`, and the e-mail regular expression
  `^[^\s@]+@[^\s@]+\.[^\s@]+$` shared by the contact and lead forms.
  Case mapping covers ASCII letters only.
 */
module JsText {
  import opened Wrappers
  import opened Js

  /** `s.trimEnd()`; its properties are stated by `TrimEndPrefix`. */
  function TrimEnd(s: string): string {
    if s != [] && IsSpace(s[|s| - 1]) then TrimEnd(s[..|s| - 1]) else s
  }

  /** Trimming the end removes a suffix of white space, back to the last
      other character. */
  lemma {:induction false} TrimEndPrefix(s: string)
    ensures var r := TrimEnd(s);
      && |r| <= |s| && r == s[..|r|]
      && (r == [] || !IsSpace(r[|r| - 1]))
      && forall i :: |r| <= i < |s| ==> IsSpace(s[i])
  {
    if s != [] && IsSpace(s[|s| - 1]) {
      TrimEndPrefix(s[..|s| - 1]);
    }
  }

  /** `s.trim()` */
  function Trim(s: string): string {
    TrimEnd(TrimStart(s))
  }

  /** Every character is white space (the empty string included). */
  predicate Blank(s: string) {
    forall i :: 0 <= i < |s| ==> IsSpace(s[i])
  }

  /** A string trims to "" exactly when it is made of white space only. */
  lemma TrimEmptyIffBlank(s: string)
    ensures Trim(s) == "" <==> Blank(s)
  {
    var t := TrimStart(s);
    TrimStartSuffix(s);
    TrimEndPrefix(t);
    if Trim(s) == "" {
      assert t == [];
    } else {
      var r := Trim(s);
      assert !IsSpace(r[|r| - 1]);
      assert r[|r| - 1] == t[|r| - 1] == s[|s| - |t| + |r| - 1];
    }
  }

  /** `v.trim()` on whatever value a form field holds: only strings have `trim`;
      calling it on anything else, `undefined` included, throws a TypeError. */
  function TrimValue(v: JsValue): (r: Result<string, Exception>)
    ensures v.Str? <==> r.Success?
    ensures v.Str? ==> r.value == Trim(v.s)
  {
    if v.Str? then Success(Trim(v.s)) else Failure(TypeErrorThrown)
  }

  function LowerChar(c: char): char {
    if 'A' <= c <= 'Z' then (c as int + 32) as char else c
  }

  function UpperChar(c: char): char {
    if 'a' <= c <= 'z' then (c as int - 32) as char else c
  }

  /** `s.toLowerCase()` */
  function Lower(s: string): (r: string)
    ensures |r| == |s|
    ensures forall i :: 0 <= i < |s| ==> r[i] == LowerChar(s[i])
  {
    seq(|s|, i requires 0 <= i < |s| => LowerChar(s[i]))
  }

  /** `s.toUpperCase()` */
  function Upper(s: string): (r: string)
    ensures |r| == |s|
    ensures forall i :: 0 <= i < |s| ==> r[i] == UpperChar(s[i])
  {
    seq(|s|, i requires 0 <= i < |s| => UpperChar(s[i]))
  }

  /** Lower-casing forgets the case the text was given in. */
  lemma LowerOfUpper(s: string)
    ensures Lower(Upper(s)) == Lower(s)
  {
  }

  /** `s.charAt(0)`: the first character, or "" for the empty string. */
  function FirstChar(s: string): (r: string)
    ensures |r| <= 1
    ensures s == [] <==> r == []
    ensures s != [] ==> r == [s[0]]
  {
    if s == [] then "" else s[..1]
  }

  /** `needle` occurs in `hay` starting at index `i`. */
  predicate OccursAt(hay: string, needle: string, i: int) {
    0 <= i && i + |needle| <= |hay| && hay[i..i + |needle|] == needle
  }

  /** `hay.includes(needle)` */
  predicate Includes(hay: string, needle: string) {
    exists i | 0 <= i <= |hay| - |needle| :: OccursAt(hay, needle, i)
  }

  lemma IncludesEmpty(hay: string)
    ensures Includes(hay, "")
  {
    assert OccursAt(hay, "", 0);
  }

  // ---------------------------------------------------------------------------
  // The e-mail pattern ^[^\s@]+@[^\s@]+\.[^\s@]+$
  // ---------------------------------------------------------------------------

  /** A character of the class `[^\s@]`. */
  predicate PartChar(c: char) {
    !IsSpace(c) && c != '@'
  }

  predicate AllPartChars(s: string) {
    forall i :: 0 <= i < |s| ==> PartChar(s[i])
  }

  /** A match of `[^\s@]+`. */
  ghost predicate IsPart(x: string) {
    |x| > 0 && AllPartChars(x)
  }

  /** The language of the regular expression: three runs of `[^\s@]+`
      separated by `@` and a literal point. */
  ghost predicate MatchesEmailPattern(s: string) {
    exists a, b, c :: IsPart(a) && IsPart(b) && IsPart(c) && s == a + "@" + b + "." + c
  }

  /** `/^[^\s@]+@[^\s@]+\.[^\s@]+$/.test(s)`: an `@` that is not the first
      character, only `[^\s@]` characters around it, and a point after it that
      leaves at least one character on each side. */
  function EmailTest(s: string): bool {
    exists at | 0 < at < |s| ::
      && s[at] == '@'
      && AllPartChars(s[..at])
      && AllPartChars(s[at + 1..])
      && exists dot | at + 1 < dot < |s| - 1 :: s[dot] == '.'
  }

  /** The scanning test accepts exactly the strings the regular expression matches. */
  lemma EmailTestIff(s: string)
    ensures EmailTest(s) <==> MatchesEmailPattern(s)
  {
    if EmailTest(s) {
      EmailTestSound(s);
    }
    if MatchesEmailPattern(s) {
      var a, b, c :| IsPart(a) && IsPart(b) && IsPart(c) && s == a + "@" + b + "." + c;
      EmailTestComplete(a, b, c);
    }
  }

  lemma EmailTestSound(s: string)
    requires EmailTest(s)
    ensures MatchesEmailPattern(s)
  {
    var at :| 0 < at < |s| && s[at] == '@' && AllPartChars(s[..at]) && AllPartChars(s[at + 1..])
              && exists dot | at + 1 < dot < |s| - 1 :: s[dot] == '.';
    var dot :| at + 1 < dot < |s| - 1 && s[dot] == '.';
    PartCharsOfSlice(s, at + 1, at + 1, dot);
    PartCharsOfSlice(s, at + 1, dot + 1, |s|);
    SplitAtMarks(s, at, dot);
    assert IsPart(s[..at]) && IsPart(s[at + 1..dot]) && IsPart(s[dot + 1..|s|]);
  }

  /** A slice inside a run of `[^\s@]` characters is one too. */
  lemma PartCharsOfSlice(s: string, lo: int, i: int, j: int)
    requires 0 <= lo <= i <= j <= |s| && AllPartChars(s[lo..])
    ensures AllPartChars(s[i..j])
  {
    forall k | 0 <= k < j - i ensures PartChar(s[i..j][k]) {
      assert s[i..j][k] == s[lo..][i - lo + k];
    }
  }

  /** A string is its pieces around the `@` and the point put back together. */
  lemma SplitAtMarks(s: string, at: int, dot: int)
    requires 0 < at < dot < |s| - 1 && s[at] == '@' && s[dot] == '.'
    ensures s == s[..at] + "@" + s[at + 1..dot] + "." + s[dot + 1..|s|]
  {
    var w := s[..at] + "@" + s[at + 1..dot] + "." + s[dot + 1..|s|];
    assert |w| == |s|;
    forall i | 0 <= i < |s| ensures w[i] == s[i] {
      if i < at {
      } else if i == at {
      } else if i < dot {
        assert w[i] == s[at + 1..dot][i - at - 1];
      } else if i == dot {
      } else {
        assert w[i] == s[dot + 1..|s|][i - dot - 1];
      }
    }
  }

  lemma EmailTestComplete(a: string, b: string, c: string)
    requires IsPart(a) && IsPart(b) && IsPart(c)
    ensures EmailTest(a + "@" + b + "." + c)
  {
    var s := a + "@" + b + "." + c;
    var at, dot := |a|, |a| + 1 + |b|;
    assert s[at] == '@' && s[dot] == '.';
    assert s[..at] == a;
    var tail := b + "." + c;
    assert s[at + 1..] == tail;
    forall i | 0 <= i < |tail| ensures PartChar(tail[i]) {
      if i < |b| { assert tail[i] == b[i]; }
      else if i > |b| { assert tail[i] == c[i - |b| - 1]; }
    }
    assert at + 1 < dot < |s| - 1;
  }
}
