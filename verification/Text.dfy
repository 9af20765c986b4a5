/** The string operations the service relies on: trimming spaces and lowering case. */
module Text {
  // ---------------------------------------------------------------- trimming

  /** The characters that strings.TrimSpace removes. */
  predicate IsSpace(c: char) {
    || c == '\t' || c == '\n' || c == '\U{b}' || c == '\U{c}' || c == '\r' || c == ' '
    || c == '\U{85}' || c == '\U{a0}' || c == '\U{1680}' || '\U{2000}' <= c <= '\U{200a}'
    || c == '\U{2028}' || c == '\U{2029}' || c == '\U{202f}' || c == '\U{205f}' || c == '\U{3000}'
  }

  function TrimLeft(s: string): string {
    if s != [] && IsSpace(s[0]) then TrimLeft(s[1..]) else s
  }

  function TrimRight(s: string): string {
    if s != [] && IsSpace(s[|s| - 1]) then TrimRight(s[..|s| - 1]) else s
  }

  function TrimSpace(s: string): string {
    TrimRight(TrimLeft(s))
  }

  /** Nothing to trim at either end. */
  predicate IsTrimmed(s: string) {
    s == [] || (!IsSpace(s[0]) && !IsSpace(s[|s| - 1]))
  }

  lemma {:induction false} TrimLeftIsSuffix(s: string) returns (n: nat)
    ensures n <= |s| && TrimLeft(s) == s[n..]
    ensures forall i :: 0 <= i < n ==> IsSpace(s[i])
    ensures n < |s| ==> !IsSpace(s[n])
  {
    n := 0;
    if s != [] && IsSpace(s[0]) {
      var m := TrimLeftIsSuffix(s[1..]);
      n := m + 1;
    }
  }

  lemma {:induction false} TrimRightIsPrefix(s: string) returns (n: nat)
    ensures n <= |s| && TrimRight(s) == s[..n]
    ensures forall i :: n <= i < |s| ==> IsSpace(s[i])
    ensures n > 0 ==> !IsSpace(s[n - 1])
  {
    n := |s|;
    if s != [] && IsSpace(s[|s| - 1]) {
      n := TrimRightIsPrefix(s[..|s| - 1]);
    }
  }

  /** Trimming cuts spaces at both ends and nothing else. */
  lemma TrimSpaceIsMiddle(s: string) returns (from: nat, to: nat)
    ensures from <= to <= |s| && TrimSpace(s) == s[from..to] && IsTrimmed(TrimSpace(s))
    ensures forall i :: 0 <= i < from || to <= i < |s| ==> IsSpace(s[i])
  {
    from := TrimLeftIsSuffix(s);
    var n := TrimRightIsPrefix(TrimLeft(s));
    to := from + n;
    assert s[from..][..n] == s[from..to];
    forall i | to <= i < |s|
      ensures IsSpace(s[i])
    {
      assert s[from..][i - from] == s[i];
    }
  }

  lemma TrimmedStays(s: string)
    requires IsTrimmed(s)
    ensures TrimSpace(s) == s
  {
  }

  /** The six ASCII blanks. */
  predicate AllBlank(s: string) {
    forall i :: 0 <= i < |s| ==> s[i] == ' ' || '\t' <= s[i] <= '\r'
  }

  lemma {:induction false} BlanksBefore(blanks: string, s: string)
    requires AllBlank(blanks) && (s == [] || '!' <= s[0] <= '~')
    ensures TrimLeft(blanks + s) == s
  {
    if blanks == [] {
      assert blanks + s == s;
    } else {
      assert (blanks + s)[1..] == blanks[1..] + s;
      BlanksBefore(blanks[1..], s);
    }
  }

  lemma {:induction false} BlanksAfter(s: string, blanks: string)
    requires AllBlank(blanks) && (s == [] || '!' <= s[|s| - 1] <= '~')
    ensures TrimRight(s + blanks) == s
  {
    if blanks == [] {
      assert s + blanks == s;
    } else {
      var n := |blanks| - 1;
      assert (s + blanks)[..|s + blanks| - 1] == s + blanks[..n];
      BlanksAfter(s, blanks[..n]);
    }
  }

  /** Blanks around a text are trimmed, and a printing ASCII character is not. */
  lemma PaddingIsTrimmed(before: string, s: string, after: string)
    requires AllBlank(before) && AllBlank(after)
    requires s == [] || ('!' <= s[0] <= '~' && '!' <= s[|s| - 1] <= '~')
    ensures TrimSpace(before + s + after) == s
  {
    if s == [] {
      BlanksBefore(before + after, s);
      assert before + s + after == before + after + s;
    } else {
      assert before + s + after == before + (s + after);
      BlanksBefore(before, s + after);
      BlanksAfter(s, after);
    }
  }

  // ---------------------------------------------------------------- lower case

  predicate IsLatinUpper(c: char) {
    'A' <= c <= 'Z' || ('\U{c0}' <= c <= '\U{de}' && c != '\U{d7}')
  }

  /**
   Lower case of one character: ASCII, the accented Latin-1 letters, and the characters elsewhere
   whose lower case is one of those. Characters of other scripts are left alone.
   */
  function LowerChar(c: char): char {
    if IsLatinUpper(c) then (c as int + 32) as char
    else if c == '\U{130}' then 'i'
    else if c == '\U{212a}' then 'k'
    else if c == '\U{178}' then '\U{ff}'
    else if c == '\U{212b}' then '\U{e5}'
    else if c == '\U{1e9e}' then '\U{df}'
    else c
  }

  function Lower(s: string): string {
    seq(|s|, i requires 0 <= i < |s| => LowerChar(s[i]))
  }

  /** How brands are compared with the excluded ones. */
  function Folded(s: string): string {
    Lower(TrimSpace(s))
  }

  /**
   The representative of a character's simple case folding, as strings.EqualFold compares: it agrees
   with lower case except that a dotted capital I folds with nothing else, and a long s and a micro
   sign fold with their usual forms.
   */
  function FoldChar(c: char): char {
    if c == '\U{130}' then c
    else if c == '\U{17f}' then 's'
    else if c == '\U{39c}' || c == '\U{3bc}' then '\U{b5}'
    else LowerChar(c)
  }

  /** How names of catalogue entries are compared. */
  function FoldedName(s: string): string {
    var t := TrimSpace(s);
    seq(|t|, i requires 0 <= i < |t| => FoldChar(t[i]))
  }

  // ---------------------------------------------------------------- equal up to case

  /** The ASCII characters and the accented ones of the languages of western Europe. */
  predicate IsLatin(s: string) {
    forall i :: 0 <= i < |s| ==> s[i] <= '\U{ff}'
  }

  /** b is the small letter of the capital a. */
  predicate IsSmallOf(b: char, a: char) {
    b as int == a as int + 32 && ('A' <= a <= 'Z' || ('\U{c0}' <= a <= '\U{de}' && a != '\U{d7}'))
  }

  /** Position by position the same character, or a letter and its capital. */
  predicate EqualUpToCase(a: string, b: string) {
    |a| == |b| && forall i :: 0 <= i < |a| ==> a[i] == b[i] || IsSmallOf(a[i], b[i]) || IsSmallOf(b[i], a[i])
  }

  /** Trimmed names that are equal up to case are the same name, and Latin names no others. */
  lemma SameNameIffEqualUpToCase(a: string, b: string)
    ensures EqualUpToCase(TrimSpace(a), TrimSpace(b)) ==> FoldedName(a) == FoldedName(b)
    ensures IsLatin(TrimSpace(a)) && IsLatin(TrimSpace(b)) && FoldedName(a) == FoldedName(b) ==>
              EqualUpToCase(TrimSpace(a), TrimSpace(b))
  {
    var s, t := TrimSpace(a), TrimSpace(b);
    if FoldedName(a) == FoldedName(b) && IsLatin(s) && IsLatin(t) {
      assert |s| == |FoldedName(a)| == |FoldedName(b)| == |t|;
      forall n | 0 <= n < |s|
        ensures s[n] == t[n] || IsSmallOf(s[n], t[n]) || IsSmallOf(t[n], s[n])
      {
        assert FoldedName(a)[n] == FoldChar(s[n]) && FoldedName(b)[n] == FoldChar(t[n]);
      }
    }
  }

  /** The same of brands. */
  lemma SameBrandIffEqualUpToCase(a: string, b: string)
    ensures EqualUpToCase(TrimSpace(a), TrimSpace(b)) ==> Folded(a) == Folded(b)
    ensures IsLatin(TrimSpace(a)) && IsLatin(TrimSpace(b)) && Folded(a) == Folded(b) ==>
              EqualUpToCase(TrimSpace(a), TrimSpace(b))
  {
    var s, t := TrimSpace(a), TrimSpace(b);
    if Folded(a) == Folded(b) && IsLatin(s) && IsLatin(t) {
      assert |s| == |Folded(a)| == |Folded(b)| == |t|;
      forall n | 0 <= n < |s|
        ensures s[n] == t[n] || IsSmallOf(s[n], t[n]) || IsSmallOf(t[n], s[n])
      {
        assert Folded(a)[n] == LowerChar(s[n]) && Folded(b)[n] == LowerChar(t[n]);
      }
    }
  }
}
