/** The relevance guard: does a source's title match a product's name well enough to trust its image? */
module Relevance {
  import opened Prelude
  import opened Text

  /** The base letter of the accented lower-case letters of Spanish and its neighbours. */
  function FoldAccent(c: char): char {
    if c in "áàäâ" then 'a'
    else if c in "éèëê" then 'e'
    else if c in "íìïî" then 'i'
    else if c in "óòöô" then 'o'
    else if c in "úùüû" then 'u'
    else if c == 'ñ' then 'n'
    else c
  }

  function Normal(c: char): char {
    FoldAccent(LowerChar(c))
  }

  predicate IsTokenChar(c: char) {
    'a' <= c <= 'z' || '0' <= c <= '9'
  }

  /** A character that ends a token. */
  predicate IsSeparator(c: char) {
    !IsTokenChar(Normal(c))
  }

  function Flush(current: string): seq<string> {
    if current == [] then [] else [current]
  }

  /** The tokens of s when the token current has been begun before it. */
  function TokensFrom(s: string, current: string): seq<string> {
    if s == [] then Flush(current)
    else if IsSeparator(s[0]) then Flush(current) + TokensFrom(s[1..], [])
    else TokensFrom(s[1..], current + [Normal(s[0])])
  }

  /** The maximal runs of letters and digits, in lower case and without accents. */
  function Tokens(s: string): seq<string> {
    TokensFrom(s, [])
  }

  const STOPWORDS := {
    "de", "del", "la", "el", "los", "las", "con", "sin", "por", "para", "y", "a",
    "x", "un", "una", "u", "uds", "unidad", "unidades", "docena", "pack",
    "kg", "g", "gr", "grs", "mg", "l", "lt", "ml", "cc", "cm", "mm"
  }

  predicate IsNumeric(token: string) {
    token != [] && forall i :: 0 <= i < |token| ==> '0' <= token[i] <= '9'
  }

  /** Tokens that say which product it is. */
  predicate IsSignificant(token: string) {
    token !in STOPWORDS && !IsNumeric(token)
  }

  function SignificantSet(s: string): set<string> {
    set t | t in Tokens(s) && IsSignificant(t)
  }

  function TitleSet(s: string): set<string> {
    set t | t in Tokens(s)
  }

  /** The share of the name's significant tokens found in the title; 1 when it has none. */
  function Score(name: string, title: string): real {
    var query := SignificantSet(name);
    if query == {} then 1.0 else |query * TitleSet(title)| as real / |query| as real
  }

  /** At least three fifths of the significant tokens. */
  predicate IsRelevant(name: string, title: string) {
    var query := SignificantSet(name);
    query == {} || 5 * |query * TitleSet(title)| >= 3 * |query|
  }

  // ---------------------------------------------------------------- the loops

  lemma TokensNext(s: string, i: nat, current: string)
    requires i < |s|
    ensures TokensFrom(s[i..], current)
         == if IsTokenChar(Normal(s[i])) then TokensFrom(s[i + 1..], current + [Normal(s[i])])
            else Flush(current) + TokensFrom(s[i + 1..], [])
  {
    assert s[i..][1..] == s[i + 1..];
  }

  method Tokenize(s: string) returns (tokens: seq<string>)
    ensures tokens == Tokens(s)
  {
    var folded := [];
    for i := 0 to |s|
      invariant |folded| == i && forall j :: 0 <= j < i ==> folded[j] == Normal(s[j])
    {
      folded := folded + [Normal(s[i])];
    }
    tokens := [];
    var current := [];
    for i := 0 to |folded|
      invariant tokens + TokensFrom(s[i..], current) == Tokens(s)
    {
      TokensNext(s, i, current);
      if IsTokenChar(folded[i]) {
        current := current + [folded[i]];
      } else {
        tokens := tokens + Flush(current);
        current := [];
      }
    }
    tokens := tokens + Flush(current);
  }

  method SignificantTokens(s: string) returns (tokens: set<string>)
    ensures tokens == SignificantSet(s)
  {
    var all := Tokenize(s);
    tokens := {};
    for i := 0 to |all|
      invariant tokens == set t | t in all[..i] && IsSignificant(t)
    {
      if all[i] in STOPWORDS || IsNumeric(all[i]) {
        continue;
      }
      tokens := tokens + {all[i]};
    }
  }

  method TokenSet(s: string) returns (tokens: set<string>)
    ensures tokens == TitleSet(s)
  {
    var all := Tokenize(s);
    tokens := {};
    for i := 0 to |all|
      invariant tokens == set t | t in all[..i]
    {
      tokens := tokens + {all[i]};
    }
  }

  lemma OneMore(done: set<string>, token: string, found: set<string>)
    requires token !in done
    ensures |(done + {token}) * found| == |done * found| + if token in found then 1 else 0
  {
    if token in found {
      assert (done + {token}) * found == done * found + {token};
    } else {
      assert (done + {token}) * found == done * found;
    }
  }

  method CountMatched(query: set<string>, found: set<string>) returns (matched: nat)
    ensures matched == |query * found|
  {
    matched := 0;
    var done := {};
    while query - done != {}
      invariant done <= query && matched == |done * found|
      decreases query - done
    {
      var token :| token in query - done;
      OneMore(done, token, found);
      if token in found {
        matched := matched + 1;
      }
      done := done + {token};
    }
    assert done == query;
  }

  /** RelevanceScore, and the verdict of the guard on it. */
  method RelevanceScore(name: string, title: string) returns (score: real, relevant: bool)
    ensures score == Score(name, title)
    ensures relevant <==> IsRelevant(name, title)
  {
    var query := SignificantTokens(name);
    if query == {} {
      return 1.0, true;
    }
    var found := TokenSet(title);
    var matched := CountMatched(query, found);
    score := matched as real / |query| as real;
    relevant := 5 * matched >= 3 * |query|;
  }

  // ---------------------------------------------------------------- tokens

  /** The tokens of s, a separator and t are the tokens of s followed by those of t. */
  lemma {:induction false} TokensOfParts(s: string, c: char, t: string, current: string)
    requires IsSeparator(c)
    ensures TokensFrom(s + [c] + t, current) == TokensFrom(s, current) + Tokens(t)
  {
    if s == [] {
      assert s + [c] + t == [c] + t;
      assert ([c] + t)[1..] == t;
    } else {
      assert (s + [c] + t)[0] == s[0] && (s + [c] + t)[1..] == s[1..] + [c] + t;
      if IsSeparator(s[0]) {
        TokensOfParts(s[1..], c, t, []);
      } else {
        TokensOfParts(s[1..], c, t, current + [Normal(s[0])]);
      }
    }
  }

  /** A non-empty run of plain lower-case letters and digits. */
  predicate IsWord(w: string) {
    w != [] && forall i :: 0 <= i < |w| ==> IsTokenChar(w[i])
  }

  lemma PlainIsNormal(c: char)
    requires IsTokenChar(c)
    ensures Normal(c) == c
  {
  }

  lemma {:induction false} TokensAreWords(s: string, current: string)
    requires forall i :: 0 <= i < |current| ==> IsTokenChar(current[i])
    ensures forall t :: t in TokensFrom(s, current) ==> IsWord(t)
  {
    if s != [] {
      if IsSeparator(s[0]) {
        TokensAreWords(s[1..], []);
      } else {
        TokensAreWords(s[1..], current + [Normal(s[0])]);
      }
    }
  }

  lemma {:induction false} WordIsItsToken(w: string, current: string)
    requires IsWord(w) || (w == [] && current != [])
    ensures TokensFrom(w, current) == [current + w]
    decreases |w|
  {
    if w == [] {
      assert current + w == current;
    } else {
      PlainIsNormal(w[0]);
      assert current + [w[0]] + w[1..] == current + w;
      WordIsItsToken(w[1..], current + [w[0]]);
    }
  }

  function JoinWords(words: seq<string>): string {
    if words == [] then []
    else if |words| == 1 then words[0]
    else words[0] + [' '] + JoinWords(words[1..])
  }

  lemma {:induction false} TokensOfJoined(words: seq<string>)
    requires forall w :: w in words ==> IsWord(w)
    ensures Tokens(JoinWords(words)) == words
  {
    if words != [] {
      WordIsItsToken(words[0], []);
      assert [] + words[0] == words[0];
      if |words| > 1 {
        TokensOfParts(words[0], ' ', JoinWords(words[1..]), []);
        TokensOfJoined(words[1..]);
        assert [words[0]] + words[1..] == words;
      }
    }
  }

  /** Tokenizing the tokens joined by spaces gives them back. */
  lemma TokenizingIsStable(s: string)
    ensures Tokens(JoinWords(Tokens(s))) == Tokens(s)
  {
    TokensAreWords(s, []);
    TokensOfJoined(Tokens(s));
  }

  /** Equal up to case and accents. */
  predicate SameLetters(a: string, b: string) {
    |a| == |b| && forall i :: 0 <= i < |a| ==> Normal(a[i]) == Normal(b[i])
  }

  lemma {:induction false} CaseAndAccentsDoNotMatter(a: string, b: string, current: string)
    requires SameLetters(a, b)
    ensures TokensFrom(a, current) == TokensFrom(b, current)
  {
    if a != [] {
      CaseAndAccentsDoNotMatter(a[1..], b[1..], []);
      CaseAndAccentsDoNotMatter(a[1..], b[1..], current + [Normal(a[0])]);
    }
  }

  // ---------------------------------------------------------------- the score

  /** The score is a share, and the guard's verdict is that it is at least 0.6. */
  lemma ScoreIsAShare(name: string, title: string)
    ensures 0.0 <= Score(name, title) <= 1.0
    ensures IsRelevant(name, title) <==> Score(name, title) >= 0.6
  {
    var query := SignificantSet(name);
    var matched := |query * TitleSet(title)|;
    SubsetSize(query * TitleSet(title), query);
    if query != {} {
      ShareOfPart(matched, |query|);
    }
  }

  lemma ShareOfPart(m: nat, n: nat)
    requires m <= n && n > 0
    ensures 0.0 <= m as real / n as real <= 1.0
    ensures 5 * m >= 3 * n <==> m as real / n as real >= 0.6
  {
    var q := m as real / n as real;
    assert q * n as real == m as real;
  }

  /** Case, accents and the order of words change nothing, in the name or in the title. */
  lemma ScoreIgnoresSpelling(name: string, name': string, title: string, title': string)
    requires SameLetters(name, name') || multiset(Tokens(name)) == multiset(Tokens(name'))
    requires SameLetters(title, title') || multiset(Tokens(title)) == multiset(Tokens(title'))
    ensures Score(name, title) == Score(name', title')
    ensures IsRelevant(name, title) <==> IsRelevant(name', title')
  {
    SameTokens(name, name');
    SameTokens(title, title');
    assert SignificantSet(name) == SignificantSet(name');
    assert TitleSet(title) == TitleSet(title');
  }

  lemma SameTokens(a: string, b: string)
    requires SameLetters(a, b) || multiset(Tokens(a)) == multiset(Tokens(b))
    ensures forall t :: t in Tokens(a) <==> t in Tokens(b)
  {
    if SameLetters(a, b) {
      CaseAndAccentsDoNotMatter(a, b, []);
    } else {
      assert forall t :: t in Tokens(a) <==> t in multiset(Tokens(a));
      assert forall t :: t in Tokens(b) <==> t in multiset(Tokens(b));
    }
  }

  /** Text added to a title after a separator never lowers the score, nor turns a match down. */
  lemma LongerTitleScoresNoLess(name: string, title: string, c: char, more: string)
    requires IsSeparator(c)
    ensures Score(name, title + [c] + more) >= Score(name, title)
    ensures IsRelevant(name, title) ==> IsRelevant(name, title + [c] + more)
  {
    TokensOfParts(title, c, more, []);
    var query := SignificantSet(name);
    SubsetSize(query * TitleSet(title), query * TitleSet(title + [c] + more));
    if query != {} {
      ShareGrows(|query * TitleSet(title)|, |query * TitleSet(title + [c] + more)|, |query|);
    }
  }

  lemma ShareGrows(m: nat, k: nat, n: nat)
    requires m <= k && n > 0
    ensures m as real / n as real <= k as real / n as real
  {
  }

  /** The name stands in the title as a word of its own: nothing or a separator on each side. */
  predicate Delimits(before: string, after: string) {
    && (before == [] || IsSeparator(before[|before| - 1]))
    && (after == [] || IsSeparator(after[0]))
  }

  /** A title that contains the name as delimited text scores 1. */
  lemma ContainedNameScoresOne(before: string, name: string, after: string)
    requires Delimits(before, after)
    ensures Score(name, before + name + after) == 1.0 && IsRelevant(name, before + name + after)
  {
    var title := before + name + after;
    forall t | t in Tokens(name)
      ensures t in Tokens(title)
    {
      TokenOfMiddle(before, name, after, t);
    }
    assert SignificantSet(name) * TitleSet(title) == SignificantSet(name);
  }

  lemma TokenOfMiddle(before: string, name: string, after: string, t: string)
    requires Delimits(before, after) && t in Tokens(name)
    ensures t in Tokens(before + name + after)
  {
    TokenOfPrefix(name, after, t);
    if before == [] {
      assert before + name + after == name + after;
    } else {
      var n := |before| - 1;
      assert before + name + after == before[..n] + [before[n]] + (name + after);
      TokensOfParts(before[..n], before[n], name + after, []);
    }
  }

  lemma TokenOfPrefix(name: string, after: string, t: string)
    requires after == [] || IsSeparator(after[0])
    requires t in Tokens(name)
    ensures t in Tokens(name + after)
  {
    if after == [] {
      assert name + after == name;
    } else {
      assert name + after == name + [after[0]] + after[1..];
      TokensOfParts(name, after[0], after[1..], []);
    }
  }

  // ---------------------------------------------------------------- in plain characters

  /** The letter, its capital, or one of them with an accent. */
  predicate IsFormOf(c: char, letter: char) {
    || c == letter
    || ('a' <= letter <= 'z' && c as int + 32 == letter as int)
    || (letter == 'a' && c in "áàäâÁÀÄÂ")
    || (letter == 'e' && c in "éèëêÉÈËÊ")
    || (letter == 'i' && c in "íìïîÍÌÏÎ")
    || (letter == 'o' && c in "óòöôÓÒÖÔ")
    || (letter == 'u' && c in "úùüûÚÙÜÛ")
    || (letter == 'n' && c in "ñÑ")
  }

  lemma CapitalIsNormal(c: char, letter: char)
    requires 'a' <= letter <= 'z' && c as int + 32 == letter as int
    ensures Normal(c) == Normal(letter)
  {
    assert LowerChar(c) == letter == LowerChar(letter);
  }

  lemma AccentedIsLowered(c: char)
    ensures c in "áàäâÁÀÄÂ" ==> LowerChar(c) in "áàäâ"
    ensures c in "éèëêÉÈËÊ" ==> LowerChar(c) in "éèëê"
    ensures c in "íìïîÍÌÏÎ" ==> LowerChar(c) in "íìïî"
  {
  }

  lemma OtherAccentedIsLowered(c: char)
    ensures c in "óòöôÓÒÖÔ" ==> LowerChar(c) in "óòöô"
    ensures c in "úùüûÚÙÜÛ" ==> LowerChar(c) in "úùüû"
    ensures c in "ñÑ" ==> LowerChar(c) == 'ñ'
  {
  }

  lemma AccentIsNormal(c: char)
    ensures c in "áàäâÁÀÄÂ" ==> Normal(c) == 'a'
    ensures c in "éèëêÉÈËÊ" ==> Normal(c) == 'e'
    ensures c in "íìïîÍÌÏÎ" ==> Normal(c) == 'i'
    ensures c in "óòöôÓÒÖÔ" ==> Normal(c) == 'o'
    ensures c in "úùüûÚÙÜÛ" ==> Normal(c) == 'u'
    ensures c in "ñÑ" ==> Normal(c) == 'n'
  {
    AccentedIsLowered(c);
    OtherAccentedIsLowered(c);
    AccentIsTaken(LowerChar(c));
  }

  lemma AccentIsTaken(c: char)
    ensures c in "áàäâ" ==> FoldAccent(c) == 'a'
    ensures c in "éèëê" ==> FoldAccent(c) == 'e'
    ensures c in "íìïî" ==> FoldAccent(c) == 'i'
    ensures c in "óòöô" ==> FoldAccent(c) == 'o'
    ensures c in "úùüû" ==> FoldAccent(c) == 'u'
    ensures FoldAccent('ñ') == 'n'
  {
  }

  lemma FormIsNormal(c: char, letter: char)
    requires IsFormOf(c, letter)
    ensures Normal(c) == Normal(letter)
  {
    if c != letter {
      if 'a' <= letter <= 'z' && c as int + 32 == letter as int {
        CapitalIsNormal(c, letter);
      } else {
        AccentIsNormal(c);
        PlainIsNormal(letter);
      }
    }
  }

  /** A capital or accented letter gives the same tokens as the plain one. */
  lemma AccentedIsPlain(before: string, c: char, letter: char, after: string)
    requires IsFormOf(c, letter)
    ensures Tokens(before + [c] + after) == Tokens(before + [letter] + after)
  {
    FormIsNormal(c, letter);
    OneLetterChanges(before, c, letter, after);
  }

  lemma OneLetterChanges(before: string, c: char, d: char, after: string)
    requires Normal(c) == Normal(d)
    ensures Tokens(before + [c] + after) == Tokens(before + [d] + after)
  {
    CaseAndAccentsDoNotMatter(before + [c] + after, before + [d] + after, []);
  }

  /** Lower-case ASCII letters and digits. */
  predicate IsPlain(w: string) {
    w != [] && forall i :: 0 <= i < |w| ==> 'a' <= w[i] <= 'z' || '0' <= w[i] <= '9'
  }

  lemma AsciiSeparator(c: char)
    requires c <= '~' && !('a' <= c <= 'z') && !('A' <= c <= 'Z') && !('0' <= c <= '9')
    ensures IsSeparator(c)
  {
    assert LowerChar(c) == c;
  }

  lemma PlainIsToken(w: string)
    requires IsPlain(w)
    ensures Tokens(w) == [w]
  {
    WordIsItsToken(w, []);
    assert [] + w == w;
  }

  /** Letters and digits without anything in between are one token; any other ASCII character ends it. */
  lemma AsciiTokens(w: string, c: char, rest: string)
    requires IsPlain(w)
    requires c <= '~' && !('a' <= c <= 'z') && !('A' <= c <= 'Z') && !('0' <= c <= '9')
    ensures Tokens(w) == [w] && Tokens(w + [c] + rest) == [w] + Tokens(rest)
  {
    PlainIsToken(w);
    AsciiSeparator(c);
    TokensOfParts(w, c, rest, []);
  }

  /** The words that say nothing about which product it is: these, and numbers. */
  predicate SaysNothing(w: string) {
    || w in ["de", "del", "la", "el", "los", "las", "con", "sin", "por", "para", "y", "a", "x", "un", "una", "u", "uds",
             "unidad", "unidades", "docena", "pack", "kg", "g", "gr", "grs", "mg", "l", "lt", "ml", "cc", "cm", "mm"]
    || forall i :: 0 <= i < |w| ==> '0' <= w[i] <= '9'
  }

  lemma SayingIsSignificant(w: string)
    requires w != []
    ensures SaysNothing(w) <==> !IsSignificant(w)
  {
  }

  lemma OneMoreWord(name: string, w: string)
    requires IsPlain(w) && !IsSignificant(w)
    ensures SignificantSet(name + [' '] + w) == SignificantSet(name)
  {
    PlainIsToken(w);
    AsciiSeparator(' ');
    TokensOfParts(name, ' ', w, []);
  }

  lemma OnlyWord(w: string)
    requires IsPlain(w) && IsSignificant(w)
    ensures SignificantSet(w) == {w}
  {
    PlainIsToken(w);
  }

  /** A word of a name counts for nothing if it says nothing, and alone decides the score if it says something. */
  lemma OnlySayingWordsCount(name: string, w: string, title: string)
    requires IsPlain(w)
    ensures SaysNothing(w) ==>
              && Score(name + [' '] + w, title) == Score(name, title)
              && (IsRelevant(name + [' '] + w, title) <==> IsRelevant(name, title))
    ensures !SaysNothing(w) ==> Score(w, title) == if w in Tokens(title) then 1.0 else 0.0
  {
    SayingIsSignificant(w);
    if !IsSignificant(w) {
      OneMoreWord(name, w);
    } else {
      OnlyWord(w);
      assert {w} * TitleSet(title) == if w in Tokens(title) then {w} else {};
    }
  }
}
