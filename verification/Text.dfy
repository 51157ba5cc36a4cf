/** Letter case and substring search on ASCII text. */
module Text {

  function UpperChar(c: char): char {
    if 'a' <= c <= 'z' then 'A' + (c - 'a') else c
  }

  function LowerChar(c: char): char {
    if 'A' <= c <= 'Z' then 'a' + (c - 'A') else c
  }

  function Upper(s: string): (u: string)
    ensures |u| == |s|
  {
    seq(|s|, i requires 0 <= i < |s| => UpperChar(s[i]))
  }

  function Lower(s: string): (l: string)
    ensures |l| == |s|
  {
    seq(|s|, i requires 0 <= i < |s| => LowerChar(s[i]))
  }

  predicate StandsAt(s: string, i: int, word: string) {
    0 <= i <= |s| - |word| && s[i..i + |word|] == word
  }

  predicate Contains(s: string, word: string) {
    exists i :: 0 <= i <= |s| && StandsAt(s, i, word)
  }

  lemma UpperOfLower(s: string)
    ensures Upper(Lower(s)) == Upper(s) && Upper(Upper(s)) == Upper(s)
  {
  }

  // ----- what these say

  predicate SmallLetter(c: char) {
    'a' <= c <= 'z'
  }

  predicate Capital(c: char) {
    'A' <= c <= 'Z'
  }

  /** The same character, or a letter and its capital. */
  predicate SameLetter(c: char, d: char) {
    c == d || (Capital(c) && d as int == c as int + 32) || (Capital(d) && c as int == d as int + 32)
  }

  /** Equal but for letter case. */
  predicate Alike(s: string, t: string) {
    |s| == |t| && forall i :: 0 <= i < |s| ==> SameLetter(s[i], t[i])
  }

  predicate AlikeAt(s: string, i: int, word: string) {
    0 <= i <= |s| - |word| && Alike(s[i..i + |word|], word)
  }

  /** The word stands somewhere in the text, in whatever letter case. */
  predicate Mentions(s: string, word: string) {
    exists i :: 0 <= i <= |s| && AlikeAt(s, i, word)
  }

  /** The capitals of a text are the one text without small letters that is alike. */
  lemma UpperMeans(s: string, u: string)
    ensures Upper(s) == u <==> Alike(s, u) && forall i :: 0 <= i < |u| ==> !SmallLetter(u[i])
  {
    assert Alike(s, u) && (forall i :: 0 <= i < |u| ==> !SmallLetter(u[i])) ==>
             forall i :: 0 <= i < |u| ==> u[i] == UpperChar(s[i]);
  }

  lemma LowerMeans(s: string, l: string)
    ensures Lower(s) == l <==> Alike(s, l) && forall i :: 0 <= i < |l| ==> !Capital(l[i])
  {
    assert Alike(s, l) && (forall i :: 0 <= i < |l| ==> !Capital(l[i])) ==>
             forall i :: 0 <= i < |l| ==> l[i] == LowerChar(s[i]);
  }

  /** Two texts have the same capitals exactly when they are alike. */
  lemma SameCapitals(s: string, t: string)
    ensures Upper(s) == Upper(t) <==> Alike(s, t)
  {
    if Upper(s) == Upper(t) {
      assert forall i :: 0 <= i < |s| ==> UpperChar(s[i]) == Upper(s)[i] == Upper(t)[i] == UpperChar(t[i]);
    }
  }

  lemma LowerOfSlice(s: string, i: nat, j: nat)
    requires i <= j <= |s|
    ensures Lower(s[i..j]) == Lower(s)[i..j]
  {
  }

  /** Searching the lower-cased text for a word without capitals finds it in whatever letter case. */
  lemma ContainsMeans(s: string, word: string)
    requires forall i :: 0 <= i < |word| ==> !Capital(word[i])
    ensures Contains(Lower(s), word) <==> Mentions(s, word)
  {
    hide Alike, Capital, Lower;
    forall i ensures StandsAt(Lower(s), i, word) <==> AlikeAt(s, i, word) {
      if 0 <= i <= |s| - |word| {
        LowerOfSlice(s, i, i + |word|);
        LowerMeans(s[i..i + |word|], word);
      }
    }
  }
}
