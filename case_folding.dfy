/** Lower-casing of type tags and the case-insensitive comparison it amounts to. */
module CaseFolding {

  /** Lower-cases one character: `A`..`Z` become `a`..`z`, everything else is kept. */
  function LowerChar(c: char): char
  {
    if 'A' <= c <= 'Z' then (c as int + 32) as char else c
  }

  /** Upper-cases one character: `a`..`z` become `A`..`Z`, everything else is kept. */
  function UpperChar(c: char): char
  {
    if 'a' <= c <= 'z' then (c as int - 32) as char else c
  }

  /** `str::to_lowercase`, character by character. */
  function Lowercase(s: string): (r: string)
    ensures |r| == |s|
    ensures forall i :: 0 <= i < |s| ==> r[i] == LowerChar(s[i])
  {
    if s == [] then [] else [LowerChar(s[0])] + Lowercase(s[1..])
  }

  /** A word made only of the letters `a`..`z`. */
  predicate IsLowerWord(word: string)
  {
    forall i :: 0 <= i < |word| ==> 'a' <= word[i] <= 'z'
  }

  /** `s` spells `word` with each letter in either case ("STRING", "String", "sTrInG", ...). */
  predicate SpellsIgnoringCase(s: string, word: string)
  {
    |s| == |word| && forall i :: 0 <= i < |s| ==> s[i] == word[i] || s[i] == UpperChar(word[i])
  }

  /** Lower-casing `s` gives the lower-case `word` exactly when `s` spells `word` in any case. */
  lemma LowercaseIsWord(s: string, word: string)
    requires IsLowerWord(word)
    ensures Lowercase(s) == word <==> SpellsIgnoringCase(s, word)
  {
  }
}
