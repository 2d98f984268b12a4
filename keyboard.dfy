/**
 * The keyboard-only allow-list filter: each code point is kept when it is
 * a letter, an emoji, or one of a fixed set of keyboard symbols, and
 * dropped otherwise.
 */
module Keyboard {
  import opened Strings

  /**
   * The Unicode property tables behind `\p{Letter}` and `\p{Emoji}`. They
   * come from the regular-expression library, so the model takes them as
   * parameters rather than fixing their contents.
   */
  datatype UnicodeTables = UnicodeTables(isLetter: char -> bool, isEmoji: char -> bool)

  /** The literal part of the allow-list: digits, keyboard punctuation, € and £, space and '\n'. */
  const KeyboardSymbols: string := "0123456789~`?!@#$\U{20AC}\U{00A3}%^&*()_-+={}[]\\ \n<>/.,:;\"'|"

  /** `allowed_pattern.fullmatch(char)`. */
  predicate Allowed(tables: UnicodeTables, c: char)
  {
    tables.isLetter(c) || c in KeyboardSymbols || tables.isEmoji(c)
  }

  /** The text the filter leaves: the allowed code points, in order. */
  function KeepAllowed(tables: UnicodeTables, s: string): (r: string)
  {
    if s == [] then []
    else
      var last := s[|s| - 1];
      KeepAllowed(tables, s[..|s| - 1]) + if Allowed(tables, last) then [last] else []
  }

  /** How many code points the filter drops. */
  function CountDisallowed(tables: UnicodeTables, s: string): (n: nat)
  {
    if s == [] then 0
    else CountDisallowed(tables, s[..|s| - 1]) + if Allowed(tables, s[|s| - 1]) then 0 else 1
  }

  /**
   * What the filter leaves is a subsequence of its input made only of
   * allowed code points, and it is shorter than the input by exactly the
   * number of disallowed code points, so every allowed one is still there.
   */
  lemma {:induction false} KeepAllowedSpec(tables: UnicodeTables, s: string)
    ensures IsSubsequence(KeepAllowed(tables, s), s)
    ensures forall c :: c in KeepAllowed(tables, s) ==> Allowed(tables, c)
    ensures |KeepAllowed(tables, s)| == |s| - CountDisallowed(tables, s)
    decreases |s|
  {
    if s != [] {
      var init, last := s[..|s| - 1], s[|s| - 1];
      KeepAllowedSpec(tables, init);
      var piece: string := if Allowed(tables, last) then [last] else [];
      if Allowed(tables, last) {
        SubsequenceOfItself([last]);
      } else {
        EmptyIsSubsequence([last]);
      }
      SubsequenceConcat(KeepAllowed(tables, init), init, piece, [last]);
      assert s == init + [last];
    }
  }

  /** When no code point is disallowed, the filter returns its input. */
  lemma {:induction false} NothingDisallowedKeepsAll(tables: UnicodeTables, s: string)
    ensures CountDisallowed(tables, s) == 0 ==> KeepAllowed(tables, s) == s
    decreases |s|
  {
    if s != [] {
      NothingDisallowedKeepsAll(tables, s[..|s| - 1]);
      assert s == s[..|s| - 1] + [s[|s| - 1]];
    }
  }
}
