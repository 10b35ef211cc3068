/**
 * `wrapWildcardSearch` and `unwrapWildcardSearch`: turning a search term into a
 * case-insensitive "contains" regular expression and back.
 */
module Wildcard {

  const WildcardPrefix: string := "(?i).*"
  const WildcardSuffix: string := ".*"

  /** `input.substring(0, 6) === '(?i).*'`; a shorter input is its own substring and
      never equals the six-character prefix. */
  predicate HasWildcardPrefix(s: string)
  {
    |s| >= 6 && s[..6] == WildcardPrefix
  }

  /** `input.slice(-2) === '.*'`. */
  predicate HasWildcardSuffix(s: string)
  {
    |s| >= 2 && s[|s| - 2..] == WildcardSuffix
  }

  /** `wrapWildcardSearch`. */
  function Wrap(s: string): (r: string)
    ensures HasWildcardPrefix(r) || r == ".+"
  {
    if s == ".+" then s
    else if !HasWildcardPrefix(s) then
      assert (WildcardPrefix + s + WildcardSuffix)[..6] == WildcardPrefix;
      WildcardPrefix + s + WildcardSuffix
    else s
  }

  /** `unwrapWildcardSearch`: `input.slice(6).slice(0, -2)`, where slicing off two
      characters from a string of fewer than two gives "". A term carrying both the
      prefix and the suffix loses them (a term too short to hold both apart, such as
      `(?i).*` itself, becomes ""); any other term is returned as it is. */
  function Unwrap(s: string): (r: string)
    ensures HasWildcardPrefix(s) && HasWildcardSuffix(s) && |s| >= 8 ==>
      s == WildcardPrefix + r + WildcardSuffix
    ensures HasWildcardPrefix(s) && HasWildcardSuffix(s) && |s| < 8 ==> r == ""
    ensures !(HasWildcardPrefix(s) && HasWildcardSuffix(s)) ==> r == s
  {
    if HasWildcardPrefix(s) && HasWildcardSuffix(s) then
      var t := s[6..];
      if |t| >= 2 then t[..|t| - 2] else ""
    else s
  }

  /** Wrapping leaves `.+` and anything already wrapped alone, and otherwise surrounds
      the term with the prefix and suffix. */
  lemma WrapCases(s: string)
    ensures s == ".+" || HasWildcardPrefix(s) ==> Wrap(s) == s
    ensures s != ".+" && !HasWildcardPrefix(s) ==> Wrap(s) == WildcardPrefix + s + WildcardSuffix && Wrap(s) != s
  {
  }

  /** Wrapping twice is wrapping once. */
  lemma WrapIdempotent(s: string)
    ensures Wrap(Wrap(s)) == Wrap(s)
  {
  }

  /** Unwrapping changes exactly the inputs that carry both the prefix and the suffix. */
  lemma UnwrapChanges(s: string)
    ensures Unwrap(s) != s <==> HasWildcardPrefix(s) && HasWildcardSuffix(s)
  {
    if HasWildcardPrefix(s) && HasWildcardSuffix(s) {
      assert |Unwrap(s)| < |s|;
    }
  }

  /** Unwrapping undoes wrapping for every term that does not already start with the
      prefix, including "" and `.+`. */
  lemma UnwrapWrap(x: string)
    requires !HasWildcardPrefix(x)
    ensures Unwrap(Wrap(x)) == x
  {
    if x != ".+" {
      var w := WildcardPrefix + x + WildcardSuffix;
      assert w[..6] == WildcardPrefix;
      assert w[|w| - 2..] == WildcardSuffix;
      assert w[6..] == x + WildcardSuffix;
      assert w[6..][..|w[6..]| - 2] == x;
    }
  }

  /** Wrapping undoes unwrapping for a wrapped term whose inside is neither `.+` nor
      itself starts with the prefix. */
  lemma WrapUnwrap(s: string)
    requires HasWildcardPrefix(s) && HasWildcardSuffix(s) && |s| >= 8
    requires s[6..|s| - 2] != ".+" && !HasWildcardPrefix(s[6..|s| - 2])
    ensures Wrap(Unwrap(s)) == s
  {
    var inner := s[6..|s| - 2];
    assert Unwrap(s) == inner;
    assert s == s[..6] + inner + s[|s| - 2..];
  }
}
