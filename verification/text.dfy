/**
 * String and sequence helpers with the semantics of the JavaScript and lodash
 * operations the query compiler uses: `Array.prototype.join`, `String.prototype.split`
 * with a one-character separator, `String.prototype.trim`, lodash `trim(s, chars)`,
 * and the "order-preserving subsequence" relation that `Array.prototype.filter` keeps.
 */
module Text {

  /** Characters removed by `String.prototype.trim`: white space and line terminators. */
  const Whitespace: set<char> := {
    ' ', '\t', '\n', '\r', '\U{000B}', '\U{000C}', '\U{00A0}', '\U{1680}',
    '\U{2000}', '\U{2001}', '\U{2002}', '\U{2003}', '\U{2004}', '\U{2005}',
    '\U{2006}', '\U{2007}', '\U{2008}', '\U{2009}', '\U{200A}', '\U{2028}',
    '\U{2029}', '\U{202F}', '\U{205F}', '\U{3000}', '\U{FEFF}'
  }

  /** The character set `' ,'` passed to lodash `trim` by the label renderer. */
  const SpaceOrComma: set<char> := {' ', ','}

  /** Every character of `s` is in `cs`. */
  predicate AllIn(s: string, cs: set<char>)
  {
    forall i :: 0 <= i < |s| ==> s[i] in cs
  }

  /** `s` neither starts nor ends with a character of `cs` (vacuously true of ""). */
  predicate Clean(s: string, cs: set<char>)
  {
    s == [] || (s[0] !in cs && s[|s| - 1] !in cs)
  }

  /** `s` is non-empty and does not end with a character of `cs`. */
  predicate EndsOutside(s: string, cs: set<char>)
  {
    s != [] && s[|s| - 1] !in cs
  }

  /** A set of trimmed characters that does not touch the characters the renderers
      put at the edges of a fragment: quotes and operator symbols. */
  predicate SeparatorSet(cs: set<char>)
  {
    '"' !in cs && '=' !in cs && '!' !in cs && '~' !in cs && '<' !in cs && '>' !in cs && '|' !in cs
  }

  lemma SeparatorSets()
    ensures SeparatorSet(Whitespace) && SeparatorSet(SpaceOrComma)
  {
  }

  // ---------------------------------------------------------------- join

  /** `parts.join(sep)`. */
  function Join(parts: seq<string>, sep: string): string
  {
    if |parts| == 0 then ""
    else if |parts| == 1 then parts[0]
    else parts[0] + sep + Join(parts[1..], sep)
  }

  lemma {:induction false} JoinAppend(a: seq<string>, b: seq<string>, sep: string)
    requires a != [] && b != []
    ensures Join(a + b, sep) == Join(a, sep) + sep + Join(b, sep)
  {
    if |a| == 1 {
      assert (a + b)[1..] == b;
    } else {
      assert (a + b)[1..] == a[1..] + b;
      JoinAppend(a[1..], b, sep);
    }
  }

  /** Joining a concatenation, whichever side is empty. */
  lemma JoinConcat(a: seq<string>, b: seq<string>, sep: string)
    ensures Join(a + b, sep) ==
      if a == [] then Join(b, sep)
      else if b == [] then Join(a, sep)
      else Join(a, sep) + sep + Join(b, sep)
  {
    if a == [] {
      assert a + b == b;
    } else if b == [] {
      assert a + b == a;
    } else {
      JoinAppend(a, b, sep);
    }
  }

  /** A join of non-empty parts starts with the first part's first character and
      ends with the last part's last character. */
  lemma {:induction false} JoinEnds(parts: seq<string>, sep: string)
    requires parts != []
    requires forall i :: 0 <= i < |parts| ==> parts[i] != []
    ensures Join(parts, sep) != []
    ensures Join(parts, sep)[0] == parts[0][0]
    ensures Join(parts, sep)[|Join(parts, sep)| - 1] == parts[|parts| - 1][|parts[|parts| - 1]| - 1]
  {
    if |parts| > 1 {
      JoinEnds(parts[1..], sep);
    }
  }

  /** A join of parts that are all clean (and non-empty) is clean. */
  lemma JoinClean(parts: seq<string>, sep: string, cs: set<char>)
    requires forall i :: 0 <= i < |parts| ==> parts[i] != [] && Clean(parts[i], cs)
    ensures Clean(Join(parts, sep), cs)
  {
    if parts != [] {
      JoinEnds(parts, sep);
    }
  }

  // ---------------------------------------------------------------- split

  /** `s.split(c)` for a one-character separator: always at least one part, and an
      empty part wherever two separators are adjacent or `s` starts or ends with one. */
  function Split(s: string, c: char): (parts: seq<string>)
    ensures |parts| >= 1
  {
    if |s| == 0 then [""]
    else
      var rest := Split(s[1..], c);
      if s[0] == c then [""] + rest else [[s[0]] + rest[0]] + rest[1..]
  }

  lemma {:induction false} SplitNoSeparator(s: string, c: char)
    requires c !in s
    ensures Split(s, c) == [s]
  {
    if |s| > 0 {
      assert s[0] != c && c !in s[1..] by { assert s == [s[0]] + s[1..]; }
      SplitNoSeparator(s[1..], c);
      assert [s[0]] + s[1..] == s;
    }
  }

  lemma {:induction false} SplitAtSeparator(a: string, b: string, c: char)
    ensures Split(a + [c] + b, c) == Split(a, c) + Split(b, c)
  {
    if a == [] {
      assert a + [c] + b == [c] + b;
      assert ([c] + b)[1..] == b;
    } else {
      assert (a + [c] + b)[1..] == a[1..] + [c] + b;
      SplitAtSeparator(a[1..], b, c);
    }
  }

  /** Splitting undoes joining, for a non-empty list whose parts do not contain the
      separator. */
  lemma {:induction false} SplitJoin(parts: seq<string>, c: char)
    requires parts != []
    requires forall i :: 0 <= i < |parts| ==> c !in parts[i]
    ensures Split(Join(parts, [c]), c) == parts
  {
    SplitNoSeparator(parts[0], c);
    if |parts| > 1 {
      SplitJoin(parts[1..], c);
      SplitAtSeparator(parts[0], Join(parts[1..], [c]), c);
    }
  }

  /** Joining undoes splitting. */
  lemma {:induction false} JoinSplit(s: string, c: char)
    ensures Join(Split(s, c), [c]) == s
  {
    if |s| > 0 {
      JoinSplit(s[1..], c);
      var rest := Split(s[1..], c);
      if s[0] == c {
        assert Join([""] + rest, [c]) == "" + [c] + Join(rest, [c]);
      } else if |rest| == 1 {
        assert Split(s, c) == [[s[0]] + rest[0]];
      } else {
        var ps := Split(s, c);
        assert ps[1..] == rest[1..];
        assert Join(rest, [c]) == rest[0] + [c] + Join(rest[1..], [c]);
      }
    }
  }

  // ---------------------------------------------------------------- trim

  function TrimStart(s: string, cs: set<char>): string
  {
    if s != [] && s[0] in cs then TrimStart(s[1..], cs) else s
  }

  function TrimEnd(s: string, cs: set<char>): string
  {
    if s != [] && s[|s| - 1] in cs then TrimEnd(s[..|s| - 1], cs) else s
  }

  /** lodash `trim(s, chars)`; with `cs == Whitespace` also `s.trim()`. */
  function Trim(s: string, cs: set<char>): string
  {
    TrimEnd(TrimStart(s, cs), cs)
  }

  lemma {:induction false} TrimStartPrefix(p: string, x: string, cs: set<char>)
    requires AllIn(p, cs)
    requires x == [] || x[0] !in cs
    ensures TrimStart(p + x, cs) == x
  {
    if p != [] {
      assert (p + x)[1..] == p[1..] + x;
      TrimStartPrefix(p[1..], x, cs);
    }
  }

  lemma {:induction false} TrimEndSuffix(x: string, q: string, cs: set<char>)
    requires AllIn(q, cs)
    requires x == [] || x[|x| - 1] !in cs
    ensures TrimEnd(x + q, cs) == x
  {
    if q != [] {
      assert (x + q)[..|x + q| - 1] == x + q[..|q| - 1];
      TrimEndSuffix(x, q[..|q| - 1], cs);
    } else {
      assert x + q == x;
    }
  }

  /** Trimming strips exactly the padding around a clean core. */
  lemma TrimPadded(p: string, x: string, q: string, cs: set<char>)
    requires AllIn(p, cs) && AllIn(q, cs) && Clean(x, cs)
    ensures Trim(p + x + q, cs) == x
  {
    if x == [] {
      assert p + x + q == p + q;
      TrimStartPrefix(p + q, [], cs);
      assert p + q + [] == p + q;
    } else {
      assert p + x + q == p + (x + q);
      TrimStartPrefix(p, x + q, cs);
      TrimEndSuffix(x, q, cs);
    }
  }

  // ---------------------------------------------------------------- subsequences

  /** `a` is `b` with some elements removed and the rest in their original order. */
  predicate IsSubsequence<T(==)>(a: seq<T>, b: seq<T>)
    decreases |b|
  {
    if a == [] then true
    else if b == [] then false
    else if a[|a| - 1] == b[|b| - 1] then IsSubsequence(a[..|a| - 1], b[..|b| - 1])
    else IsSubsequence(a, b[..|b| - 1])
  }

  lemma {:induction false} SubsequenceDropLast<T>(a: seq<T>, b: seq<T>)
    requires a != [] && IsSubsequence(a, b)
    ensures IsSubsequence(a[..|a| - 1], b)
    decreases |b|, 0
  {
    if a[|a| - 1] == b[|b| - 1] {
      SubsequenceExtend(a[..|a| - 1], b[..|b| - 1], b[|b| - 1]);
      assert b[..|b| - 1] + [b[|b| - 1]] == b;
    } else {
      SubsequenceDropLast(a, b[..|b| - 1]);
      SubsequenceExtend(a[..|a| - 1], b[..|b| - 1], b[|b| - 1]);
      assert b[..|b| - 1] + [b[|b| - 1]] == b;
    }
  }

  lemma {:induction false} SubsequenceExtend<T>(a: seq<T>, b: seq<T>, x: T)
    requires IsSubsequence(a, b)
    ensures IsSubsequence(a, b + [x])
    decreases |b|, 1
  {
    if a != [] {
      assert (b + [x])[..|b|] == b;
      if a[|a| - 1] == x {
        SubsequenceDropLast(a, b);
      }
    }
  }

  /** A subsequence is never longer than the sequence it is taken from. */
  lemma {:induction false} SubsequenceLength<T>(a: seq<T>, b: seq<T>)
    requires IsSubsequence(a, b)
    ensures |a| <= |b|
    decreases |b|
  {
    if a != [] {
      if a[|a| - 1] == b[|b| - 1] {
        SubsequenceLength(a[..|a| - 1], b[..|b| - 1]);
      } else {
        SubsequenceLength(a, b[..|b| - 1]);
      }
    }
  }
}
