/** Text helpers shared by the Python and TypeScript parts of the dashboard:
    whitespace as Python's `str.isspace` sees it, `str.strip()`, prefixes,
    display-title truncation, and the code-point lexicographic order that
    Python's `<` on `str` (and `sorted`) uses. */
module Text {

  /** Python's `str.isspace()`: the characters `str.strip()` and `int()` discard. */
  predicate IsSpace(c: char) {
    || c == ' '
    || ('\t' <= c <= '\r')
    || ('\U{1C}' <= c <= '\U{1F}')
    || c == '\U{85}' || c == '\U{A0}' || c == '\U{1680}'
    || ('\U{2000}' <= c <= '\U{200A}')
    || c == '\U{2028}' || c == '\U{2029}' || c == '\U{202F}' || c == '\U{205F}' || c == '\U{3000}'
  }

  /** Number of whitespace characters at the start of `s`. */
  function LeadingSpaces(s: string): (n: nat)
    ensures n <= |s|
    ensures forall i :: 0 <= i < n ==> IsSpace(s[i])
    ensures n == |s| || !IsSpace(s[n])
  {
    if |s| == 0 || !IsSpace(s[0]) then 0 else 1 + LeadingSpaces(s[1..])
  }

  /** Number of whitespace characters at the end of `s`. */
  function TrailingSpaces(s: string): (n: nat)
    ensures n <= |s|
    ensures forall i :: |s| - n <= i < |s| ==> IsSpace(s[i])
    ensures n == |s| || !IsSpace(s[|s| - 1 - n])
  {
    if |s| == 0 || !IsSpace(s[|s| - 1]) then 0 else 1 + TrailingSpaces(s[..|s| - 1])
  }

  /** Python's `str.strip()` with no argument: the slice of `s` between its
      leading and its trailing whitespace. */
  function Strip(s: string): (r: string)
    ensures LeadingSpaces(s) + |r| <= |s|
    ensures r == [] || (!IsSpace(r[0]) && !IsSpace(r[|r| - 1]))
    ensures r == s[LeadingSpaces(s)..LeadingSpaces(s) + |r|]
    ensures forall i :: LeadingSpaces(s) + |r| <= i < |s| ==> IsSpace(s[i])
  {
    var t := s[LeadingSpaces(s)..];
    t[..|t| - TrailingSpaces(t)]
  }

  /** A string that neither starts nor ends with whitespace is left alone by `Strip`. */
  lemma StripUnchanged(s: string)
    requires s == [] || (!IsSpace(s[0]) && !IsSpace(s[|s| - 1]))
    ensures Strip(s) == s
  {
    var t := s[LeadingSpaces(s)..];
    assert t == s;
  }

  /** A string made only of whitespace strips to the empty string, and only such a string does. */
  lemma StripEmptyIffBlank(s: string)
    ensures Strip(s) == [] <==> forall i :: 0 <= i < |s| ==> IsSpace(s[i])
  {
    if LeadingSpaces(s) < |s| {
      var t := s[LeadingSpaces(s)..];
      assert t[0] == s[LeadingSpaces(s)];
    }
  }

  /** Python's `str.startswith` and JavaScript's `String.prototype.startsWith`. */
  predicate StartsWith(s: string, prefix: string) {
    |prefix| <= |s| && s[..|prefix|] == prefix
  }

  /** A display title cut to its first `n` characters followed by "..." when it
      is longer than `n` characters, and otherwise unchanged. */
  function Truncate(title: string, n: nat): (r: string)
    ensures |title| <= n ==> r == title
    ensures |title| > n ==> |r| == n + 3 && StartsWith(r, title[..n]) && r[n..] == "..."
  {
    if |title| > n then title[..n] + "..." else title
  }

  /** A truncated title is at most `n + 3` characters long, and truncating it again changes nothing. */
  lemma TruncateIdempotent(title: string, n: nat)
    ensures |Truncate(title, n)| <= n + 3
    ensures Truncate(Truncate(title, n), n) == Truncate(title, n)
  {
    if |title| > n {
      var r := Truncate(title, n);
      assert r[..n] + "..." == r;
    }
  }

  /** `a < b` on Python `str`: code-point lexicographic order, a proper prefix first. */
  predicate LexLess(a: string, b: string)
    decreases |a|
  {
    if |a| == 0 then |b| > 0
    else if |b| == 0 then false
    else if a[0] != b[0] then a[0] < b[0]
    else LexLess(a[1..], b[1..])
  }

  lemma {:induction false} LexLessIrreflexive(a: string)
    ensures !LexLess(a, a)
  {
    if |a| > 0 {
      LexLessIrreflexive(a[1..]);
    }
  }

  lemma {:induction false} LexLessTransitive(a: string, b: string, c: string)
    requires LexLess(a, b) && LexLess(b, c)
    ensures LexLess(a, c)
  {
    if |a| > 0 && a[0] == b[0] && b[0] == c[0] {
      LexLessTransitive(a[1..], b[1..], c[1..]);
    }
  }

  lemma {:induction false} LexLessTotal(a: string, b: string)
    requires a != b
    ensures LexLess(a, b) || LexLess(b, a)
  {
    if |a| > 0 && |b| > 0 && a[0] == b[0] {
      assert a == [a[0]] + a[1..] && b == [b[0]] + b[1..];
      LexLessTotal(a[1..], b[1..]);
    }
  }

  lemma {:induction false} LexLessAsymmetric(a: string, b: string)
    requires LexLess(a, b)
    ensures !LexLess(b, a)
  {
    if |a| > 0 && a[0] == b[0] {
      LexLessAsymmetric(a[1..], b[1..]);
    }
  }

  /** Prefixes of equal length decide the order unless they are equal. */
  lemma {:induction false} LexLessConcat(p: string, q: string, s: string, t: string)
    requires |p| == |q|
    ensures LexLess(p + s, q + t) <==> LexLess(p, q) || (p == q && LexLess(s, t))
    decreases |p|
  {
    if |p| > 0 {
      assert (p + s)[1..] == p[1..] + s && (q + t)[1..] == q[1..] + t;
      assert (p + s)[0] == p[0] && (q + t)[0] == q[0];
      LexLessConcat(p[1..], q[1..], s, t);
      if p[0] == q[0] && p[1..] == q[1..] {
        assert p == [p[0]] + p[1..] && q == [q[0]] + q[1..];
      }
    } else {
      assert p + s == s && q + t == t;
    }
  }

  predicate StrictlyIncreasing(s: seq<string>) {
    forall i, j :: 0 <= i < j < |s| ==> LexLess(s[i], s[j])
  }

  /** Inserts `x` into an increasing sequence unless it is already there. */
  function InsertUnique(x: string, s: seq<string>): (r: seq<string>)
  {
    if s == [] then [x]
    else if x == s[0] then s
    else if LexLess(x, s[0]) then [x] + s
    else [s[0]] + InsertUnique(x, s[1..])
  }

  lemma {:induction false} InsertUniqueSpec(x: string, s: seq<string>)
    requires StrictlyIncreasing(s)
    ensures StrictlyIncreasing(InsertUnique(x, s))
    ensures forall y :: y in InsertUnique(x, s) <==> y in s || y == x
    ensures x !in s ==> multiset(InsertUnique(x, s)) == multiset(s) + multiset{x}
  {
    if s == [] {
    } else if x == s[0] {
    } else if LexLess(x, s[0]) {
      var r := [x] + s;
      forall i, j | 0 <= i < j < |r| ensures LexLess(r[i], r[j]) {
        if i == 0 && j > 1 {
          LexLessTransitive(x, s[0], s[j - 1]);
        }
      }
    } else {
      LexLessTotal(x, s[0]);
      InsertUniqueSpec(x, s[1..]);
      var tail := InsertUnique(x, s[1..]);
      var r := [s[0]] + tail;
      forall i, j | 0 <= i < j < |r| ensures LexLess(r[i], r[j]) {
        if i == 0 {
          assert r[j] in tail;
        }
      }
      assert s == [s[0]] + s[1..];
    }
  }

  /** Python's `sorted(set(xs))` for strings: the distinct elements in increasing order. */
  function SortedDistinct(xs: seq<string>): (r: seq<string>)
  {
    if xs == [] then [] else InsertUnique(xs[0], SortedDistinct(xs[1..]))
  }

  predicate Distinct<T(==)>(s: seq<T>) {
    forall i, j :: 0 <= i < j < |s| ==> s[i] != s[j]
  }

  /** A sequence without repeats has as many elements as its set. */
  lemma {:induction false} DistinctCard<T>(s: seq<T>)
    requires Distinct(s)
    ensures |set x | x in s| == |s|
  {
    if s != [] {
      var init := s[..|s| - 1];
      var last := s[|s| - 1];
      assert Distinct(init);
      DistinctCard(init);
      assert forall i :: 0 <= i < |init| ==> init[i] != last;
      assert (set x | x in s) == (set x | x in init) + {last} by {
        assert s == init + [last];
      }
    }
  }

  /** `sorted(set(xs))` is strictly increasing and holds exactly the elements of
      `xs`; when `xs` has no duplicates it is a permutation of `xs`. */
  lemma {:induction false} SortedDistinctSpec(xs: seq<string>)
    ensures StrictlyIncreasing(SortedDistinct(xs))
    ensures forall y :: y in SortedDistinct(xs) <==> y in xs
    ensures Distinct(xs) ==> multiset(SortedDistinct(xs)) == multiset(xs)
  {
    if xs != [] {
      SortedDistinctSpec(xs[1..]);
      InsertUniqueSpec(xs[0], SortedDistinct(xs[1..]));
      assert xs == [xs[0]] + xs[1..];
      if Distinct(xs) {
        assert Distinct(xs[1..]);
        assert xs[0] !in xs[1..];
      }
    }
  }

  /** A strictly increasing sequence has no duplicates. */
  lemma StrictlyIncreasingDistinct(s: seq<string>)
    requires StrictlyIncreasing(s)
    ensures Distinct(s)
  {
    forall i, j | 0 <= i < j < |s| ensures s[i] != s[j] {
      if s[i] == s[j] {
        LexLessIrreflexive(s[i]);
      }
    }
  }
}
