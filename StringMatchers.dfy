/** The string matchers of StringMatchers.hpp: `eq`, `starts_with`, `ends_with` and
    `contains`, each in a plain and a case-insensitive form. Each one is a predicate
    matcher whose stored argument is the pattern, described as a quoted string. */
module StringMatchers {
  import opened Wrappers
  import opened GeneralMatchers

  /** `std::ranges::mismatch`: the length of the longest common prefix. */
  function Mismatch<T(==)>(a: seq<T>, b: seq<T>): (n: nat)
    ensures n <= |a| && n <= |b|
    ensures a[..n] == b[..n]
    ensures n < |a| && n < |b| ==> a[n] != b[n]
  {
    if a == [] || b == [] || a[0] != b[0] then 0
    else
      var n := 1 + Mismatch(a[1..], b[1..]);
      assert a[..n] == [a[0]] + a[1..][..n - 1];
      assert b[..n] == [b[0]] + b[1..][..n - 1];
      n
  }

  /** `std::views::reverse`. */
  function Reverse<T>(s: seq<T>): (r: seq<T>)
    ensures |r| == |s| && forall k :: 0 <= k < |s| ==> r[k] == s[|s| - 1 - k]
  {
    if s == [] then [] else Reverse(s[1..]) + [s[0]]
  }

  /** `std::ranges::search`: the first position at which `p` occurs in `t`, or `None`
      when the search ends without a match. An empty pattern is found at 0. */
  function Search<T(==)>(t: seq<T>, p: seq<T>): Option<nat>
    decreases |t|
  {
    if |t| < |p| then None
    else if t[..|p|] == p then Some(0)
    else
      match Search(t[1..], p)
      case None => None
      case Some(i) => Some(i + 1)
  }

  /** `p` occurs in `t` starting at `i`. */
  predicate OccursAt<T(==)>(t: seq<T>, p: seq<T>, i: int)
  {
    0 <= i && i + |p| <= |t| && t[i..i + |p|] == p
  }

  /** The search finds the first occurrence, and finds nothing only when there is
      none. */
  lemma {:induction false} SearchSpec<T>(t: seq<T>, p: seq<T>)
    ensures Search(t, p).Some? <==> exists i :: OccursAt(t, p, i)
    ensures Search(t, p).Some? ==>
              OccursAt(t, p, Search(t, p).value)
              && forall j :: 0 <= j < Search(t, p).value ==> !OccursAt(t, p, j)
    decreases |t|
  {
    if |t| < |p| {
    } else if t[..|p|] == p {
      assert OccursAt(t, p, 0);
    } else {
      SearchSpec(t[1..], p);
      forall i | 1 <= i
        ensures OccursAt(t, p, i) <==> OccursAt(t[1..], p, i - 1)
      {
        if i + |p| <= |t| {
          assert t[1..][i - 1..i - 1 + |p|] == t[i..i + |p|];
        }
      }
      if exists i :: OccursAt(t, p, i) {
        var i :| OccursAt(t, p, i);
        assert i != 0;
        assert OccursAt(t[1..], p, i - 1);
      }
      if Search(t[1..], p).Some? {
        var j := Search(t[1..], p).value;
        assert OccursAt(t, p, j + 1);
        forall k | 0 <= k < j + 1 ensures !OccursAt(t, p, k) {
          if k > 0 {
            assert !OccursAt(t[1..], p, k - 1);
          }
        }
      }
    }
  }

  /** `std::toupper` on a character of the "C" locale. */
  function ToUpper(c: char): char
  {
    if 'a' <= c <= 'z' then (c as int - 32) as char else c
  }

  /** `string_case_fold_converter<char>`: element-wise `std::toupper`. */
  function CaseFold(s: string): (r: string)
    ensures |r| == |s| && forall k :: 0 <= k < |s| ==> r[k] == ToUpper(s[k])
  {
    if s == [] then [] else [ToUpper(s[0])] + CaseFold(s[1..])
  }

  /** The four comparisons. */
  datatype StringOp = Equal | StartsWith | EndsWith | Contains

  /** The comparison each matcher's predicate performs on its two views. */
  predicate Test(op: StringOp, target: string, pattern: string)
  {
    match op
    case Equal => target == pattern
    case StartsWith => Mismatch(target, pattern) == |pattern|
    case EndsWith => Mismatch(Reverse(target), Reverse(pattern)) == |pattern|
    case Contains => pattern == [] || Search(target, pattern).Some?
  }

  /** The text of a description before the pattern, for the matcher (`inverted` is
      false) or its inversion: "is equal to ", "starts not with ",
      "is case-insensitively not equal to ", "case-insensitively contains ", … */
  function Lead(op: StringOp, caseInsensitive: bool, inverted: bool): string
  {
    match op
    case Equal => "is " + Adverb(caseInsensitive) + Negation(inverted) + "equal to "
    case StartsWith => Adverb(caseInsensitive) + "starts " + Negation(inverted) + "with "
    case EndsWith => Adverb(caseInsensitive) + "ends " + Negation(inverted) + "with "
    case Contains => Adverb(caseInsensitive) + "contains " + Negation(inverted)
  }

  function Adverb(caseInsensitive: bool): string
  {
    if caseInsensitive then "case-insensitively " else ""
  }

  function Negation(inverted: bool): string
  {
    if inverted then "not " else ""
  }

  /** A char string as the printer shows it: in double quotes. */
  function Quoted(s: string): string
  {
    "\"" + s + "\""
  }

  /** `str::eq(p)`, `str::starts_with(p)`, `str::ends_with(p)`, `str::contains(p)`,
      and with `caseInsensitive` their `case_insensitive` overloads, which apply the
      same comparison to the case-folded target and pattern. */
  function StringMatcher(op: StringOp, pattern: string, caseInsensitive: bool): Matcher<string, string>
  {
    PredicateMatcher(
      (t: string, a: seq<string>) =>
        |a| == 1 && if caseInsensitive then Test(op, CaseFold(t), CaseFold(a[0])) else Test(op, t, a[0]),
      WithField(Lead(op, caseInsensitive, false)),
      WithField(Lead(op, caseInsensitive, true)),
      [Arg(pattern, Some(Quoted(pattern)))])
  }

  /** `eq(p)` matches exactly the targets equal to `p`. */
  lemma EqualSpec(pattern: string, target: string)
    ensures Matches(StringMatcher(Equal, pattern, false), target) <==> target == pattern
  {
  }

  /** `starts_with(p)` matches exactly the targets that have `p` as a prefix. */
  lemma StartsWithSpec(pattern: string, target: string)
    ensures Matches(StringMatcher(StartsWith, pattern, false), target) <==> pattern <= target
  {
    PrefixByMismatch(target, pattern);
  }

  /** The common prefix covers all of `p` exactly when `p` is a prefix of `t`. */
  lemma PrefixByMismatch<T>(t: seq<T>, p: seq<T>)
    ensures Mismatch(t, p) == |p| <==> p <= t
  {
  }

  /** `ends_with(p)` matches exactly the targets that have `p` as a suffix. */
  lemma EndsWithSpec(pattern: string, target: string)
    ensures Matches(StringMatcher(EndsWith, pattern, false), target)
            <==> |pattern| <= |target| && target[|target| - |pattern|..] == pattern
  {
    PrefixByMismatch(Reverse(target), Reverse(pattern));
    ReversedPrefix(target, pattern);
  }

  /** The reversed `p` is a prefix of the reversed `t` exactly when `p` is a suffix
      of `t`. */
  lemma ReversedPrefix<T>(t: seq<T>, p: seq<T>)
    ensures Reverse(p) <= Reverse(t) <==> |p| <= |t| && t[|t| - |p|..] == p
  {
    if |p| <= |t| && Reverse(p) <= Reverse(t) {
      ReversedPrefixToSuffix(t, p);
    }
    if |p| <= |t| && t[|t| - |p|..] == p {
      SuffixToReversedPrefix(t, p);
    }
  }

  lemma ReversedPrefixToSuffix<T>(t: seq<T>, p: seq<T>)
    requires |p| <= |t| && Reverse(p) <= Reverse(t)
    ensures t[|t| - |p|..] == p
  {
    var rt, rp, tail := Reverse(t), Reverse(p), t[|t| - |p|..];
    forall k | 0 <= k < |p| ensures tail[k] == p[k] {
      assert rt[|p| - 1 - k] == rp[|p| - 1 - k];
    }
  }

  lemma SuffixToReversedPrefix<T>(t: seq<T>, p: seq<T>)
    requires |p| <= |t| && t[|t| - |p|..] == p
    ensures Reverse(p) <= Reverse(t)
  {
    var rt, rp, tail := Reverse(t), Reverse(p), t[|t| - |p|..];
    forall k | 0 <= k < |p| ensures rt[k] == rp[k] {
      assert tail[|p| - 1 - k] == p[|p| - 1 - k];
    }
    assert rp == rt[..|p|];
  }

  /** `contains(p)` matches exactly the targets in which `p` occurs. */
  lemma ContainsSpec(pattern: string, target: string)
    ensures Matches(StringMatcher(Contains, pattern, false), target)
            <==> exists i :: OccursAt(target, pattern, i)
  {
    SearchSpec(target, pattern);
    if pattern == [] {
      assert OccursAt(target, pattern, 0);
    }
  }

  /** The empty pattern: `starts_with`, `ends_with` and `contains` match every
      target, while `eq` matches only the empty target. */
  lemma EmptyPattern(target: string)
    ensures Matches(StringMatcher(StartsWith, [], false), target)
    ensures Matches(StringMatcher(EndsWith, [], false), target)
    ensures Matches(StringMatcher(Contains, [], false), target)
    ensures Matches(StringMatcher(Equal, [], false), target) <==> target == []
  {
    StartsWithSpec([], target);
    EndsWithSpec([], target);
  }

  /** A case-insensitive matcher is the plain matcher on the case-folded target and
      pattern, and matches wherever the plain one does. */
  lemma CaseInsensitiveSpec(op: StringOp, pattern: string, target: string)
    ensures Matches(StringMatcher(op, pattern, true), target)
            == Matches(StringMatcher(op, CaseFold(pattern), false), CaseFold(target))
    ensures Matches(StringMatcher(op, pattern, false), target) ==> Matches(StringMatcher(op, pattern, true), target)
  {
    match op
    case Equal =>
    case StartsWith =>
      if Matches(StringMatcher(op, pattern, false), target) {
        StartsWithFolded(pattern, target);
      }
    case EndsWith =>
      if Matches(StringMatcher(op, pattern, false), target) {
        EndsWithFolded(pattern, target);
      }
    case Contains =>
      if Matches(StringMatcher(op, pattern, false), target) {
        ContainsFolded(pattern, target);
      }
  }

  lemma StartsWithFolded(pattern: string, target: string)
    requires Matches(StringMatcher(StartsWith, pattern, false), target)
    ensures Matches(StringMatcher(StartsWith, CaseFold(pattern), false), CaseFold(target))
  {
    StartsWithSpec(pattern, target);
    StartsWithSpec(CaseFold(pattern), CaseFold(target));
    FoldKeepsSlice(target, pattern, 0);
  }

  lemma EndsWithFolded(pattern: string, target: string)
    requires Matches(StringMatcher(EndsWith, pattern, false), target)
    ensures Matches(StringMatcher(EndsWith, CaseFold(pattern), false), CaseFold(target))
  {
    var ft, fp := CaseFold(target), CaseFold(pattern);
    EndsWithSpec(pattern, target);
    FoldKeepsSuffix(target, pattern);
    assert |fp| <= |ft| && ft[|ft| - |fp|..] == fp;
    EndsWithSpec(fp, ft);
  }

  lemma FoldKeepsSuffix(t: string, p: string)
    requires |p| <= |t| && t[|t| - |p|..] == p
    ensures CaseFold(t)[|t| - |p|..] == CaseFold(p)
  {
    var i := |t| - |p|;
    assert t[i..i + |p|] == t[i..];
    FoldKeepsSlice(t, p, i);
    assert CaseFold(t)[i..i + |p|] == CaseFold(t)[i..];
  }

  lemma ContainsFolded(pattern: string, target: string)
    requires Matches(StringMatcher(Contains, pattern, false), target)
    ensures Matches(StringMatcher(Contains, CaseFold(pattern), false), CaseFold(target))
  {
    ContainsSpec(pattern, target);
    ContainsSpec(CaseFold(pattern), CaseFold(target));
    var i :| OccursAt(target, pattern, i);
    FoldKeepsSlice(target, pattern, i);
  }

  lemma FoldKeepsSlice(t: string, p: string, i: int)
    requires OccursAt(t, p, i)
    ensures OccursAt(CaseFold(t), CaseFold(p), i)
  {
    var ft, fp := CaseFold(t), CaseFold(p);
    forall k | 0 <= k < |p| ensures ft[i..i + |p|][k] == fp[k] {
      assert t[i..i + |p|][k] == p[k];
    }
    assert ft[i..i + |p|] == fp;
  }

  /** Case folding is idempotent, so folding a folded pattern changes nothing. */
  lemma CaseFoldIdempotent(s: string)
    ensures CaseFold(CaseFold(s)) == CaseFold(s)
  {
  }

  /** Every description is its lead text followed by the quoted pattern, and the
      inversion swaps in the negated lead ("starts with" becomes "starts not
      with"). */
  lemma DescribeSpec(op: StringOp, pattern: string, caseInsensitive: bool)
    ensures Describe(StringMatcher(op, pattern, caseInsensitive))
            == Some(Lead(op, caseInsensitive, false) + Quoted(pattern))
    ensures Describe(Not(StringMatcher(op, pattern, caseInsensitive)))
            == Some(Lead(op, caseInsensitive, true) + Quoted(pattern))
  {
    var m := StringMatcher(op, pattern, caseInsensitive);
    LeadPlain(op, caseInsensitive, false);
    LeadPlain(op, caseInsensitive, true);
    DescribeField(m, Lead(op, caseInsensitive, false), Quoted(pattern));
    DescribeField(Not(m), Lead(op, caseInsensitive, true), Quoted(pattern));
  }

  lemma LeadPlain(op: StringOp, caseInsensitive: bool, inverted: bool)
    ensures Plain(Lead(op, caseInsensitive, inverted))
  {
    WordsPlain();
    var adverb, negation := Adverb(caseInsensitive), Negation(inverted);
    match op
    case Equal =>
      PlainConcat("is ", adverb);
      PlainConcat("is " + adverb, negation);
      PlainConcat("is " + adverb + negation, "equal to ");
    case StartsWith =>
      PlainConcat(adverb, "starts ");
      PlainConcat(adverb + "starts ", negation);
      PlainConcat(adverb + "starts " + negation, "with ");
    case EndsWith =>
      PlainConcat(adverb, "ends ");
      PlainConcat(adverb + "ends ", negation);
      PlainConcat(adverb + "ends " + negation, "with ");
    case Contains =>
      PlainConcat(adverb, "contains ");
      PlainConcat(adverb + "contains ", negation);
  }

  lemma WordsPlain()
    ensures Plain("is ") && Plain("equal to ") && Plain("starts ") && Plain("ends ")
    ensures Plain("with ") && Plain("contains ") && Plain("not ") && Plain("")
    ensures Plain("case-insensitively ")
  {
    ShortWordsPlain();
    AdverbPlain();
  }

  lemma ShortWordsPlain()
    ensures Plain("is ") && Plain("equal to ") && Plain("starts ") && Plain("ends ")
    ensures Plain("with ") && Plain("contains ") && Plain("not ") && Plain("")
  {
  }

  lemma AdverbPlain()
    ensures Plain("case-insensitively ")
  {
  }
}
