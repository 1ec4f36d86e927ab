/** The range matchers of matchers/RangeMatchers.hpp (`matches::range`; lines
    840-1011 of Matcher.hpp hold the same matchers, differing only in building the
    stored tuple with `std::tuple{}` instead of `std::make_tuple`): element-wise equality,
    permutation, sortedness, emptiness, size, and "each" / "any" element matching
    another matcher. Ranges are sequences; the printed form of an expected range is
    the text `std::format` gives for it, taken as given. */
module RangeMatchers {
  import opened Wrappers
  import opened Text
  import opened GeneralMatchers

  /** `std::ranges::equal` with a comparator. */
  function Equal<T, U>(target: seq<T>, expected: seq<U>, comp: (T, U) -> bool): bool
  {
    if target == [] || expected == [] then target == [] && expected == []
    else comp(target[0], expected[0]) && Equal(target[1..], expected[1..], comp)
  }

  /** Equal ranges have the same length and the comparator holds at every
      position. */
  lemma {:induction false} EqualSpec<T, U>(target: seq<T>, expected: seq<U>, comp: (T, U) -> bool)
    ensures Equal(target, expected, comp)
            <==> |target| == |expected| && forall k :: 0 <= k < |target| ==> comp(target[k], expected[k])
  {
    if target != [] && expected != [] {
      EqualSpec(target[1..], expected[1..], comp);
      if |target| == |expected| && forall k :: 0 <= k < |target[1..]| ==> comp(target[1..][k], expected[1..][k]) {
        if comp(target[0], expected[0]) {
          forall k | 0 <= k < |target| ensures comp(target[k], expected[k]) {
            if k > 0 {
              assert comp(target[1..][k - 1], expected[1..][k - 1]);
            }
          }
        }
      }
      if |target| == |expected| && forall k :: 0 <= k < |target| ==> comp(target[k], expected[k]) {
        forall k | 0 <= k < |target[1..]| ensures comp(target[1..][k], expected[1..][k]) {
          assert comp(target[k + 1], expected[k + 1]);
        }
      }
    }
  }

  /** `range::eq(expected, comp)`; `printed` is the printed expected range. */
  function RangeEq<T, U>(expected: seq<U>, printed: string, comp: (T, U) -> bool): Matcher<seq<T>, seq<U>>
  {
    PredicateMatcher((t: seq<T>, a: seq<seq<U>>) => |a| == 1 && Equal(t, a[0], comp),
                     WithField("elements are "), WithField("elements are not "), [Arg(expected, Some(printed))])
  }

  /** `range::eq` matches exactly the targets of the expected length whose elements
      are each related to the expected one at the same position; it reads "elements
      are …", and its inversion "elements are not …". */
  lemma RangeEqSpec<T, U>(expected: seq<U>, printed: string, comp: (T, U) -> bool, target: seq<T>)
    ensures Matches(RangeEq(expected, printed, comp), target)
            <==> |target| == |expected| && forall k :: 0 <= k < |target| ==> comp(target[k], expected[k])
    ensures Describe(RangeEq(expected, printed, comp)) == Some("elements are " + printed)
    ensures Describe(Not(RangeEq(expected, printed, comp))) == Some("elements are not " + printed)
  {
    EqualSpec(target, expected, comp);
    EqualLeadsPlain1(); EqualLeadsPlain2();
    DescribeField(RangeEq(expected, printed, comp), "elements are ", printed);
    DescribeField(Not(RangeEq(expected, printed, comp)), "elements are not ", printed);
  }

  lemma EqualLeadsPlain1()
    ensures Plain("elements are ")
  {
  }

  lemma EqualLeadsPlain2()
    ensures Plain("elements are not ")
  {
  }

  /** The first position in `s` whose key is `k`. */
  function IndexOf<T, K(==)>(s: seq<T>, key: T -> K, k: K): (r: Option<nat>)
    ensures r.Some? ==> r.value < |s| && key(s[r.value]) == k
    ensures r.None? ==> forall j :: 0 <= j < |s| ==> key(s[j]) != k
  {
    if s == [] then None
    else if key(s[0]) == k then Some(0)
    else
      match IndexOf(s[1..], key, k)
      case None => None
      case Some(j) => Some(j + 1)
  }

  /** `std::ranges::is_permutation` under the equivalence "same key": pair the first
      target element with an expected element of the same key, and go on with the
      rest. Every equivalence relation is "same key" for a suitable key. */
  function IsPermutation<T, K(==)>(target: seq<T>, expected: seq<T>, key: T -> K): bool
    decreases |target|
  {
    if target == [] then expected == []
    else
      match IndexOf(expected, key, key(target[0]))
      case None => false
      case Some(j) => IsPermutation(target[1..], expected[..j] + expected[j + 1..], key)
  }

  /** The keys of a sequence's elements, in order. */
  function Keys<T, K>(s: seq<T>, key: T -> K): (r: seq<K>)
    ensures |r| == |s| && forall j :: 0 <= j < |s| ==> r[j] == key(s[j])
  {
    if s == [] then [] else [key(s[0])] + Keys(s[1..], key)
  }

  lemma KeysAppend<T, K>(a: seq<T>, b: seq<T>, key: T -> K)
    ensures Keys(a + b, key) == Keys(a, key) + Keys(b, key)
  {
    var l, r := Keys(a + b, key), Keys(a, key) + Keys(b, key);
    assert |l| == |r|;
    forall j | 0 <= j < |l|
      ensures l[j] == r[j]
    {
      if j < |a| {
        assert (a + b)[j] == a[j];
      } else {
        assert (a + b)[j] == b[j - |a|];
      }
    }
  }

  lemma KeysRemove<T, K>(s: seq<T>, key: T -> K, j: nat)
    requires j < |s|
    ensures multiset(Keys(s, key)) == multiset(Keys(s[..j] + s[j + 1..], key)) + multiset{key(s[j])}
  {
    KeysDrop(s, key, j);
    MultisetDrop(Keys(s, key), j);
  }

  lemma MultisetDrop<K>(x: seq<K>, j: nat)
    requires j < |x|
    ensures multiset(x) == multiset(x[..j] + x[j + 1..]) + multiset{x[j]}
  {
    assert x == x[..j] + [x[j]] + x[j + 1..];
  }

  lemma KeysDrop<T, K>(s: seq<T>, key: T -> K, j: nat)
    requires j < |s|
    ensures Keys(s[..j] + s[j + 1..], key) == Keys(s, key)[..j] + Keys(s, key)[j + 1..]
  {
    var a, b := s[..j], s[j + 1..];
    var ks, kr := Keys(s, key), Keys(a + b, key);
    forall i | 0 <= i < |kr|
      ensures kr[i] == (ks[..j] + ks[j + 1..])[i]
    {
      if i < j {
        assert (a + b)[i] == a[i] == s[i];
      } else {
        assert (a + b)[i] == b[i - j] == s[i + 1];
      }
    }
  }

  /** A key the expected range lacks cannot be paired. */
  lemma MissingKey<T, K>(target: seq<T>, expected: seq<T>, key: T -> K)
    requires target != [] && IndexOf(expected, key, key(target[0])).None?
    ensures multiset(Keys(target, key)) != multiset(Keys(expected, key))
  {
    var kt, ke := Keys(target, key), Keys(expected, key);
    assert kt[0] in multiset(kt);
    assert kt[0] !in ke;
  }

  lemma MultisetCancel<K>(a: multiset<K>, b: multiset<K>, x: K)
    ensures a + multiset{x} == b + multiset{x} <==> a == b
  {
    if a + multiset{x} == b + multiset{x} {
      assert a == a + multiset{x} - multiset{x};
      assert b == b + multiset{x} - multiset{x};
    }
  }

  /** Pairing the first target element with an expected element of the same key
      leaves the key counts equal exactly when they were equal before. */
  lemma KeysPaired<T, K>(target: seq<T>, expected: seq<T>, key: T -> K, j: nat)
    requires target != [] && j < |expected| && key(expected[j]) == key(target[0])
    ensures multiset(Keys(target, key)) == multiset(Keys(expected, key))
            <==> multiset(Keys(target[1..], key)) == multiset(Keys(expected[..j] + expected[j + 1..], key))
  {
    KeysRemove(expected, key, j);
    KeysAppend([target[0]], target[1..], key);
    assert target == [target[0]] + target[1..];
    var k, mt, mr := key(target[0]), multiset(Keys(target[1..], key)), multiset(Keys(expected[..j] + expected[j + 1..], key));
    assert multiset(Keys(target, key)) == mt + multiset{k};
    MultisetCancel(mt, mr, k);
  }

  /** The target is a permutation of the expected range exactly when both hold the
      same keys the same number of times. */
  lemma {:induction false} IsPermutationSpec<T, K>(target: seq<T>, expected: seq<T>, key: T -> K)
    ensures IsPermutation(target, expected, key) <==> multiset(Keys(target, key)) == multiset(Keys(expected, key))
    decreases |target|
  {
    if target == [] {
      if expected != [] {
        assert Keys(expected, key)[0] in multiset(Keys(expected, key));
      }
    } else {
      var found := IndexOf(expected, key, key(target[0]));
      if found.None? {
        assert !IsPermutation(target, expected, key);
        MissingKey(target, expected, key);
      } else {
        var j := found.value;
        var rest := expected[..j] + expected[j + 1..];
        assert IsPermutation(target, expected, key) == IsPermutation(target[1..], rest, key);
        IsPermutationSpec(target[1..], rest, key);
        KeysPaired(target, expected, key, j);
      }
    }
  }

  /** `range::unordered_eq(expected, comp)` with `comp` the "same key" equivalence. */
  function UnorderedEq<T, K(==)>(expected: seq<T>, printed: string, key: T -> K): Matcher<seq<T>, seq<T>>
  {
    PredicateMatcher((t: seq<T>, a: seq<seq<T>>) => |a| == 1 && IsPermutation(t, a[0], key),
                     WithField("is a permutation of "), WithField("is not a permutation of "), [Arg(expected, Some(printed))])
  }

  /** `range::unordered_eq` matches exactly the rearrangements of the expected range
      (up to the equivalence) and reads "is a permutation of …", its inversion "is
      not a permutation of …". */
  lemma UnorderedEqSpec<T, K>(expected: seq<T>, printed: string, key: T -> K, target: seq<T>)
    ensures Matches(UnorderedEq(expected, printed, key), target)
            <==> multiset(Keys(target, key)) == multiset(Keys(expected, key))
    ensures Describe(UnorderedEq(expected, printed, key)) == Some("is a permutation of " + printed)
    ensures Describe(Not(UnorderedEq(expected, printed, key))) == Some("is not a permutation of " + printed)
  {
    IsPermutationSpec(target, expected, key);
    PermutationLeadsPlain1(); PermutationLeadsPlain2();
    DescribeField(UnorderedEq(expected, printed, key), "is a permutation of ", printed);
    DescribeField(Not(UnorderedEq(expected, printed, key)), "is not a permutation of ", printed);
  }

  lemma PermutationLeadsPlain1()
    ensures Plain("is a permutation of ")
  {
  }

  lemma PermutationLeadsPlain2()
    ensures Plain("is not a permutation of ")
  {
  }

  /** `std::ranges::is_sorted(target, rel)`: no element is related to (`rel`-less
      than) its predecessor. */
  function IsSorted<T>(target: seq<T>, rel: (T, T) -> bool): bool
  {
    |target| < 2 || (!rel(target[1], target[0]) && IsSorted(target[1..], rel))
  }

  /** Sortedness is a property of adjacent pairs. */
  lemma {:induction false} IsSortedSpec<T>(target: seq<T>, rel: (T, T) -> bool)
    ensures IsSorted(target, rel) <==> forall k :: 0 < k < |target| ==> !rel(target[k], target[k - 1])
  {
    if |target| >= 2 {
      IsSortedSpec(target[1..], rel);
      if forall k :: 0 < k < |target| ==> !rel(target[k], target[k - 1]) {
        forall k | 0 < k < |target[1..]| ensures !rel(target[1..][k], target[1..][k - 1]) {
          assert !rel(target[k + 1], target[k]);
        }
      }
      if IsSorted(target, rel) {
        forall k | 0 < k < |target| ensures !rel(target[k], target[k - 1]) {
          if k > 1 {
            assert !rel(target[1..][k - 1], target[1..][k - 2]);
          }
        }
      }
    }
  }

  /** With `std::ranges::less` on integers, sorted means every element is at most
      every later one. */
  lemma {:induction false} SortedByLess(target: seq<int>, rel: (int, int) -> bool)
    requires forall a: int, b: int :: rel(a, b) == (a < b)
    ensures IsSorted(target, rel) <==> forall i, j :: 0 <= i < j < |target| ==> target[i] <= target[j]
  {
    IsSortedSpec(target, rel);
    if IsSorted(target, rel) {
      forall i, j | 0 <= i < j < |target| ensures target[i] <= target[j] {
        var k := i;
        while k < j
          invariant i <= k <= j && target[i] <= target[k]
        {
          assert !rel(target[k + 1], target[k]);
          k := k + 1;
        }
      }
    }
  }

  /** `range::is_sorted(rel)`. */
  function RangeIsSorted<T, V>(rel: (T, T) -> bool): Matcher<seq<T>, V>
  {
    PredicateMatcher((t: seq<T>, a: seq<V>) => IsSorted(t, rel), "is a sorted range", "is an unsorted range", [])
  }

  /** `range::is_sorted` matches exactly the targets with no adjacent pair out of
      order (an empty range among them) and reads "is a sorted range", its
      inversion "is an unsorted range". */
  lemma RangeIsSortedSpec<T, V>(rel: (T, T) -> bool, target: seq<T>)
    ensures Matches(RangeIsSorted<T, V>(rel), target)
            <==> forall k :: 0 < k < |target| ==> !rel(target[k], target[k - 1])
    ensures Matches(RangeIsSorted<T, V>(rel), [])
    ensures Describe(RangeIsSorted<T, V>(rel)) == Some("is a sorted range")
    ensures Describe(Not(RangeIsSorted<T, V>(rel))) == Some("is an unsorted range")
  {
    IsSortedSpec(target, rel);
    SortedTextsPlain1(); SortedTextsPlain2();
    DescribePlain(RangeIsSorted<T, V>(rel));
    DescribePlain(Not(RangeIsSorted<T, V>(rel)));
  }

  lemma SortedTextsPlain1()
    ensures Plain("is a sorted range")
  {
  }

  lemma SortedTextsPlain2()
    ensures Plain("is an unsorted range")
  {
  }

  /** `range::is_empty()`. */
  function IsEmpty<T, V>(): Matcher<seq<T>, V>
  {
    PredicateMatcher((t: seq<T>, a: seq<V>) => |t| == 0, "is an empty range", "is not an empty range", [])
  }

  /** `range::is_empty` matches exactly the empty ranges and reads "is an empty
      range", its inversion "is not an empty range". */
  lemma IsEmptySpec<T, V>(target: seq<T>)
    ensures Matches(IsEmpty<T, V>(), target) <==> target == []
    ensures Describe(IsEmpty<T, V>()) == Some("is an empty range")
    ensures Describe(Not(IsEmpty<T, V>())) == Some("is not an empty range")
  {
    EmptyTextsPlain1(); EmptyTextsPlain2();
    DescribePlain(IsEmpty<T, V>());
    DescribePlain(Not(IsEmpty<T, V>()));
  }

  lemma EmptyTextsPlain1()
    ensures Plain("is an empty range")
  {
  }

  lemma EmptyTextsPlain2()
    ensures Plain("is not an empty range")
  {
  }

  /** `range::has_size(n)`: `std::cmp_equal(n, size)`, so a negative `n` never
      matches. */
  function HasSize<T>(expected: int): Matcher<seq<T>, int>
  {
    PredicateMatcher((t: seq<T>, a: seq<int>) => |a| == 1 && a[0] == |t|,
                     WithField("has size of "), WithField("has different size than "), [Arg(expected, Some(IntToString(expected)))])
  }

  /** `range::has_size(n)` matches exactly the ranges of `n` elements and reads "has
      size of n", its inversion "has different size than n". */
  lemma HasSizeSpec<T>(expected: int, target: seq<T>)
    ensures Matches(HasSize<T>(expected), target) <==> |target| == expected
    ensures Describe(HasSize<T>(expected)) == Some("has size of " + IntToString(expected))
    ensures Describe(Not(HasSize<T>(expected))) == Some("has different size than " + IntToString(expected))
  {
    SizeLeadsPlain1(); SizeLeadsPlain2();
    DescribeField(HasSize<T>(expected), "has size of ", IntToString(expected));
    DescribeField(Not(HasSize<T>(expected)), "has different size than ", IntToString(expected));
  }

  lemma SizeLeadsPlain1()
    ensures Plain("has size of ")
  {
  }

  lemma SizeLeadsPlain2()
    ensures Plain("has different size than ")
  {
  }

  /** `std::ranges::all_of` with the inner matcher. */
  function AllOf<T, V>(target: seq<T>, m: Matcher<T, V>): bool
  {
    target == [] || (Matches(m, target[0]) && AllOf(target[1..], m))
  }

  /** `std::ranges::any_of` with the inner matcher. */
  function AnyOf<T, V>(target: seq<T>, m: Matcher<T, V>): bool
  {
    target != [] && (Matches(m, target[0]) || AnyOf(target[1..], m))
  }

  /** All of the elements match exactly when none fails, and any matches exactly
      when one does. */
  lemma {:induction false} AllAnySpec<T, V>(target: seq<T>, m: Matcher<T, V>)
    ensures AllOf(target, m) <==> forall k :: 0 <= k < |target| ==> Matches(m, target[k])
    ensures AnyOf(target, m) <==> exists k :: 0 <= k < |target| && Matches(m, target[k])
  {
    if target != [] {
      AllAnySpec(target[1..], m);
      assert forall k :: 0 < k < |target| ==> target[k] == target[1..][k - 1];
      if AnyOf(target[1..], m) {
        var k :| 0 <= k < |target[1..]| && Matches(m, target[1..][k]);
        assert Matches(m, target[k + 1]);
      }
    }
  }

  /** `range::each_element(m)`: the inner matcher is the stored argument, rendered by
      its own description. */
  function EachElement<T, V>(m: Matcher<T, V>): Matcher<seq<T>, Matcher<T, V>>
  {
    PredicateMatcher((t: seq<T>, a: seq<Matcher<T, V>>) => |a| == 1 && AllOf(t, a[0]),
                     WithField("each el in range: el "), WithField("not each el in range: el "), [Arg(m, Describe(m))])
  }

  /** `range::any_element(m)`. */
  function AnyElement<T, V>(m: Matcher<T, V>): Matcher<seq<T>, Matcher<T, V>>
  {
    PredicateMatcher((t: seq<T>, a: seq<Matcher<T, V>>) => |a| == 1 && AnyOf(t, a[0]),
                     WithField("any el in range: el "), WithField("none el in range: el "), [Arg(m, Describe(m))])
  }

  /** `each_element(m)` fails exactly when some element fails `m`, so it matches the
      empty range; it reads "each el in range: el …" with the inner description. */
  lemma EachElementSpec<T, V>(m: Matcher<T, V>, target: seq<T>)
    ensures Matches(EachElement(m), target) <==> forall k :: 0 <= k < |target| ==> Matches(m, target[k])
    ensures Matches(EachElement(m), [])
    ensures Describe(m).Some? ==> Describe(EachElement(m)) == Some("each el in range: el " + Describe(m).value)
    ensures Describe(m).Some? ==> Describe(Not(EachElement(m))) == Some("not each el in range: el " + Describe(m).value)
    ensures Describe(m).None? ==> Describe(EachElement(m)).None?
  {
    AllAnySpec(target, m);
    ElementLeadsPlain1(); ElementLeadsPlain2(); ElementLeadsPlain3(); ElementLeadsPlain4();
    if Describe(m).Some? {
      DescribeField(EachElement(m), "each el in range: el ", Describe(m).value);
      DescribeField(Not(EachElement(m)), "not each el in range: el ", Describe(m).value);
    }
  }

  /** `any_element(m)` holds exactly when some element matches `m`, so it fails on
      the empty range; it reads "any el in range: el …", and its inversion "none el
      in range: el …". */
  lemma AnyElementSpec<T, V>(m: Matcher<T, V>, target: seq<T>)
    ensures Matches(AnyElement(m), target) <==> exists k :: 0 <= k < |target| && Matches(m, target[k])
    ensures !Matches(AnyElement(m), [])
    ensures Describe(m).Some? ==> Describe(AnyElement(m)) == Some("any el in range: el " + Describe(m).value)
    ensures Describe(m).Some? ==> Describe(Not(AnyElement(m))) == Some("none el in range: el " + Describe(m).value)
    ensures Describe(m).None? ==> Describe(AnyElement(m)).None?
  {
    AllAnySpec(target, m);
    ElementLeadsPlain1(); ElementLeadsPlain2(); ElementLeadsPlain3(); ElementLeadsPlain4();
    if Describe(m).Some? {
      DescribeField(AnyElement(m), "any el in range: el ", Describe(m).value);
      DescribeField(Not(AnyElement(m)), "none el in range: el ", Describe(m).value);
    }
  }

  lemma ElementLeadsPlain1()
    ensures Plain("each el in range: el ")
  {
  }

  lemma ElementLeadsPlain2()
    ensures Plain("not each el in range: el ")
  {
  }

  lemma ElementLeadsPlain3()
    ensures Plain("any el in range: el ")
  {
  }

  lemma ElementLeadsPlain4()
    ensures Plain("none el in range: el ")
  {
  }

}
