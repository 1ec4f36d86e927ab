/** The range helpers of `mimicpp::util`: a partition of one range driven by a second
    range, bracket-aware token searches, and lookups in sorted string tables. */
module Algorithm {
  import opened Wrappers
  import Text

  // ---------------------------------------------------------------------------
  // partition_by
  // ---------------------------------------------------------------------------

  /** Each target element paired with the control element at the same index. */
  function Zip<T, C>(t: seq<T>, c: seq<C>): (r: seq<(T, C)>)
    requires |t| == |c|
    ensures |r| == |t|
    ensures forall k :: 0 <= k < |r| ==> r[k] == (t[k], c[k])
  {
    seq(|t|, k requires 0 <= k < |t| => (t[k], c[k]))
  }

  /** The pairs whose control element fails the predicate, in order. */
  function Failing<T, C>(p: seq<(T, C)>, pred: C -> bool): seq<(T, C)>
  {
    if p == [] then []
    else (if pred(p[0].1) then [] else [p[0]]) + Failing(p[1..], pred)
  }

  /** A pair occurs among the failing pairs exactly as often as in `p` when its control
      element fails, and not at all otherwise. */
  lemma {:induction false} FailingMultiplicity<T, C>(p: seq<(T, C)>, pred: C -> bool, x: (T, C))
    ensures multiset(Failing(p, pred))[x] == if pred(x.1) then 0 else multiset(p)[x]
  {
    if p != [] {
      FailingMultiplicity(p[1..], pred, x);
      assert p == [p[0]] + p[1..];
      assert multiset(p) == multiset([p[0]]) + multiset(p[1..]);
    }
  }

  /** Permuting the pairs permutes the failing pairs. */
  lemma FailingPermutation<T, C>(p: seq<(T, C)>, q: seq<(T, C)>, pred: C -> bool)
    requires multiset(p) == multiset(q)
    ensures multiset(Failing(p, pred)) == multiset(Failing(q, pred))
  {
    var a, b := multiset(Failing(p, pred)), multiset(Failing(q, pred));
    forall x: (T, C)
      ensures a[x] == b[x]
    {
      FailingMultiplicity(p, pred, x);
      FailingMultiplicity(q, pred, x);
    }
    MultisetExtensional(a, b);
  }

  lemma MultisetExtensional<T>(a: multiset<T>, b: multiset<T>)
    requires forall x :: a[x] == b[x]
    ensures a == b
  {
  }

  /** On pairs that pass below `m` and fail from `m` on, the failing pairs are the
      suffix from `m`. */
  lemma {:induction false} FailingOfPartitioned<T, C>(p: seq<(T, C)>, pred: C -> bool, m: nat)
    requires m <= |p|
    requires forall k :: 0 <= k < m ==> pred(p[k].1)
    requires forall k :: m <= k < |p| ==> !pred(p[k].1)
    ensures Failing(p, pred) == p[m..]
  {
    if p != [] {
      if m == 0 {
        FailingOfPartitioned(p[1..], pred, 0);
        assert p == [p[0]] + p[1..];
      } else {
        FailingOfPartitioned(p[1..], pred, m - 1);
        assert p[1..][m - 1..] == p[m..];
      }
    }
  }

  /** No pair fails exactly when every control element passes. */
  lemma {:induction false} FailingEmpty<T, C>(p: seq<(T, C)>, pred: C -> bool)
    ensures Failing(p, pred) == [] <==> forall k :: 0 <= k < |p| ==> pred(p[k].1)
  {
    if p != [] {
      FailingEmpty(p[1..], pred);
      if forall k :: 0 <= k < |p[1..]| ==> pred(p[1..][k].1) {
        if pred(p[0].1) {
          forall k | 0 <= k < |p|
            ensures pred(p[k].1)
          {
            if k > 0 {
              assert p[k] == p[1..][k - 1];
            }
          }
        }
      } else {
        var k :| 0 <= k < |p[1..]| && !pred(p[1..][k].1);
        assert p[k + 1] == p[1..][k];
      }
    }
  }

  /** `std::ranges::find_if_not(control.begin() + from, control.begin() + to, pred)`,
      as an index. */
  method FindIfNot<C>(control: array<C>, from: nat, to: nat, pred: C -> bool) returns (i: nat)
    requires from <= to <= control.Length
    ensures from <= i <= to
    ensures forall k :: from <= k < i ==> pred(control[k])
    ensures i < to ==> !pred(control[i])
  {
    i := from;
    while i < to && pred(control[i])
      invariant from <= i <= to
      invariant forall k :: from <= k < i ==> pred(control[k])
    {
      i := i + 1;
    }
  }

  /** The two `std::ranges::iter_swap` calls of one partition step: positions `i` and
      `j` are exchanged in both ranges. */
  method SwapBoth<T, C>(target: array<T>, control: array<C>, i: nat, j: nat)
    requires target as object != control as object
    requires target.Length == control.Length && i < control.Length && j < control.Length
    modifies target, control
    ensures control[..] == old(control[..])[i := old(control[j])][j := old(control[i])]
    ensures multiset(Zip(target[..], control[..])) == multiset(Zip(old(target[..]), old(control[..])))
  {
    ghost var p := Zip(target[..], control[..]);
    control[i], control[j] := control[j], control[i];
    target[i], target[j] := target[j], target[i];
    assert Zip(target[..], control[..]) == p[i := p[j]][j := p[i]];
  }

  /** `util::partition_by`: moves every target element whose control element fails the
      predicate behind the others, swapping both ranges alike, and returns where the
      failing elements start. */
  method PartitionBy<T, C>(target: array<T>, control: array<C>, pred: C -> bool) returns (midpoint: nat)
    requires target as object != control as object
    requires target.Length == control.Length
    modifies target, control
    ensures midpoint <= control.Length
    ensures forall k :: 0 <= k < midpoint ==> pred(control[k])
    ensures forall k :: midpoint <= k < control.Length ==> !pred(control[k])
    ensures multiset(Zip(target[..], control[..])) == multiset(Zip(old(target[..]), old(control[..])))
    ensures midpoint == control.Length ==> target[..] == old(target[..]) && control[..] == old(control[..])
  {
    var n := control.Length;
    midpoint := n;
    var end := n;
    var iter := FindIfNot(control, 0, end, pred);
    while iter != end
      invariant 0 <= iter <= end == midpoint <= n
      invariant forall k :: 0 <= k < iter ==> pred(control[k])
      invariant iter < end ==> !pred(control[iter])
      invariant forall k :: end <= k < n ==> !pred(control[k])
      invariant multiset(Zip(target[..], control[..])) == multiset(Zip(old(target[..]), old(control[..])))
      invariant midpoint == n ==> target[..] == old(target[..]) && control[..] == old(control[..])
      decreases end
    {
      var index := iter;
      end := end - 1;
      midpoint := midpoint - 1;
      SwapBoth(target, control, index, end);
      iter := FindIfNot(control, iter, end, pred);
    }
  }

  /** What the range returned by `partition_by` holds: exactly the pairs whose control
      element failed the predicate before the call, and it is empty exactly when every
      control element passed. */
  lemma PartitionedSuffix<T, C>(t: seq<T>, c: seq<C>, t0: seq<T>, c0: seq<C>, pred: C -> bool, midpoint: nat)
    requires |t| == |c| == |t0| == |c0| && midpoint <= |c|
    requires forall k :: 0 <= k < midpoint ==> pred(c[k])
    requires forall k :: midpoint <= k < |c| ==> !pred(c[k])
    requires multiset(Zip(t, c)) == multiset(Zip(t0, c0))
    ensures multiset(Zip(t[midpoint..], c[midpoint..])) == multiset(Failing(Zip(t0, c0), pred))
    ensures midpoint == |c| <==> forall k :: 0 <= k < |c0| ==> pred(c0[k])
  {
    var p := Zip(t, c);
    FailingOfPartitioned(p, pred, midpoint);
    assert Zip(t[midpoint..], c[midpoint..]) == p[midpoint..];
    FailingPermutation(p, Zip(t0, c0), pred);
    FailingEmpty(Zip(t0, c0), pred);
    if midpoint == |c| {
      assert Failing(p, pred) == [];
    } else {
      assert |multiset(Failing(Zip(t0, c0), pred))| > 0;
    }
  }

  // ---------------------------------------------------------------------------
  // find_closing_token
  // ---------------------------------------------------------------------------

  /** `std::ranges::count(s, x)`. */
  function Count<T(==)>(s: seq<T>, x: T): nat
  {
    if s == [] then 0 else Count(s[..|s| - 1], x) + (if s[|s| - 1] == x then 1 else 0)
  }

  lemma CountStep<T>(s: seq<T>, x: T, i: nat)
    requires i < |s|
    ensures Count(s[..i + 1], x) == Count(s[..i], x) + (if s[i] == x then 1 else 0)
  {
    assert s[..i + 1][..i] == s[..i];
  }

  /** Counting over a stretch without `x` adds nothing. */
  lemma {:induction false} CountAbsent<T>(s: seq<T>, x: T, i: nat, j: nat)
    requires i <= j <= |s|
    requires forall k :: i <= k < j ==> s[k] != x
    ensures Count(s[..j], x) == Count(s[..i], x)
    decreases j - i
  {
    if i < j {
      CountAbsent(s, x, i, j - 1);
      CountStep(s, x, j - 1);
    }
  }

  lemma {:induction false} CountMonotone<T>(s: seq<T>, x: T, i: nat, j: nat)
    requires i <= j <= |s|
    ensures Count(s[..i], x) <= Count(s[..j], x)
    decreases j - i
  {
    if i < j {
      CountMonotone(s, x, i, j - 1);
      CountStep(s, x, j - 1);
    }
  }

  /** Counting two pieces in turn counts their concatenation. */
  lemma {:induction false} CountAppend<T>(a: seq<T>, b: seq<T>, x: T)
    ensures Count(a + b, x) == Count(a, x) + Count(b, x)
  {
    if b == [] {
      assert a + b == a;
    } else {
      assert (a + b)[..|a + b| - 1] == a + b[..|b| - 1];
      CountAppend(a, b[..|b| - 1], x);
    }
  }

  /** `std::ranges::find(s.begin() + from, s.begin() + to, x)`, as an index. */
  function Find<T(==)>(s: seq<T>, from: nat, to: nat, x: T): (i: nat)
    requires from <= to <= |s|
    ensures from <= i <= to
    ensures forall k :: from <= k < i ==> s[k] != x
    ensures i < to ==> s[i] == x
    decreases (to as int) - (from as int)
  {
    if from == to || s[from] == x then from else Find(s, from + 1, to, x)
  }

  /** Position `i` holds a closing token that the opening tokens before it do not
      balance: more closing tokens up to and including it than opening tokens before it. */
  predicate Unbalanced<T(==)>(s: seq<T>, opening: T, closing: T, i: nat)
  {
    i < |s| && s[i] == closing && Count(s[..i], opening) < Count(s[..i + 1], closing)
  }

  /** One round of the loop of `find_closing_token`: the closing token at `r` is
      balanced by the opening token at `openAt`, so the search moves on to the next
      closing token and the next opening token before it. */
  lemma ClosingStep<T>(s: seq<T>, opening: T, closing: T, r: nat, openAt: nat, next: nat, openNext: nat)
    requires openAt < r < |s| && s[r] == closing && s[openAt] == opening
    requires Count(s[..openAt], opening) == Count(s[..r], closing)
    requires forall i :: 0 <= i < r ==> !Unbalanced(s, opening, closing, i)
    requires r < next <= |s| && forall k :: r < k < next ==> s[k] != closing
    requires openAt < openNext <= next && forall k :: openAt < k < openNext ==> s[k] != opening
    requires openNext < next ==> s[openNext] == opening
    ensures forall i :: 0 <= i < next ==> !Unbalanced(s, opening, closing, i)
    ensures openNext < next ==> Count(s[..openNext], opening) == Count(s[..next], closing)
    ensures openNext == next ==> Count(s[..next], opening) <= Count(s[..next], closing)
  {
    CountStep(s, closing, r);
    CountStep(s, opening, openAt);
    CountMonotone(s, opening, openAt + 1, r);
    CountAbsent(s, closing, r + 1, next);
    CountAbsent(s, opening, openAt + 1, openNext);
    assert !Unbalanced(s, opening, closing, r);
    forall i | 0 <= i < next
      ensures !Unbalanced(s, opening, closing, i)
    {
      if r < i {
        assert s[i] != closing;
      }
    }
  }

  /** `util::find_closing_token`: the first closing token with no opening token left to
      pair with it, or the end. */
  method FindClosingToken<T(==)>(s: seq<T>, opening: T, closing: T) returns (r: nat)
    ensures r <= |s|
    ensures r < |s| ==> Unbalanced(s, opening, closing, r)
    ensures forall i :: 0 <= i < r ==> !Unbalanced(s, opening, closing, i)
  {
    r := Find(s, 0, |s|, closing);
    if r == |s| {
      return;
    }
    CountAbsent(s, closing, 0, r);
    var openAt: nat := Find(s, 0, r, opening);
    CountAbsent(s, opening, 0, openAt);
    while openAt != r && r != |s|
      invariant openAt <= r <= |s|
      invariant r < |s| ==> s[r] == closing
      invariant openAt < r ==> s[openAt] == opening && Count(s[..openAt], opening) == Count(s[..r], closing)
      invariant openAt == r ==> Count(s[..r], opening) <= Count(s[..r], closing)
      invariant forall i :: 0 <= i < r ==> !Unbalanced(s, opening, closing, i)
      decreases |s| - r
    {
      var next := Find(s, r + 1, |s|, closing);
      var openNext := Find(s, openAt + 1, next, opening);
      ClosingStep(s, opening, closing, r, openAt, next, openNext);
      r, openAt := next, openNext;
    }
    if r < |s| {
      CountStep(s, closing, r);
    }
  }

  // ---------------------------------------------------------------------------
  // find_next_unwrapped_token
  // ---------------------------------------------------------------------------

  /** How often the characters of `collection` occur in `source`; a character listed
      twice in `collection` counts twice. */
  function CountAll(source: string, collection: string): nat
  {
    if collection == [] then 0
    else CountAll(source, collection[..|collection| - 1]) + Count(source, collection[|collection| - 1])
  }

  /** Counting two pieces in turn counts their concatenation. */
  lemma {:induction false} CountAllAppend(a: string, b: string, collection: string)
    ensures CountAll(a + b, collection) == CountAll(a, collection) + CountAll(b, collection)
  {
    if collection != [] {
      CountAllAppend(a, b, collection[..|collection| - 1]);
      CountAppend(a, b, collection[|collection| - 1]);
    }
  }

  lemma {:induction false} CountAllNothing(collection: string)
    ensures CountAll([], collection) == 0
  {
    if collection != [] {
      CountAllNothing(collection[..|collection| - 1]);
    }
  }

  /** The `countAllOf` helper: one `std::ranges::count` per character of `collection`. */
  method CountAllOf(source: string, collection: string) returns (count: nat)
    ensures count == CountAll(source, collection)
  {
    count := 0;
    var i := 0;
    while i < |collection|
      invariant 0 <= i <= |collection|
      invariant count == CountAll(source, collection[..i])
    {
      assert collection[..i + 1][..i] == collection[..i];
      count := count + Count(source, collection[i]);
      i := i + 1;
    }
    assert collection[..i] == collection;
  }

  /** `token` occurs in `s` at position `k`. */
  predicate Occurs(s: string, token: string, k: nat)
  {
    k + |token| <= |s| && s[k..k + |token|] == token
  }

  /** `std::ranges::search` on `s[from..]`: the first occurrence of `token` at or after
      `from`, if any. */
  function Search(s: string, token: string, from: nat): (r: Option<nat>)
    requires from <= |s|
    ensures r.Some? ==> from <= r.value && Occurs(s, token, r.value)
    ensures forall k :: from <= k && (r.None? || k < r.value) ==> !Occurs(s, token, k)
    decreases |s| - from
  {
    if from + |token| > |s| then None
    else if s[from..from + |token|] == token then Some(from)
    else Search(s, token, from + 1)
  }

  /** The result of `find_next_unwrapped_token`: the subrange of the match, no match
      (`{end, end}`), or the assertion that more scopes were closed than opened. */
  datatype TokenMatch = Found(begin: nat, end: nat) | NotFound | MoreClosedThanOpened

  /** The wrapping depth of a match at `m`: the opening characters before it less the
      closing characters up to its end. */
  function Depth(s: string, token: string, opening: string, closing: string, m: nat): int
    requires m + |token| <= |s|
  {
    CountAll(s[..m], opening) - CountAll(s[..m + |token|], closing)
  }

  /** Scanning the matches of `token` from `from` on, each search resuming behind the
      previous match, for the first one at depth zero. */
  function UnwrappedFrom(s: string, token: string, opening: string, closing: string, from: nat): TokenMatch
    requires token != [] && from <= |s|
    decreases |s| - from
  {
    match Search(s, token, from)
    case None => NotFound
    case Some(m) =>
      var depth := Depth(s, token, opening, closing, m);
      if depth < 0 then MoreClosedThanOpened
      else if depth == 0 then Found(m, m + |token|)
      else UnwrappedFrom(s, token, opening, closing, m + |token|)
  }

  /** What `find_next_unwrapped_token` finds; an empty token is never found, as
      `std::ranges::search` then yields an empty subrange. */
  function NextUnwrappedToken(s: string, token: string, opening: string, closing: string): TokenMatch
  {
    if token == [] then NotFound else UnwrappedFrom(s, token, opening, closing, 0)
  }

  /** `util::find_next_unwrapped_token`: keeps a running count of open scopes over the
      text searched so far. */
  method FindNextUnwrappedToken(s: string, token: string, opening: string, closing: string)
    returns (r: TokenMatch)
    ensures r == NextUnwrappedToken(s, token, opening, closing)
  {
    var openScopes: int := 0;
    var pending: nat := 0;
    var found := if token == [] then None else Search(s, token, 0);
    CountAllNothing(opening);
    CountAllNothing(closing);
    while found.Some?
      invariant pending <= |s|
      invariant token == [] ==> found.None?
      invariant token != [] ==> found == Search(s, token, pending)
      invariant token != [] ==> NextUnwrappedToken(s, token, opening, closing) == UnwrappedFrom(s, token, opening, closing, pending)
      invariant openScopes == CountAll(s[..pending], opening) - CountAll(s[..pending], closing)
      decreases |s| - pending
    {
      var m := found.value;
      var before := CountAllOf(s[pending..m], opening);
      var upTo := CountAllOf(s[pending..m + |token|], closing);
      DepthFromRunningCount(s, token, opening, closing, pending, m, openScopes, before, upTo);
      UnwrappedAt(s, token, opening, closing, pending, m);
      openScopes := openScopes + before - upTo;
      if openScopes < 0 {
        return MoreClosedThanOpened;
      }
      if openScopes == 0 {
        return Found(m, m + |token|);
      }
      var inMatch := CountAllOf(s[m..m + |token|], opening);
      DepthAfterMatch(s, token, opening, closing, m, openScopes, inMatch);
      openScopes := openScopes + inMatch;
      pending := m + |token|;
      found := Search(s, token, pending);
    }
    return NotFound;
  }

  /** The running count of open scopes, updated by the text between the previous match
      and this one, equals the depth of this match. */
  lemma DepthFromRunningCount(s: string, token: string, opening: string, closing: string, pending: nat, m: nat,
                              openScopes: int, before: int, upTo: int)
    requires pending <= m && m + |token| <= |s|
    requires openScopes == CountAll(s[..pending], opening) - CountAll(s[..pending], closing)
    requires before == CountAll(s[pending..m], opening) && upTo == CountAll(s[pending..m + |token|], closing)
    ensures openScopes + before - upTo == Depth(s, token, opening, closing, m)
  {
    assert s[..m] == s[..pending] + s[pending..m];
    assert s[..m + |token|] == s[..pending] + s[pending..m + |token|];
    CountAllAppend(s[..pending], s[pending..m], opening);
    CountAllAppend(s[..pending], s[pending..m + |token|], closing);
  }

  /** Adding the opening characters inside the match to its depth gives the running
      count behind the match. */
  lemma DepthAfterMatch(s: string, token: string, opening: string, closing: string, m: nat, depth: int, inMatch: int)
    requires m + |token| <= |s|
    requires depth == Depth(s, token, opening, closing, m) && inMatch == CountAll(s[m..m + |token|], opening)
    ensures depth + inMatch == CountAll(s[..m + |token|], opening) - CountAll(s[..m + |token|], closing)
  {
    assert s[..m + |token|] == s[..m] + s[m..m + |token|];
    CountAllAppend(s[..m], s[m..m + |token|], opening);
  }

  /** One step of the scan: what the match at `m` decides. */
  lemma UnwrappedAt(s: string, token: string, opening: string, closing: string, pending: nat, m: nat)
    requires token != [] && pending <= |s| && Search(s, token, pending) == Some(m)
    ensures var depth := Depth(s, token, opening, closing, m);
            && (depth < 0 ==> UnwrappedFrom(s, token, opening, closing, pending) == MoreClosedThanOpened)
            && (depth == 0 ==> UnwrappedFrom(s, token, opening, closing, pending) == Found(m, m + |token|))
            && (depth > 0 ==> UnwrappedFrom(s, token, opening, closing, pending) == UnwrappedFrom(s, token, opening, closing, m + |token|))
  {
  }

  /** A match that is found is an occurrence of the token at depth zero. */
  lemma {:induction false} UnwrappedFound(s: string, token: string, opening: string, closing: string, from: nat)
    requires token != [] && from <= |s|
    ensures UnwrappedFrom(s, token, opening, closing, from).Found? ==>
              var b := UnwrappedFrom(s, token, opening, closing, from).begin;
              && from <= b
              && UnwrappedFrom(s, token, opening, closing, from).end == b + |token|
              && Occurs(s, token, b)
              && Depth(s, token, opening, closing, b) == 0
    decreases |s| - from
  {
    var found := Search(s, token, from);
    if found.Some? && Depth(s, token, opening, closing, found.value) > 0 {
      UnwrappedFound(s, token, opening, closing, found.value + |token|);
    }
  }

  /** The first occurrence of a one-character token at or after `from` that is not
      inside brackets, that is, whose depth is not positive. */
  function FirstUnwrapped(s: string, token: string, opening: string, closing: string, from: nat): (r: Option<nat>)
    requires |token| == 1 && from <= |s|
    ensures r.Some? ==> from <= r.value < |s| && s[r.value] == token[0]
    ensures r.Some? ==> Depth(s, token, opening, closing, r.value) <= 0
    decreases |s| - from
  {
    if from == |s| then None
    else if s[from] == token[0] && Depth(s, token, opening, closing, from) <= 0 then Some(from)
    else FirstUnwrapped(s, token, opening, closing, from + 1)
  }

  /** Positions without the token character do not change the first unwrapped one. */
  lemma {:induction false} FirstUnwrappedSkip(s: string, token: string, opening: string, closing: string, from: nat, to: nat)
    requires |token| == 1 && from <= to <= |s|
    requires forall k :: from <= k < to ==> s[k] != token[0]
    ensures FirstUnwrapped(s, token, opening, closing, from) == FirstUnwrapped(s, token, opening, closing, to)
    decreases (to as int) - (from as int)
  {
    if from < to {
      FirstUnwrappedSkip(s, token, opening, closing, from + 1, to);
    }
  }

  /** For a one-character token the search is exact: it finds the first occurrence that
      is not inside brackets when its depth is zero, reports the assertion when that
      depth is negative, and finds nothing when every occurrence is wrapped. */
  lemma {:induction false} UnwrappedCharacter(s: string, token: string, opening: string, closing: string, from: nat)
    requires |token| == 1 && from <= |s|
    ensures UnwrappedFrom(s, token, opening, closing, from)
            == match FirstUnwrapped(s, token, opening, closing, from)
               case None => NotFound
               case Some(b) =>
                 if Depth(s, token, opening, closing, b) == 0 then Found(b, b + 1) else MoreClosedThanOpened
    decreases |s| - from
  {
    var found := Search(s, token, from);
    var stop := if found.Some? then found.value else |s|;
    SearchCharacter(s, token, from);
    FirstUnwrappedSkip(s, token, opening, closing, from, stop);
    if found.Some? {
      UnwrappedAt(s, token, opening, closing, from, stop);
      if Depth(s, token, opening, closing, stop) > 0 {
        assert FirstUnwrapped(s, token, opening, closing, stop) == FirstUnwrapped(s, token, opening, closing, stop + 1);
        UnwrappedCharacter(s, token, opening, closing, stop + 1);
      }
    }
  }

  /** Searching for a one-character token finds the next position holding that
      character. */
  lemma SearchCharacter(s: string, token: string, from: nat)
    requires |token| == 1 && from <= |s|
    ensures var found := Search(s, token, from);
            found.Some? ==> s[found.value] == token[0]
    ensures var found := Search(s, token, from);
            forall k :: from <= k < (if found.Some? then found.value else |s|) ==> s[k] != token[0]
  {
    var found := Search(s, token, from);
    var stop := if found.Some? then found.value else |s|;
    forall k | from <= k < stop
      ensures s[k] != token[0]
    {
      if s[k] == token[0] {
        assert s[k..k + 1] == token;
        assert Occurs(s, token, k);
      }
    }
    if found.Some? {
      assert s[stop] == s[stop..stop + 1][0] == token[0];
    }
  }

  // ---------------------------------------------------------------------------
  // prefix_range, binary_find, contains
  // ---------------------------------------------------------------------------

  /** A table sorted by the ordering of `std::string_view`. */
  predicate SortedStrings(s: seq<string>)
  {
    forall i, j :: 0 <= i < j < |s| ==> Text.StrLe(s[i], s[j])
  }

  predicate IsPrefix(prefix: string, x: string)
  {
    |prefix| <= |x| && x[..|prefix|] == prefix
  }

  /** `std::ranges::lower_bound(s, value)`: the first element `value` is not ordered
      after. */
  function LowerBound(s: seq<string>, value: string): (i: nat)
    ensures i <= |s|
    ensures forall k :: 0 <= k < i ==> !Text.StrLe(value, s[k])
    ensures i < |s| ==> Text.StrLe(value, s[i])
  {
    if s == [] || Text.StrLe(value, s[0]) then 0 else 1 + LowerBound(s[1..], value)
  }

  /** In a sorted table every element from the lower bound on is ordered at or after
      `value`. */
  lemma LowerBoundSorted(s: seq<string>, value: string)
    requires SortedStrings(s)
    ensures forall k :: LowerBound(s, value) <= k < |s| ==> Text.StrLe(value, s[k])
  {
    var i := LowerBound(s, value);
    forall k | i <= k < |s|
      ensures Text.StrLe(value, s[k])
    {
      if i < k {
        Text.StrLeTransitive(value, s[i], s[k]);
      }
    }
  }

  /** A string is ordered at or after each of its prefixes. */
  lemma {:induction false} PrefixOrdered(prefix: string, x: string)
    requires IsPrefix(prefix, x)
    ensures Text.StrLe(prefix, x)
  {
    if prefix != [] {
      assert x[1..][..|prefix| - 1] == x[..|prefix|][1..];
      PrefixOrdered(prefix[1..], x[1..]);
    }
  }

  /** A string ordered at or after `prefix` without starting with it is ordered after
      every string that starts with `prefix`. */
  lemma {:induction false} BeyondPrefixed(prefix: string, x: string, y: string)
    requires Text.StrLe(prefix, x) && !IsPrefix(prefix, x) && IsPrefix(prefix, y)
    ensures !Text.StrLe(x, y)
  {
    assert prefix != [];
    assert y[0] == y[..|prefix|][0] == prefix[0];
    if x[0] == prefix[0] {
      assert y[1..][..|prefix| - 1] == y[..|prefix|][1..];
      BeyondPrefixed(prefix[1..], x[1..], y[1..]);
    }
  }

  /** How many leading elements start with `prefix`. */
  function PrefixedRun(s: seq<string>, prefix: string): (n: nat)
    ensures n <= |s|
    ensures forall k :: 0 <= k < n ==> IsPrefix(prefix, s[k])
    ensures n < |s| ==> !IsPrefix(prefix, s[n])
  {
    if s == [] || !IsPrefix(prefix, s[0]) then 0 else 1 + PrefixedRun(s[1..], prefix)
  }

  /** `util::prefix_range`: the elements from the lower bound of `prefix` on, as long as
      they start with it. */
  function PrefixRange(s: seq<string>, prefix: string): (r: (nat, nat))
    ensures r.0 <= r.1 <= |s|
  {
    var lo := LowerBound(s, prefix);
    (lo, lo + PrefixedRun(s[lo..], prefix))
  }

  /** On a sorted table the range holds exactly the elements that start with `prefix`;
      with an empty prefix, that is all of them. */
  lemma PrefixRangeExact(s: seq<string>, prefix: string)
    requires SortedStrings(s)
    ensures forall k :: 0 <= k < |s| ==>
              (PrefixRange(s, prefix).0 <= k < PrefixRange(s, prefix).1 <==> IsPrefix(prefix, s[k]))
  {
    var lo := LowerBound(s, prefix);
    var hi := PrefixRange(s, prefix).1;
    LowerBoundSorted(s, prefix);
    forall k | 0 <= k < |s|
      ensures lo <= k < hi <==> IsPrefix(prefix, s[k])
    {
      if k < lo {
        if IsPrefix(prefix, s[k]) {
          PrefixOrdered(prefix, s[k]);
        }
      } else if k < hi {
        assert s[k] == s[lo..][k - lo];
      } else {
        assert s[hi] == s[lo..][hi - lo];
        if k > hi && IsPrefix(prefix, s[k]) {
          BeyondPrefixed(prefix, s[hi], s[k]);
        }
      }
    }
  }

  /** `util::binary_find`: the position of `value`, or the end. The C++ function
      is generic over the range and the comparator; the model fixes them to the
      lexer's tables of strings and the lexicographic order it uses them with. */
  function BinaryFind(s: seq<string>, value: string): (r: nat)
    ensures r <= |s|
    ensures r < |s| ==> s[r] == value
  {
    var i := LowerBound(s, value);
    if i < |s| && s[i] == value then i else |s|
  }

  /** On a sorted table `binary_find` misses exactly the values that are absent. */
  lemma BinaryFindExact(s: seq<string>, value: string)
    requires SortedStrings(s)
    ensures BinaryFind(s, value) == |s| <==> value !in s
  {
    var i := LowerBound(s, value);
    if value in s {
      var k :| 0 <= k < |s| && s[k] == value;
      Text.StrLeReflexive(value);
      LowerBoundSorted(s, value);
      if i < k {
        Text.StrLeAntisymmetric(value, s[i]);
      }
    }
  }

  /** `util::contains`: whether `binary_find` finds `value`, specialised to
      string tables like `BinaryFind`. */
  function Contains(s: seq<string>, value: string): (r: bool)
    ensures r ==> value in s
  {
    BinaryFind(s, value) != |s|
  }

  /** On a sorted table `contains` is membership. */
  lemma ContainsExact(s: seq<string>, value: string)
    requires SortedStrings(s)
    ensures Contains(s, value) <==> value in s
  {
    BinaryFindExact(s, value);
  }

  // ---------------------------------------------------------------------------
  // concat_arrays
  // ---------------------------------------------------------------------------

  /** `util::concat_arrays` lays its arguments out one after the other: element `j` of
      argument `i` sits behind all elements of the arguments before it. */
  lemma ConcatArraysLayout<T>(arrays: seq<seq<T>>, i: nat, j: nat)
    requires i < |arrays| && j < |arrays[i]|
    ensures |Text.Concat(arrays[..i])| + j < |Text.Concat(arrays)|
    ensures Text.Concat(arrays)[|Text.Concat(arrays[..i])| + j] == arrays[i][j]
  {
    assert arrays == arrays[..i] + arrays[i..];
    Text.ConcatAppend(arrays[..i], arrays[i..]);
    assert arrays[i..][0] == arrays[i];
    assert Text.Concat(arrays[i..]) == arrays[i] + Text.Concat(arrays[i..][1..]);
  }
}
