/** Rendering of no-match reports: the call's arguments, the requirement
    descriptions of each rejecting expectation split into violations and adherences,
    and the in-place partition that performs that split. */
module StringifyReports {
  import opened Wrappers
  import Text

  /** A requirement description; expectations may carry policies without one. */
  type Description = Option<string>

  /** The order of `std::optional<std::string>`: an empty optional precedes every
      description, descriptions compare as strings. */
  predicate DescLe(a: Description, b: Description)
  {
    a.None? || (b.Some? && Text.StrLe(a.value, b.value))
  }

  lemma DescLeOrder(a: Description, b: Description, c: Description)
    ensures DescLe(a, a)
    ensures DescLe(a, b) || DescLe(b, a)
    ensures DescLe(a, b) && DescLe(b, a) ==> a == b
    ensures DescLe(a, b) && DescLe(b, c) ==> DescLe(a, c)
  {
    if a.Some? {
      Text.StrLeReflexive(a.value);
    }
    if a.Some? && b.Some? {
      Text.StrLeTotal(a.value, b.value);
      if Text.StrLe(a.value, b.value) && Text.StrLe(b.value, a.value) {
        Text.StrLeAntisymmetric(a.value, b.value);
      }
    }
    if a.Some? && b.Some? && c.Some? && Text.StrLe(a.value, b.value) && Text.StrLe(b.value, c.value) {
      Text.StrLeTransitive(a.value, b.value, c.value);
    }
  }

  predicate Sorted(s: seq<Description>)
  {
    forall i, j :: 0 <= i < j < |s| ==> DescLe(s[i], s[j])
  }

  /** Inserts `x` in front of the first element it does not follow. */
  function Insert(x: Description, s: seq<Description>): seq<Description>
  {
    if s == [] then [x]
    else if DescLe(x, s[0]) then [x] + s
    else [s[0]] + Insert(x, s[1..])
  }

  /** Inserting into a sorted sequence adds exactly `x` and keeps it sorted. */
  lemma {:induction false} InsertSpec(x: Description, s: seq<Description>)
    requires Sorted(s)
    ensures multiset(Insert(x, s)) == multiset(s) + multiset{x}
    ensures Sorted(Insert(x, s))
  {
    if s == [] {
    } else if DescLe(x, s[0]) {
      InsertFront(x, s);
    } else {
      assert Sorted(s[1..]) by {
        forall i, j | 0 <= i < j < |s[1..]|
          ensures DescLe(s[1..][i], s[1..][j])
        {
          assert s[1..][i] == s[i + 1] && s[1..][j] == s[j + 1];
        }
      }
      InsertSpec(x, s[1..]);
      var rest := Insert(x, s[1..]);
      assert s == [s[0]] + s[1..];
      InsertBehind(x, s, rest);
    }
  }

  lemma InsertFront(x: Description, s: seq<Description>)
    requires Sorted(s) && s != [] && DescLe(x, s[0])
    ensures Sorted([x] + s)
  {
    var r := [x] + s;
    forall i, j | 0 <= i < j < |r|
      ensures DescLe(r[i], r[j])
    {
      if i == 0 {
        DescLeOrder(x, s[0], r[j]);
      }
    }
  }

  lemma InsertBehind(x: Description, s: seq<Description>, rest: seq<Description>)
    requires Sorted(s) && s != [] && !DescLe(x, s[0]) && Sorted(rest)
    requires multiset(rest) == multiset(s[1..]) + multiset{x}
    ensures Sorted([s[0]] + rest)
  {
    DescLeOrder(x, s[0], x);
    forall j | 0 <= j < |rest|
      ensures DescLe(s[0], rest[j])
    {
      assert rest[j] in multiset(rest);
      if rest[j] != x {
        assert rest[j] in multiset(s[1..]);
        var k :| 0 <= k < |s[1..]| && s[1..][k] == rest[j];
        assert s[k + 1] == rest[j];
      }
    }
  }

  /** `std::ranges::sort` of descriptions. */
  function Sort(s: seq<Description>): seq<Description>
  {
    if s == [] then [] else Insert(s[0], Sort(s[1..]))
  }

  /** Sorting yields a sorted permutation of its input. */
  lemma {:induction false} SortSpec(s: seq<Description>)
    ensures Sorted(Sort(s))
    ensures multiset(Sort(s)) == multiset(s)
  {
    if s != [] {
      SortSpec(s[1..]);
      InsertSpec(s[0], Sort(s[1..]));
      assert s == [s[0]] + s[1..];
    }
  }

  /** The tail of a sorted sequence is sorted. */
  lemma SortedTail(s: seq<Description>)
    requires Sorted(s) && s != []
    ensures Sorted(s[1..])
  {
    forall i, j | 0 <= i < j < |s[1..]|
      ensures DescLe(s[1..][i], s[1..][j])
    {
      assert s[1..][i] == s[i + 1] && s[1..][j] == s[j + 1];
    }
  }

  /** Two sorted arrangements of the same descriptions start alike. */
  lemma SortedHeads(s: seq<Description>, t: seq<Description>)
    requires Sorted(s) && Sorted(t) && multiset(s) == multiset(t) && s != []
    ensures t != [] && s[0] == t[0]
  {
    assert s[0] in multiset(t);
    assert t[0] in multiset(s);
    var i :| 0 <= i < |t| && t[i] == s[0];
    var j :| 0 <= j < |s| && s[j] == t[0];
    DescLeOrder(s[0], t[0], s[0]);
    assert DescLe(t[0], s[0]) by {
      if i > 0 { assert DescLe(t[0], t[i]); }
    }
    assert DescLe(s[0], t[0]) by {
      if j > 0 { assert DescLe(s[0], s[j]); }
    }
  }

  /** Removing equal heads from equal multisets leaves equal multisets. */
  lemma TailsPermutation<T>(s: seq<T>, t: seq<T>)
    requires s != [] && t != [] && s[0] == t[0] && multiset(s) == multiset(t)
    ensures multiset(s[1..]) == multiset(t[1..])
  {
    assert s == [s[0]] + s[1..];
    assert t == [t[0]] + t[1..];
    assert multiset(s[1..]) == multiset(s) - multiset{s[0]};
    assert multiset(t[1..]) == multiset(t) - multiset{t[0]};
  }

  /** Two sorted arrangements of the same descriptions are the same sequence, so
      sorting depends only on which descriptions are present. */
  lemma {:induction false} SortedUnique(s: seq<Description>, t: seq<Description>)
    requires Sorted(s) && Sorted(t) && multiset(s) == multiset(t)
    ensures s == t
  {
    if s != [] {
      SortedHeads(s, t);
      TailsPermutation(s, t);
      SortedTail(s);
      SortedTail(t);
      SortedUnique(s[1..], t[1..]);
      assert s == [s[0]] + s[1..];
      assert t == [t[0]] + t[1..];
    } else {
      assert |t| == |multiset(t)| == 0;
    }
  }

  /** Sorting is determined by the multiset of its input. */
  lemma SortPermutationInvariant(s: seq<Description>, t: seq<Description>)
    requires multiset(s) == multiset(t)
    ensures Sort(s) == Sort(t)
  {
    SortSpec(s);
    SortSpec(t);
    SortedUnique(Sort(s), Sort(t));
  }

  // ---------------------------------------------------------------------------
  // partition_requirement_descriptions
  // ---------------------------------------------------------------------------

  /** Each description paired with its outcome. */
  function Pairs(d: seq<Description>, o: seq<bool>): (r: seq<(Description, bool)>)
    requires |d| == |o|
    ensures |r| == |d|
    ensures forall k :: 0 <= k < |r| ==> r[k] == (d[k], o[k])
  {
    seq(|d|, k requires 0 <= k < |d| => (d[k], o[k]))
  }

  /** The descriptions whose outcome equals `outcome`, in order. */
  function Select(d: seq<Description>, o: seq<bool>, outcome: bool): (r: seq<Description>)
    requires |d| == |o|
  {
    if d == [] then []
    else (if o[0] == outcome then [d[0]] else []) + Select(d[1..], o[1..], outcome)
  }

  /** The descriptions of the violated requirements. */
  function Violations(d: seq<Description>, o: seq<bool>): seq<Description>
    requires |d| == |o|
  {
    Select(d, o, false)
  }

  /** The descriptions of the requirements the call adheres to. */
  function Adherences(d: seq<Description>, o: seq<bool>): seq<Description>
    requires |d| == |o|
  {
    Select(d, o, true)
  }

  /** The same selection, read off the pairs as a multiset. */
  function SelectBag(p: seq<(Description, bool)>, outcome: bool): multiset<Description>
  {
    if p == [] then multiset{}
    else (if p[0].1 == outcome then multiset{p[0].0} else multiset{}) + SelectBag(p[1..], outcome)
  }

  lemma {:induction false} SelectBagAppend(p: seq<(Description, bool)>, q: seq<(Description, bool)>, outcome: bool)
    ensures SelectBag(p + q, outcome) == SelectBag(p, outcome) + SelectBag(q, outcome)
  {
    if p != [] {
      assert (p + q)[0] == p[0];
      assert (p + q)[1..] == p[1..] + q;
      SelectBagAppend(p[1..], q, outcome);
      var h := if p[0].1 == outcome then multiset{p[0].0} else multiset{};
      calc {
        SelectBag(p + q, outcome);
        h + SelectBag(p[1..] + q, outcome);
        h + (SelectBag(p[1..], outcome) + SelectBag(q, outcome));
        (h + SelectBag(p[1..], outcome)) + SelectBag(q, outcome);
        SelectBag(p, outcome) + SelectBag(q, outcome);
      }
    } else {
      assert p + q == q;
    }
  }

  /** Taking out the element at `j`. */
  lemma RemoveAt(q: seq<(Description, bool)>, j: nat, outcome: bool)
    requires j < |q|
    ensures multiset(q[..j] + q[j + 1..]) == multiset(q) - multiset{q[j]}
    ensures SelectBag(q, outcome) == SelectBag([q[j]], outcome) + SelectBag(q[..j] + q[j + 1..], outcome)
  {
    assert q == q[..j] + [q[j]] + q[j + 1..];
    SelectBagAppend(q[..j] + [q[j]], q[j + 1..], outcome);
    SelectBagAppend(q[..j], [q[j]], outcome);
    SelectBagAppend(q[..j], q[j + 1..], outcome);
  }

  /** Selection from a non-empty sequence: its head, then its tail. */
  lemma SelectBagHead(p: seq<(Description, bool)>, outcome: bool)
    requires p != []
    ensures SelectBag(p, outcome) == SelectBag([p[0]], outcome) + SelectBag(p[1..], outcome)
  {
    assert [p[0]][1..] == [];
  }

  /** Taking the same element out of two permutations of each other. */
  lemma PermutationRest(p: seq<(Description, bool)>, q: seq<(Description, bool)>, j: nat)
    requires multiset(p) == multiset(q) && p != [] && j < |q| && q[j] == p[0]
    ensures multiset(p[1..]) == multiset(q[..j] + q[j + 1..])
  {
    assert q == q[..j] + [q[j]] + q[j + 1..];
    assert p == [p[0]] + p[1..];
    assert multiset(p[1..]) == multiset(p) - multiset{p[0]};
    assert multiset(q[..j] + q[j + 1..]) == multiset(q) - multiset{q[j]};
  }

  /** Rearranging the pairs does not change which descriptions are selected. */
  lemma {:induction false} SelectBagPermutation(p: seq<(Description, bool)>, q: seq<(Description, bool)>, outcome: bool)
    requires multiset(p) == multiset(q)
    ensures SelectBag(p, outcome) == SelectBag(q, outcome)
    decreases |p|
  {
    if p != [] {
      assert p[0] in multiset(q);
      var j :| 0 <= j < |q| && q[j] == p[0];
      var rest := q[..j] + q[j + 1..];
      PermutationRest(p, q, j);
      SelectBagHead(p, outcome);
      RemoveAt(q, j, outcome);
      SelectBagPermutation(p[1..], rest, outcome);
    } else {
      assert |q| == |multiset(q)| == 0;
    }
  }

  lemma {:induction false} SelectBagOfPairs(d: seq<Description>, o: seq<bool>, outcome: bool)
    requires |d| == |o|
    ensures multiset(Select(d, o, outcome)) == SelectBag(Pairs(d, o), outcome)
  {
    if d != [] {
      SelectBagOfPairs(d[1..], o[1..], outcome);
      assert Pairs(d, o)[0] == (d[0], o[0]);
      assert Pairs(d, o)[1..] == Pairs(d[1..], o[1..]);
      var head := if o[0] == outcome then [d[0]] else [];
      var h := if o[0] == outcome then multiset{d[0]} else multiset{};
      assert multiset(head) == h;
      calc {
        multiset(Select(d, o, outcome));
        multiset(head + Select(d[1..], o[1..], outcome));
        multiset(head) + multiset(Select(d[1..], o[1..], outcome));
        h + SelectBag(Pairs(d[1..], o[1..]), outcome);
        SelectBag(Pairs(d, o), outcome);
      }
    } else {
      assert Pairs(d, o) == [];
    }
  }

  /** Selection from a sequence whose outcomes are all `outcome` keeps everything. */
  lemma {:induction false} SelectAll(d: seq<Description>, o: seq<bool>, outcome: bool)
    requires |d| == |o|
    requires forall k :: 0 <= k < |o| ==> o[k] == outcome
    ensures Select(d, o, outcome) == d
  {
    if d != [] {
      SelectAll(d[1..], o[1..], outcome);
      assert d == [d[0]] + d[1..];
    }
  }

  /** Selection from a sequence whose outcomes all differ from `outcome` keeps nothing. */
  lemma {:induction false} SelectNone(d: seq<Description>, o: seq<bool>, outcome: bool)
    requires |d| == |o|
    requires forall k :: 0 <= k < |o| ==> o[k] != outcome
    ensures Select(d, o, outcome) == []
  {
    if d != [] {
      SelectNone(d[1..], o[1..], outcome);
    }
  }

  lemma {:induction false} SelectAppend(d: seq<Description>, o: seq<bool>, d': seq<Description>, o': seq<bool>, outcome: bool)
    requires |d| == |o| && |d'| == |o'|
    ensures Select(d + d', o + o', outcome) == Select(d, o, outcome) + Select(d', o', outcome)
  {
    if d != [] {
      assert (d + d')[0] == d[0] && (o + o')[0] == o[0];
      assert (d + d')[1..] == d[1..] + d';
      assert (o + o')[1..] == o[1..] + o';
      SelectAppend(d[1..], o[1..], d', o', outcome);
      var head := if o[0] == outcome then [d[0]] else [];
      calc {
        Select(d + d', o + o', outcome);
        head + Select(d[1..] + d', o[1..] + o', outcome);
        head + (Select(d[1..], o[1..], outcome) + Select(d', o', outcome));
        (head + Select(d[1..], o[1..], outcome)) + Select(d', o', outcome);
      }
    } else {
      assert d + d' == d' && o + o' == o';
    }
  }

  /** Every description is either violated or adhered to, so the two selections
      split the descriptions. */
  lemma {:induction false} ViolationsAdherencesSplit(d: seq<Description>, o: seq<bool>)
    requires |d| == |o|
    ensures multiset(Violations(d, o)) + multiset(Adherences(d, o)) == multiset(d)
  {
    if d != [] {
      ViolationsAdherencesSplit(d[1..], o[1..]);
      assert d == [d[0]] + d[1..];
      assert multiset(d) == multiset{d[0]} + multiset(d[1..]);
    }
  }

  /** A description is selected exactly when one of its occurrences is paired with
      the selected outcome. */
  lemma {:induction false} SelectMembership(d: seq<Description>, o: seq<bool>, outcome: bool, x: Description)
    requires |d| == |o|
    ensures x in Select(d, o, outcome) <==> exists k :: 0 <= k < |d| && d[k] == x && o[k] == outcome
  {
    if d != [] {
      SelectMembership(d[1..], o[1..], outcome, x);
      var head := if o[0] == outcome then [d[0]] else [];
      assert Select(d, o, outcome) == head + Select(d[1..], o[1..], outcome);
      if x in Select(d[1..], o[1..], outcome) {
        var k :| 0 <= k < |d[1..]| && d[1..][k] == x && o[1..][k] == outcome;
        assert d[k + 1] == x && o[k + 1] == outcome;
      }
      if exists k :: 0 <= k < |d| && d[k] == x && o[k] == outcome {
        var k :| 0 <= k < |d| && d[k] == x && o[k] == outcome;
        if k > 0 {
          assert d[1..][k - 1] == x && o[1..][k - 1] == outcome;
        }
      }
    }
  }

  /** Swapping positions `i` and `j` of both sequences swaps the pairs. */
  lemma SwapKeepsPairs(d: seq<Description>, o: seq<bool>, i: nat, j: nat)
    requires |d| == |o| && i < |d| && j < |d|
    ensures multiset(Pairs(d[i := d[j]][j := d[i]], o[i := o[j]][j := o[i]])) == multiset(Pairs(d, o))
  {
    var p := Pairs(d, o);
    assert Pairs(d[i := d[j]][j := d[i]], o[i := o[j]][j := o[i]]) == p[i := p[j]][j := p[i]];
  }

  /** `std::ranges::find(outcomes.begin() + from, outcomes.begin() + to, false)`. */
  method FindFalse(outcomes: array<bool>, from: nat, to: nat) returns (i: nat)
    requires from <= to <= outcomes.Length
    ensures from <= i <= to
    ensures forall k :: from <= k < i ==> outcomes[k]
    ensures i < to ==> !outcomes[i]
  {
    i := from;
    while i < to && outcomes[i]
      invariant from <= i <= to
      invariant forall k :: from <= k < i ==> outcomes[k]
    {
      i := i + 1;
    }
  }

  /** The two `std::ranges::iter_swap` calls of one partition step: positions `i`
      and `j` are exchanged in both arrays. */
  method SwapPaired(descriptions: array<Description>, outcomes: array<bool>, i: nat, j: nat)
    requires descriptions.Length == outcomes.Length && i < outcomes.Length && j < outcomes.Length
    modifies descriptions, outcomes
    ensures outcomes[..] == old(outcomes[..])[i := old(outcomes[j])][j := old(outcomes[i])]
    ensures multiset(Pairs(descriptions[..], outcomes[..]))
            == multiset(Pairs(old(descriptions[..]), old(outcomes[..])))
  {
    SwapKeepsPairs(descriptions[..], outcomes[..], i, j);
    outcomes[i], outcomes[j] := outcomes[j], outcomes[i];
    descriptions[i], descriptions[j] := descriptions[j], descriptions[i];
  }

  /** `partition_requirement_descriptions`: moves every violated requirement, together
      with its description, behind the adhered ones by swapping both arrays alike, and
      returns where the violations start. */
  method PartitionRequirementDescriptions(descriptions: array<Description>, outcomes: array<bool>)
    returns (midpoint: nat)
    requires descriptions.Length == outcomes.Length
    requires descriptions.Length > 0
    requires exists k :: 0 <= k < outcomes.Length && !outcomes[k]
    modifies descriptions, outcomes
    ensures midpoint < descriptions.Length
    ensures forall k :: 0 <= k < midpoint ==> outcomes[k]
    ensures forall k :: midpoint <= k < outcomes.Length ==> !outcomes[k]
    ensures multiset(Pairs(descriptions[..], outcomes[..]))
            == multiset(Pairs(old(descriptions[..]), old(outcomes[..])))
  {
    var n := outcomes.Length;
    midpoint := n;
    var end := n;
    var iter := FindFalse(outcomes, 0, end);
    while iter != end
      invariant 0 <= iter <= end == midpoint <= n
      invariant end < n || iter < end
      invariant forall k :: 0 <= k < iter ==> outcomes[k]
      invariant iter < end ==> !outcomes[iter]
      invariant forall k :: end <= k < n ==> !outcomes[k]
      invariant multiset(Pairs(descriptions[..], outcomes[..]))
                == multiset(Pairs(old(descriptions[..]), old(outcomes[..])))
      decreases end
    {
      var index := iter;
      end := end - 1;
      midpoint := midpoint - 1;
      SwapPaired(descriptions, outcomes, index, end);
      iter := FindFalse(outcomes, iter, end);
    }
  }

  /** Selecting from outcomes that are true up to `midpoint` and false after it. */
  lemma SelectPartitioned(d: seq<Description>, o: seq<bool>, midpoint: nat)
    requires |d| == |o| && midpoint <= |d|
    requires forall k :: 0 <= k < midpoint ==> o[k]
    requires forall k :: midpoint <= k < |o| ==> !o[k]
    ensures Violations(d, o) == d[midpoint..]
    ensures Adherences(d, o) == d[..midpoint]
  {
    var d1, d2, o1, o2 := d[..midpoint], d[midpoint..], o[..midpoint], o[midpoint..];
    assert d == d1 + d2 && o == o1 + o2;
    SelectAppend(d1, o1, d2, o2, false);
    SelectAppend(d1, o1, d2, o2, true);
    SelectNone(d1, o1, false);
    SelectAll(d1, o1, true);
    SelectAll(d2, o2, false);
    SelectNone(d2, o2, true);
  }

  /** Rearranging descriptions and outcomes alike keeps the selections' contents. */
  lemma SelectPermutation(d: seq<Description>, o: seq<bool>, d0: seq<Description>, o0: seq<bool>, outcome: bool)
    requires |d| == |o| && |d0| == |o0|
    requires multiset(Pairs(d, o)) == multiset(Pairs(d0, o0))
    ensures multiset(Select(d, o, outcome)) == multiset(Select(d0, o0, outcome))
  {
    SelectBagOfPairs(d, o, outcome);
    SelectBagOfPairs(d0, o0, outcome);
    SelectBagPermutation(Pairs(d, o), Pairs(d0, o0), outcome);
  }

  /** After the partition the returned suffix holds exactly the violated descriptions
      and the prefix exactly the adhered ones, whatever order they were in before. */
  lemma PartitionSelects(d: seq<Description>, o: seq<bool>, d0: seq<Description>, o0: seq<bool>, midpoint: nat)
    requires |d| == |o| && |d0| == |o0| && midpoint <= |d|
    requires forall k :: 0 <= k < midpoint ==> o[k]
    requires forall k :: midpoint <= k < |o| ==> !o[k]
    requires multiset(Pairs(d, o)) == multiset(Pairs(d0, o0))
    ensures multiset(d[midpoint..]) == multiset(Violations(d0, o0))
    ensures multiset(d[..midpoint]) == multiset(Adherences(d0, o0))
  {
    SelectPartitioned(d, o, midpoint);
    SelectPermutation(d, o, d0, o0, false);
    SelectPermutation(d, o, d0, o0, true);
  }

  // ---------------------------------------------------------------------------
  // Rendering
  // ---------------------------------------------------------------------------

  /** One argument of a call report: its printed type and its printed value. */
  datatype ArgDetail = ArgDetail(typeName: string, state: string)

  /** A captured stack trace: the printed entries and the printed whole trace. */
  datatype Stacktrace = Stacktrace(entries: seq<string>, printed: string)

  /** The parts of a `CallReport` the no-match text shows. */
  datatype CallReport = CallReport(args: seq<ArgDetail>, fromLoc: string, stacktrace: Stacktrace)

  /** A rejecting expectation: where it was created, its requirement descriptions and
      the outcome of each requirement for the call. */
  datatype NoMatchReport = NoMatchReport(expectationFrom: string, descriptions: seq<Description>,
                                         outcomes: seq<bool>)

  /** One outcome per description. */
  predicate Aligned(r: NoMatchReport)
  {
    |r.descriptions| == |r.outcomes|
  }

  /** A report whose outcomes belong to its descriptions. */
  type AlignedReport = r: NoMatchReport | Aligned(r) witness NoMatchReport("", [], [])

  /** What the partition asserts of a no-match report: at least one violation. */
  predicate HasViolation(r: AlignedReport)
  {
    exists k :: 0 <= k < |r.outcomes| && !r.outcomes[k]
  }

  /** The line of argument number `index`. */
  function ArgumentLine(prefix: string, index: nat, arg: ArgDetail): string
  {
    prefix + "arg[" + Text.NatToString(index) + "] => " + arg.typeName + ": " + arg.state + "\n"
  }

  /** The argument lines, the argument at position k numbered k. */
  function ArgumentLines(args: seq<ArgDetail>, prefix: string): seq<string>
  {
    Text.Numbered(args, (k, arg) => ArgumentLine(prefix, k, arg))
  }

  /** `stringify_call_report_arguments`: appends one line per argument. */
  method StringifyCallReportArguments(out: string, args: seq<ArgDetail>, prefix: string)
    returns (r: string)
    ensures r == out + Text.Concat(ArgumentLines(args, prefix))
  {
    r := out;
    var i := 0;
    while i < |args|
      invariant 0 <= i <= |args|
      invariant r == out + Text.Concat(ArgumentLines(args[..i], prefix))
    {
      var line := ArgumentLine(prefix, i, args[i]);
      Text.NumberedPrefix(args, (k, arg) => ArgumentLine(prefix, k, arg), i);
      Text.ConcatSnoc(ArgumentLines(args[..i], prefix), line);
      r := r + line;
      Text.Assoc(out, Text.Concat(ArgumentLines(args[..i], prefix)), line);
      i := i + 1;
    }
    assert args[..i] == args;
  }

  /** The line of one requirement description; nothing for a requirement without one. */
  function DescriptionLine(d: Description, prefix: string): string
  {
    match d
    case None => ""
    case Some(text) => prefix + text + "\n"
  }

  /** The description lines, in order. */
  function DescriptionLines(d: seq<Description>, prefix: string): (r: seq<string>)
    ensures |r| == |d|
  {
    seq(|d|, k requires 0 <= k < |d| => DescriptionLine(d[k], prefix))
  }

  /** The texts of the present descriptions, in order. */
  function Present(d: seq<Description>): seq<string>
  {
    if d == [] then []
    else (if d[0].Some? then [d[0].value] else []) + Present(d[1..])
  }

  /** Each text on a line of its own after the prefix. */
  function Block(texts: seq<string>, prefix: string): (r: seq<string>)
    ensures |r| == |texts|
  {
    seq(|texts|, k requires 0 <= k < |texts| => prefix + texts[k] + "\n")
  }

  /** Descriptions without text are skipped: the rendering is one prefixed line per
      present description, in order. */
  lemma {:induction false} DescriptionLinesPresent(d: seq<Description>, prefix: string)
    ensures Text.Concat(DescriptionLines(d, prefix)) == Text.Concat(Block(Present(d), prefix))
  {
    if d != [] {
      DescriptionLinesPresent(d[1..], prefix);
      var lines := DescriptionLines(d, prefix);
      assert lines == [DescriptionLine(d[0], prefix)] + DescriptionLines(d[1..], prefix);
      Text.ConcatAppend([DescriptionLine(d[0], prefix)], DescriptionLines(d[1..], prefix));
      assert Text.Concat([DescriptionLine(d[0], prefix)]) == DescriptionLine(d[0], prefix) + Text.Concat([]);
      var head := if d[0].Some? then [d[0].value] else [];
      assert Present(d) == head + Present(d[1..]);
      assert Block(Present(d), prefix) == Block(head, prefix) + Block(Present(d[1..]), prefix);
      Text.ConcatAppend(Block(head, prefix), Block(Present(d[1..]), prefix));
      if d[0].Some? {
        assert Text.Concat(Block(head, prefix)) == prefix + d[0].value + "\n" + Text.Concat([]);
      } else {
        assert Block(head, prefix) == [];
      }
    }
  }

  /** `stringify_expectation_report_requirement_descriptions`. */
  method StringifyRequirementDescriptions(out: string, descriptions: seq<Description>, linePrefix: string)
    returns (r: string)
    ensures r == out + Text.Concat(DescriptionLines(descriptions, linePrefix))
  {
    r := out;
    var i := 0;
    while i < |descriptions|
      invariant 0 <= i <= |descriptions|
      invariant r == out + Text.Concat(DescriptionLines(descriptions[..i], linePrefix))
    {
      var written := Text.Concat(DescriptionLines(descriptions[..i], linePrefix));
      var line := DescriptionLine(descriptions[i], linePrefix);
      assert DescriptionLines(descriptions[..i + 1], linePrefix) == DescriptionLines(descriptions[..i], linePrefix) + [line];
      Text.ConcatSnoc(DescriptionLines(descriptions[..i], linePrefix), line);
      Text.Assoc(out, written, line);
      if descriptions[i].Some? {
        r := r + linePrefix + descriptions[i].value + "\n";
      } else {
        assert line == "";
      }
      i := i + 1;
    }
    assert descriptions[..i] == descriptions;
  }

  /** `stringify_call_report_from`: the first stack-trace entry when a trace was
      captured, the call's source location otherwise. */
  function CallFrom(call: CallReport): string
  {
    "Call from " + (if call.stacktrace.entries != [] then call.stacktrace.entries[0] else call.fromLoc) + "\n"
  }

  /** `stringify_expectation_report_from`. */
  function ExpectationFrom(location: string): string
  {
    "Expectation from " + location + "\n"
  }

  /** `stringify_stacktrace`: nothing for an empty trace. */
  function StacktraceText(st: Stacktrace): string
  {
    if st.entries == [] then "" else "Stacktrace:\n" + st.printed
  }

  /** The lines every unmatched-call text starts with: which call and its arguments. */
  function CallPreamble(kind: string, call: CallReport): string
  {
    kind + CallFrom(call) + "\tWhere\n" + Text.Concat(ArgumentLines(call.args, "\t\t"))
  }

  /** The heading of the section of one rejecting expectation, numbered `index + 1`. */
  function EntryHeading(index: nat, r: NoMatchReport): string
  {
    "\t#" + Text.NatToString(index + 1) + " " + ExpectationFrom(r.expectationFrom)
  }

  /** The sorted violated requirements, one "-" line each. */
  function ViolationSection(r: AlignedReport): string
  {
    "\tDue to Violation(s):\n"
    + Text.Concat(DescriptionLines(Sort(Violations(r.descriptions, r.outcomes)), "\t  - "))
  }

  /** The sorted adhered requirements, one "+" line each, or nothing when the call
      adheres to none. */
  function AdherenceSection(r: AlignedReport): string
  {
    var adherences := Adherences(r.descriptions, r.outcomes);
    if adherences == [] then ""
    else "\tWith Adherence(s):\n" + Text.Concat(DescriptionLines(Sort(adherences), "\t  + "))
  }

  /** The section of one rejecting expectation, numbered `index + 1`. */
  function NoMatchEntry(index: nat, r: AlignedReport): string
  {
    EntryHeading(index, r) + ViolationSection(r) + AdherenceSection(r)
  }

  /** The sections of all rejecting expectations, the one at position k numbered k + 1. */
  function NoMatchEntries(reports: seq<AlignedReport>): seq<string>
  {
    Text.Numbered(reports, NoMatchEntry)
  }

  /** The list of rejecting expectations, or that there is none. */
  function NoMatchesBody(reports: seq<AlignedReport>): string
  {
    if reports == [] then "No Expectations available!\n"
    else Text.NatToString(|reports|) + " non-matching Expectation(s):\n" + Text.Concat(NoMatchEntries(reports))
  }

  /** The text `stringify_no_matches` produces: which call, its arguments, then either
      that no expectation exists or each rejecting expectation with its sorted
      violations and its sorted adherences, then the stack trace. */
  function NoMatchesText(call: CallReport, reports: seq<AlignedReport>): string
  {
    CallPreamble("Unmatched ", call) + NoMatchesBody(reports) + "\n" + StacktraceText(call.stacktrace)
  }

  /** One expectation's section: the partition, both sorts and both line blocks. */
  method StringifyNoMatchEntry(out: string, index: nat, report: AlignedReport) returns (r: string)
    requires HasViolation(report)
    ensures r == out + NoMatchEntry(index, report)
  {
    var n := |report.descriptions|;
    var descriptions := new Description[n](k requires 0 <= k < n => report.descriptions[k]);
    var outcomes := new bool[n](k requires 0 <= k < n => report.outcomes[k]);
    assert descriptions[..] == report.descriptions;
    assert outcomes[..] == report.outcomes;
    var k :| 0 <= k < |report.outcomes| && !report.outcomes[k];
    assert !outcomes[k];
    var midpoint := PartitionRequirementDescriptions(descriptions, outcomes);
    PartitionSelects(descriptions[..], outcomes[..], report.descriptions, report.outcomes, midpoint);
    var violations := Sort(descriptions[midpoint..]);
    SortPermutationInvariant(descriptions[midpoint..], Violations(report.descriptions, report.outcomes));
    var violated := StringifyRequirementDescriptions("\tDue to Violation(s):\n", violations, "\t  - ");
    var adherences := descriptions[..midpoint];
    assert |adherences| == |Adherences(report.descriptions, report.outcomes)| by {
      assert |multiset(adherences)| == |multiset(Adherences(report.descriptions, report.outcomes))|;
    }
    var adhered := "";
    if adherences != [] {
      SortPermutationInvariant(adherences, Adherences(report.descriptions, report.outcomes));
      adhered := StringifyRequirementDescriptions("\tWith Adherence(s):\n", Sort(adherences), "\t  + ");
    }
    var heading := EntryHeading(index, report);
    assert violated == ViolationSection(report);
    assert adhered == AdherenceSection(report);
    r := out + heading + violated + adhered;
    Text.Assoc(out, heading, violated);
    Text.Assoc(out, heading + violated, adhered);
  }

  /** The loop of `stringify_no_matches` over the rejecting expectations. */
  method StringifyNoMatchEntries(out: string, reports: seq<AlignedReport>) returns (r: string)
    requires forall k :: 0 <= k < |reports| ==> HasViolation(reports[k])
    ensures r == out + Text.Concat(NoMatchEntries(reports))
  {
    r := out;
    var i := 0;
    while i < |reports|
      invariant 0 <= i <= |reports|
      invariant r == out + Text.Concat(NoMatchEntries(reports[..i]))
    {
      var entry := NoMatchEntry(i, reports[i]);
      Text.NumberedPrefix(reports, NoMatchEntry, i);
      Text.ConcatSnoc(NoMatchEntries(reports[..i]), entry);
      Text.Assoc(out, Text.Concat(NoMatchEntries(reports[..i])), entry);
      r := StringifyNoMatchEntry(r, i, reports[i]);
      i := i + 1;
    }
    assert reports[..i] == reports;
  }

  /** `stringify_no_matches`. */
  method StringifyNoMatches(call: CallReport, reports: seq<AlignedReport>) returns (text: string)
    requires forall k :: 0 <= k < |reports| ==> HasViolation(reports[k])
    ensures text == NoMatchesText(call, reports)
  {
    var preamble := StringifyCallReportArguments("Unmatched " + CallFrom(call) + "\tWhere\n", call.args, "\t\t");
    var body;
    if reports == [] {
      body := "No Expectations available!\n";
    } else {
      body := StringifyNoMatchEntries(Text.NatToString(|reports|) + " non-matching Expectation(s):\n", reports);
    }
    assert preamble == CallPreamble("Unmatched ", call);
    assert body == NoMatchesBody(reports);
    text := preamble + body + "\n" + StacktraceText(call.stacktrace);
  }
}
