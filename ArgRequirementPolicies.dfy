/** The argument requirements of ArgRequirementPolicies.hpp: a matcher applied to
    selected (and projected) arguments of a call, or to all of them, described as
    "expect: arg[i, j, …] <matcher description>" or "expect: arg[all] <matcher
    description>". Call arguments are integers, as in the expectation model;
    projections map an argument to the value the matcher sees. */
module ArgRequirementPolicies {
  import opened Wrappers
  import opened Text
  import GeneralMatchers

  /** The arguments a requirement hands to its matcher: the arguments at the given
      indices, each through the projection at the same position (`expect::arg`,
      `expect::args`), or every argument unchanged (`expect::all_args`). */
  datatype Selection = Indices(indices: seq<nat>, projections: seq<int -> int>) | AllArgs

  /** `make_args_policy` asserts statically that there is one projection per index. */
  predicate WellFormed(sel: Selection)
  {
    sel.Indices? ==> |sel.indices| >= 1 && |sel.projections| == |sel.indices|
  }

  /** The selection names only arguments the call has (an index beyond the
      signature's parameters does not compile). */
  predicate Fits(sel: Selection, call: seq<int>)
  {
    sel.Indices? ==> forall k :: 0 <= k < |sel.indices| ==> sel.indices[k] < |call|
  }

  /** `args_selector_fn` followed by `arg_list_indirect_apply_fn`, or
      `all_args_selector_fn` followed by `arg_list_forward_apply_fn`. */
  function Select(sel: Selection, call: seq<int>): (r: seq<int>)
    requires WellFormed(sel) && Fits(sel, call)
    ensures sel.AllArgs? ==> r == call
    ensures sel.Indices? ==> (|r| == |sel.indices|
                              && forall k :: 0 <= k < |r| ==> r[k] == sel.projections[k](call[sel.indices[k]]))
  {
    match sel
    case AllArgs => call
    case Indices(indices, projections) =>
      seq(|indices|, k requires 0 <= k < |indices| => projections[k](call[indices[k]]))
  }

  /** `std::identity`. */
  function Identity(x: int): int
  {
    x
  }

  /** `expand_tuple<std::identity, n>`: the given projections, followed by identities
      up to `n`; more projections than indices is rejected (a `static_assert`). */
  function Padded(projections: seq<int -> int>, n: nat): Option<seq<int -> int>>
  {
    if |projections| > n then None
    else
      var identities: seq<int -> int> := seq(n - |projections|, _ => Identity);
      Some(projections + identities)
  }

  lemma PaddedSpec(projections: seq<int -> int>, n: nat)
    ensures Padded(projections, n).Some? <==> |projections| <= n
    ensures Padded(projections, n).Some? ==>
              var r := Padded(projections, n).value;
              |r| == n
              && r[..|projections|] == projections
              && forall k, x :: |projections| <= k < n ==> r[k](x) == x
  {
  }

  /** `ArgsRequirement`: a matcher over the selected arguments. */
  datatype ArgsRequirement<!V> = ArgsRequirement(matcher: GeneralMatchers.Matcher<seq<int>, V>, selection: Selection)

  /** `expect::arg<index>(matcher, projection)`. */
  function Arg<V>(index: nat, matcher: GeneralMatchers.Matcher<seq<int>, V>, projection: int -> int): (r: ArgsRequirement<V>)
    ensures WellFormed(r.selection)
  {
    ArgsRequirement(matcher, Indices([index], [projection]))
  }

  /** `expect::args<first, others…>(matcher, projections…)`. */
  function Args<V>(indices: seq<nat>, matcher: GeneralMatchers.Matcher<seq<int>, V>, projections: seq<int -> int>)
    : (r: Option<ArgsRequirement<V>>)
    requires |indices| >= 1
  {
    match Padded(projections, |indices|)
    case None => None
    case Some(padded) => Some(ArgsRequirement(matcher, Indices(indices, padded)))
  }

  /** `expect::args` is rejected exactly when there are more projections than
      indices; otherwise the matcher sees each selected argument through its own
      projection, or unchanged beyond the given projections. */
  lemma ArgsSpec<V>(indices: seq<nat>, matcher: GeneralMatchers.Matcher<seq<int>, V>, projections: seq<int -> int>,
                    call: seq<int>)
    requires |indices| >= 1
    requires forall k :: 0 <= k < |indices| ==> indices[k] < |call|
    ensures Args(indices, matcher, projections).Some? <==> |projections| <= |indices|
    ensures Args(indices, matcher, projections).Some? ==>
              var r := Args(indices, matcher, projections).value;
              WellFormed(r.selection) && Fits(r.selection, call)
              && var s := Select(r.selection, call);
                 (forall k :: 0 <= k < |projections| ==> s[k] == projections[k](call[indices[k]]))
                 && (forall k :: |projections| <= k < |indices| ==> s[k] == call[indices[k]])
  {
    PaddedSpec(projections, |indices|);
    if |projections| <= |indices| {
      var padded := Padded(projections, |indices|).value;
      forall k | 0 <= k < |projections|
        ensures padded[k] == projections[k]
      {
        assert padded[..|projections|][k] == padded[k];
      }
    }
  }

  /** `expect::all_args(matcher)`. */
  function AllArgsOf<V>(matcher: GeneralMatchers.Matcher<seq<int>, V>): (r: ArgsRequirement<V>)
    ensures WellFormed(r.selection)
  {
    ArgsRequirement(matcher, AllArgs)
  }

  /** `is_satisfied`: an argument requirement never keeps an expectation from being
      satisfied. */
  predicate IsSatisfied<V>(r: ArgsRequirement<V>)
  {
    true
  }

  /** `matches`: the matcher applied to the selected arguments. */
  function Matches<V>(r: ArgsRequirement<V>, call: seq<int>): bool
    requires WellFormed(r.selection) && Fits(r.selection, call)
  {
    GeneralMatchers.Matches(r.matcher, Select(r.selection, call))
  }

  /** `consume`: nothing to record. */
  function Consume<V>(r: ArgsRequirement<V>, call: seq<int>): ArgsRequirement<V>
  {
    r
  }

  /** The requirement is satisfied in every state and consuming a call leaves it as
      it was, so its outcome for later calls is unchanged. */
  lemma RequirementStateless<V>(r: ArgsRequirement<V>, call: seq<int>, later: seq<int>)
    requires WellFormed(r.selection) && Fits(r.selection, later)
    ensures IsSatisfied(r) && IsSatisfied(Consume(r, call))
    ensures Matches(Consume(r, call), later) == Matches(r, later)
  {
  }

  /** `expect::arg<i>(m, proj)` matches exactly when `m` accepts the projected
      argument `i`; `expect::all_args(m)` exactly when `m` accepts the argument list. */
  lemma MatchesSpec<V>(index: nat, matcher: GeneralMatchers.Matcher<seq<int>, V>, projection: int -> int, call: seq<int>)
    requires index < |call|
    ensures Fits(Arg(index, matcher, projection).selection, call)
    ensures Matches(Arg(index, matcher, projection), call) == GeneralMatchers.Matches(matcher, [projection(call[index])])
    ensures Matches(AllArgsOf(matcher), call) == GeneralMatchers.Matches(matcher, call)
  {
    var s := Select(Arg(index, matcher, projection).selection, call);
    assert s == [projection(call[index])];
  }

  /** The text that opens every indexed description. */
  const IndexedLead: string := "expect: arg["

  /** The text that opens the all-arguments description. */
  const AllLead: string := "expect: arg[all] "

  /** The indices in decimal. */
  function IndexParts(indices: seq<nat>): (r: seq<string>)
    ensures |r| == |indices| && forall k :: 0 <= k < |r| ==> r[k] == NatToString(indices[k])
  {
    seq(|indices|, k requires 0 <= k < |indices| => NatToString(indices[k]))
  }

  /** The indices, in decimal, separated by ", ". */
  function IndexList(indices: seq<nat>): string
  {
    Join(IndexParts(indices), ", ")
  }

  /** `arg_requirement_describer<indices…>` and `all_args_requirement_describer`. */
  function Describer(sel: Selection, description: string): string
  {
    match sel
    case Indices(indices, _) => IndexedLead + IndexList(indices) + "] " + description
    case AllArgs => AllLead + description
  }

  /** `describe`: the describer applied to the matcher's description, or nothing
      when the matcher has none. */
  function Describe<V>(r: ArgsRequirement<V>): (d: Option<string>)
    ensures d.Some? <==> GeneralMatchers.Describe(r.matcher).Some?
  {
    match GeneralMatchers.Describe(r.matcher)
    case None => None
    case Some(text) => Some(Describer(r.selection, text))
  }

  /** A single index reads "expect: arg[i] …", the form `expect::arg` describes
      itself with. */
  lemma SingleIndexDescription(index: nat, description: string)
    ensures Describer(Indices([index], []), description) == IndexedLead + NatToString(index) + "] " + description
  {
    assert IndexParts([index]) == [NatToString(index)];
  }

  lemma JoinTwo(a: string, b: string, sep: string)
    ensures Join([a, b], sep) == a + sep + b
  {
    assert [a, b][1..] == [b];
  }

  /** Two indices read "expect: arg[i, j] …". */
  lemma TwoIndicesDescription(i: nat, j: nat, description: string)
    ensures Describer(Indices([i, j], []), description)
            == IndexedLead + (NatToString(i) + ", " + NatToString(j)) + "] " + description
  {
    assert IndexParts([i, j]) == [NatToString(i), NatToString(j)];
    JoinTwo(NatToString(i), NatToString(j), ", ");
  }

  /** No comma and no closing bracket. */
  predicate Unseparated(s: string)
  {
    ',' !in s && ']' !in s
  }

  lemma DecimalUnseparated(n: nat)
    ensures Unseparated(NatToString(n))
  {
    var s := NatToString(n);
    assert forall i :: 0 <= i < |s| ==> '0' <= s[i] <= '9';
  }

  /** Joining non-empty parts free of commas loses nothing: the parts can be read
      back from the joined text. */
  lemma {:induction false} JoinInjective(a: seq<string>, b: seq<string>)
    requires |a| >= 1 && |b| >= 1
    requires forall k :: 0 <= k < |a| ==> Unseparated(a[k])
    requires forall k :: 0 <= k < |b| ==> Unseparated(b[k])
    requires Join(a, ", ") == Join(b, ", ")
    ensures a == b
    decreases |a|
  {
    JoinUnbracketed(a);
    if |a| == 1 && |b| == 1 {
    } else if |a| == 1 {
      CommaAt(b[0], Join(b[1..], ", "));
      assert false;
    } else if |b| == 1 {
      CommaAt(a[0], Join(a[1..], ", "));
      assert false;
    } else {
      SplitAtFirstComma(a[0], Join(a[1..], ", "), b[0], Join(b[1..], ", "));
      JoinInjective(a[1..], b[1..]);
      assert a == [a[0]] + a[1..] && b == [b[0]] + b[1..];
    }
  }

  /** A part followed by ", " and more text contains a comma. */
  lemma CommaAt(p: string, rest: string)
    ensures ',' in p + ", " + rest
  {
    assert (p + ", " + rest)[|p|] == ',';
  }

  /** Text free of commas followed by ", " is determined by where the first comma
      stands. */
  lemma SplitAtFirstComma(p: string, x: string, q: string, y: string)
    requires Unseparated(p) && Unseparated(q)
    requires p + ", " + x == q + ", " + y
    ensures p == q && x == y
  {
    var s := p + ", " + x;
    assert forall i :: 0 <= i < |p| ==> s[i] == p[i];
    assert forall i :: 0 <= i < |q| ==> s[i] == q[i];
    assert s[|p|] == ',' && s[|q|] == ',';
    assert |p| == |q|;
    assert p == s[..|p|] == q;
    assert x == s[|p| + 2..] == y;
  }

  /** A joined list of unseparated parts holds no closing bracket. */
  lemma {:induction false} JoinUnbracketed(a: seq<string>)
    requires forall k :: 0 <= k < |a| ==> Unseparated(a[k])
    ensures ']' !in Join(a, ", ")
    decreases |a|
  {
    if |a| > 1 {
      JoinUnbracketed(a[1..]);
    }
  }

  /** The decimal renderings of a list of indices. */
  lemma IndexPartsUnseparated(indices: seq<nat>)
    ensures forall k :: 0 <= k < |indices| ==> Unseparated(IndexParts(indices)[k])
  {
    forall k | 0 <= k < |indices|
      ensures Unseparated(NatToString(indices[k]))
    {
      DecimalUnseparated(indices[k]);
    }
  }

  /** Text free of closing brackets followed by "] " is determined by where the
      first closing bracket stands. */
  lemma SplitAtBracket(p: string, x: string, q: string, y: string)
    requires ']' !in p && ']' !in q
    requires p + "] " + x == q + "] " + y
    ensures p == q && x == y
  {
    var s := p + "] " + x;
    assert forall i :: 0 <= i < |p| ==> s[i] == p[i];
    assert forall i :: 0 <= i < |q| ==> s[i] == q[i];
    assert s[|p|] == ']' && s[|q|] == ']';
    assert |p| == |q|;
    assert p == s[..|p|] == q;
    assert x == s[|p| + 2..] == y;
  }

  /** Equal index lists render equally only when they are equal. */
  lemma IndexListInjective(a: seq<nat>, b: seq<nat>)
    requires |a| >= 1 && |b| >= 1
    requires IndexList(a) == IndexList(b)
    ensures a == b
  {
    var pa, pb := IndexParts(a), IndexParts(b);
    IndexPartsUnseparated(a);
    IndexPartsUnseparated(b);
    JoinInjective(pa, pb);
    forall k | 0 <= k < |a|
      ensures a[k] == b[k]
    {
      assert DecimalValue(pa[k]) == a[k] && DecimalValue(pb[k]) == b[k];
    }
  }

  /** Equal texts after the same lead are equal. */
  lemma DropLead(lead: string, a: string, b: string)
    requires lead + a == lead + b
    ensures a == b
  {
    assert a == (lead + a)[|lead|..];
    assert b == (lead + b)[|lead|..];
  }

  /** The description names the selected arguments: two well-formed requirements
      whose descriptions are equal select the same indices (or both all
      arguments) and carry the same matcher description. */
  lemma DescriberInjective(s1: Selection, d1: string, s2: Selection, d2: string)
    requires WellFormed(s1) && WellFormed(s2)
    requires Describer(s1, d1) == Describer(s2, d2)
    ensures s1.AllArgs? <==> s2.AllArgs?
    ensures s1.Indices? ==> s1.indices == s2.indices
    ensures d1 == d2
  {
    if s1.Indices? && s2.Indices? {
      var l1, l2 := IndexList(s1.indices), IndexList(s2.indices);
      assert Describer(s1, d1) == IndexedLead + (l1 + "] " + d1);
      assert Describer(s2, d2) == IndexedLead + (l2 + "] " + d2);
      DropLead(IndexedLead, l1 + "] " + d1, l2 + "] " + d2);
      IndexPartsUnseparated(s1.indices);
      IndexPartsUnseparated(s2.indices);
      JoinUnbracketed(IndexParts(s1.indices));
      JoinUnbracketed(IndexParts(s2.indices));
      SplitAtBracket(l1, d1, l2, d2);
      IndexListInjective(s1.indices, s2.indices);
    } else if s1.Indices? {
      IndexedNotAll(s1.indices, d1, d2);
    } else if s2.Indices? {
      IndexedNotAll(s2.indices, d2, d1);
    } else {
      DropLead(AllLead, d1, d2);
    }
  }

  /** An indexed description never reads like the all-arguments one: after
      "expect: arg[" comes a digit, not "all". */
  lemma IndexedNotAll(indices: seq<nat>, d: string, e: string)
    requires |indices| >= 1
    ensures Describer(Indices(indices, []), d) != AllLead + e
  {
    var parts := IndexParts(indices);
    var first := parts[0];
    assert IndexList(indices) == first + (if |parts| == 1 then "" else ", " + Join(parts[1..], ", "));
    assert '0' <= first[0] <= '9';
    var s := Describer(Indices(indices, []), d);
    assert s[|IndexedLead|] == first[0];
    assert (AllLead + e)[|IndexedLead|] == 'a';
  }

  /** `describe` produces the describer's text around the matcher's own description. */
  lemma DescribeSpec<V>(r: ArgsRequirement<V>)
    ensures GeneralMatchers.Describe(r.matcher).Some? ==>
              Describe(r) == Some(Describer(r.selection, GeneralMatchers.Describe(r.matcher).value))
  {
  }
}
