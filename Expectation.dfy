/** Expectations and the collection a mock keeps them in: classifying an incoming
    call against every expectation, newest first, and choosing the best match. */
module Expectation {
  import opened Wrappers
  import opened Sequence
  import opened ControlPolicies

  /** The arguments of a call, as far as the policies look at them. */
  type Call = seq<int>

  /** An expectation policy (a requirement on the call). `matcher` gives the
      outcome of `matches`, or `None` when `matches` throws; `consumed` records the
      calls forwarded to the policy's `consume`. */
  datatype Policy = Policy(satisfied: bool, matcher: Call -> Option<bool>,
                           description: Option<string>, consumed: seq<Call>)

  /** The outcomes of all policies, in order, or `None` when one of them throws
      (the first throwing policy ends the evaluation). */
  function RequirementOutcomes(policies: seq<Policy>, call: Call): Option<seq<bool>>
  {
    if policies == [] then Some([])
    else
      match policies[0].matcher(call)
      case None => None
      case Some(b) =>
        match RequirementOutcomes(policies[1..], call)
        case None => None
        case Some(rest) => Some([b] + rest)
  }

  /** The outcomes exist exactly when no policy throws, and then hold every
      policy's outcome at its position. */
  lemma {:induction false} RequirementOutcomesSpec(policies: seq<Policy>, call: Call)
    ensures var r := RequirementOutcomes(policies, call);
            (r.Some? <==> forall k :: 0 <= k < |policies| ==> policies[k].matcher(call).Some?)
            && (r.Some? ==> |r.value| == |policies|
                            && forall k :: 0 <= k < |policies| ==> r.value[k] == policies[k].matcher(call).value)
  {
    if policies != [] {
      RequirementOutcomesSpec(policies[1..], call);
      if policies[0].matcher(call).Some? && RequirementOutcomes(policies[1..], call).None? {
        var k :| 0 <= k < |policies[1..]| && policies[1..][k].matcher(call).None?;
        assert policies[k + 1].matcher(call).None?;
      }
    }
  }

  /** Every policy after it has consumed the call, in order. */
  function ConsumedBy(policies: seq<Policy>, call: Call): (r: seq<Policy>)
    ensures |r| == |policies|
    ensures forall k :: 0 <= k < |policies| ==>
              r[k].consumed == policies[k].consumed + [call]
              && r[k].(consumed := policies[k].consumed) == policies[k]
  {
    if policies == [] then []
    else
      var last := policies[|policies| - 1];
      ConsumedBy(policies[..|policies| - 1], call) + [last.(consumed := last.consumed + [call])]
  }

  /** The policies' descriptions, in order. */
  function Descriptions(policies: seq<Policy>): (r: seq<Option<string>>)
    ensures |r| == |policies| && forall k :: 0 <= k < |policies| ==> r[k] == policies[k].description
  {
    if policies == [] then []
    else Descriptions(policies[..|policies| - 1]) + [policies[|policies| - 1].description]
  }

  /** The report of an expectation: its control state and its policies' descriptions. */
  datatype ExpectationReport = ExpectationReport(controlReport: ControlState,
                                                 requirementDescriptions: seq<Option<string>>)

  /** `BasicExpectation`: a times policy plus a list of expectation policies. */
  class BasicExpectation {
    const control: ControlPolicy
    var policies: seq<Policy>

    ghost predicate Valid()
      reads this, control, control.sequences
    {
      control.Valid()
    }

    constructor (control: ControlPolicy, policies: seq<Policy>)
      ensures this.control == control && this.policies == policies
    {
      this.control := control;
      this.policies := policies;
    }

    /** `is_satisfied`: the times policy and every expectation policy are satisfied. */
    predicate IsSatisfied()
      reads this, control
    {
      control.IsSatisfied() && forall k :: 0 <= k < |policies| ==> policies[k].satisfied
    }

    /** `is_applicable`: the reported control state is applicable. */
    predicate IsApplicable()
      reads this, control, control.sequences
      requires Valid()
    {
      control.State().StateApplicable?
    }

    /** An expectation is applicable exactly when its times policy is. */
    lemma ApplicableIffControlApplicable()
      requires Valid()
      ensures IsApplicable() <==> control.IsApplicable()
    {
      control.StateApplicableIff();
    }

    /** `matches`, with `None` standing for a thrown exception. */
    function Matches(call: Call): (r: Option<seq<bool>>)
      reads this
    {
      RequirementOutcomes(policies, call)
    }

    /** `report`. */
    function Report(): ExpectationReport
      reads this, control, control.sequences
      requires Valid()
    {
      ExpectationReport(control.State(), Descriptions(policies))
    }

    /** `consume`: consumes the times policy, then forwards the call to every
        expectation policy. */
    method Consume(call: Call)
      requires Valid() && control.IsApplicable()
      modifies this, control, control.sequences
      ensures Valid()
      ensures control.count == old(control.count) + 1
      ensures forall k :: 0 <= k < |control.sequences| ==>
                control.sequences[k].cursor == control.ids[k]
                && control.sequences[k].entries
                   == old(control.sequences[k].entries)[control.ids[k] := ExpectedState(control.min, control.max, control.count)]
      ensures policies == ConsumedBy(old(policies), call)
    {
      control.Consume();
      var consumed := [];
      var k := 0;
      while k < |policies|
        invariant 0 <= k <= |policies| && consumed == ConsumedBy(policies[..k], call)
      {
        assert policies[..k + 1][..k] == policies[..k];
        consumed := consumed + [policies[k].(consumed := policies[k].consumed + [call])];
        k := k + 1;
      }
      assert policies[..k] == policies;
      policies := consumed;
    }
  }

  /** How an expectation reacts to a call. */
  datatype Category = Throws | NoMatch(outcomes: seq<bool>) | Inapplicable | Match(report: ExpectationReport)

  /** `determine_requirement_outcomes` and the checks of `evaluate_expectations`
      for one expectation. */
  function Categorize(e: BasicExpectation, call: Call): Category
    reads e, e.control, e.control.sequences
    requires e.Valid()
  {
    match e.Matches(call)
    case None => Throws
    case Some(outcomes) =>
      if false in outcomes then NoMatch(outcomes)
      else if !e.IsApplicable() then Inapplicable
      else Match(e.Report())
  }

  /** An expectation throws when a policy throws, does not match when some outcome
      is false, and otherwise matches exactly when its times policy is applicable. */
  lemma CategorizeSpec(e: BasicExpectation, call: Call)
    requires e.Valid()
    ensures var c := Categorize(e, call);
            (c.Throws? <==> e.Matches(call).None?)
            && (c.NoMatch? <==> e.Matches(call).Some? && false in e.Matches(call).value)
            && (c.NoMatch? ==> c.outcomes == e.Matches(call).value)
            && (c.Match? <==> e.Matches(call).Some? && false !in e.Matches(call).value && e.control.IsApplicable())
            && (c.Match? ==> c.report == e.Report() && c.report.controlReport.StateApplicable?)
  {
    e.ApplicableIffControlApplicable();
  }

  /** The categories of all expectations, oldest first; `repr` holds their state. */
  function Categories(es: seq<BasicExpectation>, call: Call, repr: set<object>): (r: seq<Category>)
    reads repr
    requires forall k :: 0 <= k < |es| ==> Held(es[k], repr) && es[k].Valid()
    ensures |r| == |es|
  {
    if es == [] then []
    else
      assert Held(es[0], repr);
      [Categorize(es[0], call)] + Categories(es[1..], call, repr)
  }

  /** Position `k` of the categories is the category of expectation `k`. */
  lemma {:induction false} CategoriesAt(es: seq<BasicExpectation>, call: Call, repr: set<object>, k: int)
    requires forall j :: 0 <= j < |es| ==> Held(es[j], repr) && es[j].Valid()
    requires 0 <= k < |es|
    ensures Categories(es, call, repr)[k] == Categorize(es[k], call)
  {
    if k > 0 {
      CategoriesAt(es[1..], call, repr, k - 1);
    }
  }

  /** The kinds of category, naming the list an expectation lands in. */
  datatype Kind = IsThrows | IsNoMatch | IsInapplicable | IsMatch

  predicate OfKind(c: Category, kind: Kind)
  {
    match kind
    case IsThrows => c.Throws?
    case IsNoMatch => c.NoMatch?
    case IsInapplicable => c.Inapplicable?
    case IsMatch => c.Match?
  }

  /** The positions from `i` on whose category is of the given kind, newest
      (highest) first. */
  function NewestFirst(cats: seq<Category>, p: Kind, i: int): (r: seq<int>)
    requires 0 <= i <= |cats|
    ensures forall k :: 0 <= k < |r| ==> i <= r[k] < |cats| && OfKind(cats[r[k]], p)
    decreases |cats| - i
  {
    if i == |cats| then []
    else NewestFirst(cats, p, i + 1) + if OfKind(cats[i], p) then [i] else []
  }

  /** One step of `NewestFirst`: position `i` is appended exactly when it is of
      the kind. */
  lemma NewestFirstStep(cats: seq<Category>, p: Kind, i: int)
    requires 0 <= i < |cats|
    ensures NewestFirst(cats, p, i) == if OfKind(cats[i], p) then NewestFirst(cats, p, i + 1) + [i]
                                       else NewestFirst(cats, p, i + 1)
  {
    assert NewestFirst(cats, p, i + 1) + [] == NewestFirst(cats, p, i + 1);
  }

  /** The list holds exactly the positions of that kind, each once, in strictly
      decreasing order. */
  lemma NewestFirstSpec(cats: seq<Category>, p: Kind, i: int)
    requires 0 <= i <= |cats|
    ensures var r := NewestFirst(cats, p, i);
            (forall j :: j in r <==> i <= j < |cats| && OfKind(cats[j], p))
            && forall a, b :: 0 <= a < b < |r| ==> r[a] > r[b]
  {
    NewestFirstMembers(cats, p, i);
    NewestFirstDecreasing(cats, p, i);
  }

  lemma {:induction false} NewestFirstMembers(cats: seq<Category>, p: Kind, i: int)
    requires 0 <= i <= |cats|
    ensures forall j :: j in NewestFirst(cats, p, i) <==> i <= j < |cats| && OfKind(cats[j], p)
    decreases |cats| - i
  {
    if i < |cats| {
      NewestFirstMembers(cats, p, i + 1);
      NewestFirstStep(cats, p, i);
    }
  }

  lemma {:induction false} NewestFirstDecreasing(cats: seq<Category>, p: Kind, i: int)
    requires 0 <= i <= |cats|
    ensures var r := NewestFirst(cats, p, i);
            forall a, b :: 0 <= a < b < |r| ==> r[a] > r[b]
    decreases |cats| - i
  {
    if i < |cats| {
      NewestFirstDecreasing(cats, p, i + 1);
      NewestFirstStep(cats, p, i);
      var rest := NewestFirst(cats, p, i + 1);
      if OfKind(cats[i], p) {
        var r := rest + [i];
        forall a, b | 0 <= a < b < |r|
          ensures r[a] > r[b]
        {
          assert r[a] == rest[a];
          if b < |rest| {
            assert r[b] == rest[b];
          }
        }
      }
    }
  }

  /** Every expectation that does not throw lands in exactly one of the three lists
      `evaluate_expectations` fills, and one that throws in none. */
  lemma EvaluationPartitions(cats: seq<Category>, i: int)
    requires 0 <= i < |cats|
    ensures var inMatch, inInapp, inNo := i in NewestFirst(cats, IsMatch, 0),
                                          i in NewestFirst(cats, IsInapplicable, 0),
                                          i in NewestFirst(cats, IsNoMatch, 0);
            (cats[i].Throws? ==> !inMatch && !inInapp && !inNo)
            && (!cats[i].Throws? ==> (if inMatch then 1 else 0) + (if inInapp then 1 else 0) + (if inNo then 1 else 0) == 1)
  {
    NewestFirstSpec(cats, IsMatch, 0);
    NewestFirstSpec(cats, IsInapplicable, 0);
    NewestFirstSpec(cats, IsNoMatch, 0);
  }

  /** The best match among ratings listed newest first (`find_best_match`): the
      current best is kept while it has the better rating. */
  function BestMatch(ratings: seq<seq<Rating>>): (b: nat)
    requires |ratings| > 0
    ensures b < |ratings|
  {
    if |ratings| == 1 then 0
    else
      var prev := BestMatch(ratings[..|ratings| - 1]);
      if BetterRating(ratings[prev], ratings[|ratings| - 1]) then prev else |ratings| - 1
  }

  /** The sequence ratings of a report whose control state is applicable. */
  function RatingsOf(report: ExpectationReport): seq<Rating>
  {
    if report.controlReport.StateSaturated? then [] else report.controlReport.sequenceRatings
  }

  /** The sequence ratings of the given reports, in order. */
  function ReportRatings(reports: seq<ExpectationReport>): (r: seq<seq<Rating>>)
    ensures |r| == |reports| && forall k :: 0 <= k < |reports| ==> r[k] == RatingsOf(reports[k])
  {
    if reports == [] then []
    else ReportRatings(reports[..|reports| - 1]) + [RatingsOf(reports[|reports| - 1])]
  }

  /** One more rating either keeps the best so far or replaces it. */
  lemma BestMatchExtend(ratings: seq<seq<Rating>>, i: int, better: bool)
    requires 1 <= i < |ratings|
    requires better == BetterRating(ratings[BestMatch(ratings[..i])], ratings[i])
    ensures BestMatch(ratings[..i + 1]) == if better then BestMatch(ratings[..i]) else i
  {
    assert ratings[..i + 1][..i] == ratings[..i];
  }

  /** `find_best_match` as the C++ loop computes it, over the reports of the
      matches (all of them applicable). */
  method FindBestMatch(reports: seq<ExpectationReport>) returns (best: nat)
    requires |reports| > 0
    requires forall k :: 0 <= k < |reports| ==> reports[k].controlReport.StateApplicable?
    ensures best < |reports| && best == BestMatch(ReportRatings(reports))
  {
    ghost var ratings := ReportRatings(reports);
    best := 0;
    var i := 1;
    while i < |reports|
      invariant 1 <= i <= |reports| && best < i
      invariant best == BestMatch(ratings[..i])
    {
      var better := HasBetterRating(reports[best].controlReport.sequenceRatings,
                                    reports[i].controlReport.sequenceRatings);
      assert ratings[best] == reports[best].controlReport.sequenceRatings;
      assert ratings[i] == reports[i].controlReport.sequenceRatings;
      BestMatchExtend(ratings, i, better);
      if !better {
        best := i;
      }
      i := i + 1;
    }
    assert ratings[..i] == ratings;
  }

  /** Without sequences every rating list is empty, so the first listed, i.e. the
      newest, matching expectation wins. */
  lemma {:induction false} NewestWinsWithoutSequences(ratings: seq<seq<Rating>>)
    requires |ratings| > 0
    requires forall k :: 0 <= k < |ratings| ==> ratings[k] == []
    ensures BestMatch(ratings) == 0
  {
    if |ratings| > 1 {
      NewestWinsWithoutSequences(ratings[..|ratings| - 1]);
      assert RatingSum([], ratings[|ratings| - 1]) == 0;
    }
  }

  /** Two matching expectations whose only difference is their entry in one shared
      sequence (the older at `older`, the younger at `younger`): a greedy sequence
      selects the younger, listed first, and a lazy sequence the older. */
  lemma TiedSequenceChoice(strategy: Strategy, cursor: int, older: int, younger: int, tag: int)
    requires 0 <= cursor <= older < younger <= INT_MAX
    ensures var ratings := [[Rating(Priority(strategy, younger, cursor), tag)],
                            [Rating(Priority(strategy, older, cursor), tag)]];
            BestMatch(ratings) == if strategy == Greedy then 0 else 1
  {
    var ratings := [[Rating(Priority(strategy, younger, cursor), tag)],
                    [Rating(Priority(strategy, older, cursor), tag)]];
    assert ratings[..1] == [ratings[0]];
    BetterRatingSingle(Priority(strategy, younger, cursor), Priority(strategy, older, cursor), tag);
  }

  /** The reports `handle_call` emits. Expectations are named by their position in
      the collection. */
  datatype Event =
    | UnhandledException(expectation: int)
    | FullMatch(expectation: int, report: ExpectationReport)
    | InapplicableMatches(expectations: seq<int>)
    | NoMatches(noMatches: seq<(int, seq<bool>)>)
    | UnfulfilledExpectation(report: ExpectationReport)

  /** The unhandled-exception reports for the given positions, in order. */
  function ExceptionEvents(idxs: seq<int>): (r: seq<Event>)
    ensures |r| == |idxs| && forall k :: 0 <= k < |idxs| ==> r[k] == UnhandledException(idxs[k])
  {
    if idxs == [] then []
    else ExceptionEvents(idxs[..|idxs| - 1]) + [UnhandledException(idxs[|idxs| - 1])]
  }

  /** The no-match list with the outcomes that failed. */
  function NoMatchEntries(cats: seq<Category>, idxs: seq<int>): (r: seq<(int, seq<bool>)>)
    requires forall k :: 0 <= k < |idxs| ==> 0 <= idxs[k] < |cats| && cats[idxs[k]].NoMatch?
    ensures |r| == |idxs| && forall k :: 0 <= k < |idxs| ==> r[k] == (idxs[k], cats[idxs[k]].outcomes)
  {
    if idxs == [] then []
    else
      var last := idxs[|idxs| - 1];
      NoMatchEntries(cats, idxs[..|idxs| - 1]) + [(last, cats[last].outcomes)]
  }

  /** The reports of the matched expectations, in list order. */
  function MatchReports(cats: seq<Category>, idxs: seq<int>): (r: seq<ExpectationReport>)
    requires forall k :: 0 <= k < |idxs| ==> 0 <= idxs[k] < |cats| && cats[idxs[k]].Match?
    ensures |r| == |idxs| && forall k :: 0 <= k < |idxs| ==> r[k] == cats[idxs[k]].report
  {
    if idxs == [] then []
    else MatchReports(cats, idxs[..|idxs| - 1]) + [cats[idxs[|idxs| - 1]].report]
  }

  /** What `handle_call` reports for expectations with the given categories, and
      the position of the expectation it lets consume the call: the unhandled
      exceptions, then either the full match of the best match or, without
      matches, the inapplicable matches if there are any, else the no-matches. */
  function CallOutcome(cats: seq<Category>): (seq<Event>, Option<int>)
  {
    var matches := NewestFirst(cats, IsMatch, 0);
    var inapplicable := NewestFirst(cats, IsInapplicable, 0);
    var exceptions := ExceptionEvents(NewestFirst(cats, IsThrows, 0));
    if matches != [] then
      var best := matches[BestMatch(ReportRatings(MatchReports(cats, matches)))];
      (exceptions + [FullMatch(best, cats[best].report)], Some(best))
    else if inapplicable != [] then
      (exceptions + [InapplicableMatches(inapplicable)], None)
    else
      (exceptions + [NoMatches(NoMatchEntries(cats, NewestFirst(cats, IsNoMatch, 0)))], None)
  }

  /** The list of a kind is empty exactly when no position is of that kind. */
  lemma NewestFirstEmpty(cats: seq<Category>, p: Kind)
    ensures NewestFirst(cats, p, 0) == [] <==> forall k :: 0 <= k < |cats| ==> !OfKind(cats[k], p)
  {
    NewestFirstSpec(cats, p, 0);
    var r := NewestFirst(cats, p, 0);
    if r != [] {
      assert OfKind(cats[r[0]], p);
    } else {
      forall k | 0 <= k < |cats| ensures !OfKind(cats[k], p) {
        assert k !in r;
      }
    }
  }

  /** The reports of a call outcome: the unhandled exceptions followed by one
      last report, which is the full match of the consuming expectation when
      there are matches, else the inapplicable matches when there are any, else
      the no-matches. */
  lemma CallOutcomeLast(cats: seq<Category>) returns (last: Event)
    ensures var events, chosen := CallOutcome(cats).0, CallOutcome(cats).1;
            events == ExceptionEvents(NewestFirst(cats, IsThrows, 0)) + [last]
            && (chosen.Some? <==> NewestFirst(cats, IsMatch, 0) != [])
            && (chosen.Some? ==> 0 <= chosen.value < |cats| && chosen.value in NewestFirst(cats, IsMatch, 0)
                                 && last == FullMatch(chosen.value, cats[chosen.value].report))
            && (last.InapplicableMatches? <==> NewestFirst(cats, IsMatch, 0) == [] && NewestFirst(cats, IsInapplicable, 0) != [])
            && (last.NoMatches? <==> NewestFirst(cats, IsMatch, 0) == [] && NewestFirst(cats, IsInapplicable, 0) == [])
  {
    var matches := NewestFirst(cats, IsMatch, 0);
    var inapplicable := NewestFirst(cats, IsInapplicable, 0);
    var exceptions := ExceptionEvents(NewestFirst(cats, IsThrows, 0));
    if matches != [] {
      var best := matches[BestMatch(ReportRatings(MatchReports(cats, matches)))];
      last := FullMatch(best, cats[best].report);
      assert CallOutcome(cats) == (exceptions + [last], Some(best));
    } else if inapplicable != [] {
      last := InapplicableMatches(inapplicable);
      assert CallOutcome(cats) == (exceptions + [last], None);
    } else {
      last := NoMatches(NoMatchEntries(cats, NewestFirst(cats, IsNoMatch, 0)));
      assert CallOutcome(cats) == (exceptions + [last], None);
    }
  }

  /** A call is consumed exactly when some expectation matches, and then by a
      matching one. The unhandled exceptions come first and are followed by
      exactly one more report: the full match of the consuming expectation, the
      inapplicable matches when nothing matched but something was inapplicable,
      and the no-matches otherwise. */
  lemma CallOutcomeSpec(cats: seq<Category>)
    ensures var events, chosen := CallOutcome(cats).0, CallOutcome(cats).1;
            |events| >= 1
            && events[..|events| - 1] == ExceptionEvents(NewestFirst(cats, IsThrows, 0))
            && (chosen.Some? <==> exists k :: 0 <= k < |cats| && cats[k].Match?)
            && (chosen.Some? ==> 0 <= chosen.value < |cats| && cats[chosen.value].Match?
                                 && events[|events| - 1] == FullMatch(chosen.value, cats[chosen.value].report))
            && (events[|events| - 1].InapplicableMatches? <==>
                  (forall k :: 0 <= k < |cats| ==> !cats[k].Match?) && exists k :: 0 <= k < |cats| && cats[k].Inapplicable?)
            && (events[|events| - 1].NoMatches? <==>
                  forall k :: 0 <= k < |cats| ==> !cats[k].Match? && !cats[k].Inapplicable?)
  {
    var last := CallOutcomeLast(cats);
    var exceptions := ExceptionEvents(NewestFirst(cats, IsThrows, 0));
    assert (exceptions + [last])[..|exceptions|] == exceptions;
    NewestFirstEmpty(cats, IsMatch);
    NewestFirstEmpty(cats, IsInapplicable);
  }

  /** The lists `evaluate_expectations` fills: the matching, the inapplicable and
      the non-matching expectations, and the reports of throwing ones. */
  type Lists = (seq<int>, seq<int>, seq<(int, seq<bool>)>, seq<Event>)

  /** The lists after visiting the expectations from `i` on, newest first. */
  ghost function ListsFrom(cats: seq<Category>, i: int): Lists
    requires 0 <= i <= |cats|
  {
    (NewestFirst(cats, IsMatch, i), NewestFirst(cats, IsInapplicable, i),
     NoMatchEntries(cats, NewestFirst(cats, IsNoMatch, i)), ExceptionEvents(NewestFirst(cats, IsThrows, i)))
  }

  /** One step of `evaluate_expectations`: files expectation `i`, whose category
      is `category`, into the list its category names. */
  function Record(ghost cats: seq<Category>, i: int, category: Category, lists: Lists): (r: Lists)
    requires 0 <= i < |cats| && cats[i] == category
    requires lists == ListsFrom(cats, i + 1)
    ensures r == ListsFrom(cats, i)
  {
    RecordStep(cats, i);
    var (matches, inapplicable, noMatches, events) := lists;
    match category
    case Throws => (matches, inapplicable, noMatches, events + [UnhandledException(i)])
    case NoMatch(outcomes) => (matches, inapplicable, noMatches + [(i, outcomes)], events)
    case Inapplicable => (matches, inapplicable + [i], noMatches, events)
    case Match(_) => (matches + [i], inapplicable, noMatches, events)
  }

  /** Expectation `i` joins the list its category names and no other. */
  lemma RecordStep(cats: seq<Category>, i: int)
    requires 0 <= i < |cats|
    ensures NewestFirst(cats, IsMatch, i)
            == if cats[i].Match? then NewestFirst(cats, IsMatch, i + 1) + [i] else NewestFirst(cats, IsMatch, i + 1)
    ensures NewestFirst(cats, IsInapplicable, i)
            == if cats[i].Inapplicable? then NewestFirst(cats, IsInapplicable, i + 1) + [i]
               else NewestFirst(cats, IsInapplicable, i + 1)
    ensures NoMatchEntries(cats, NewestFirst(cats, IsNoMatch, i))
            == if cats[i].NoMatch? then NoMatchEntries(cats, NewestFirst(cats, IsNoMatch, i + 1)) + [(i, cats[i].outcomes)]
               else NoMatchEntries(cats, NewestFirst(cats, IsNoMatch, i + 1))
    ensures ExceptionEvents(NewestFirst(cats, IsThrows, i))
            == if cats[i].Throws? then ExceptionEvents(NewestFirst(cats, IsThrows, i + 1)) + [UnhandledException(i)]
               else ExceptionEvents(NewestFirst(cats, IsThrows, i + 1))
  {
    NewestFirstStep(cats, IsMatch, i);
    NewestFirstStep(cats, IsInapplicable, i);
    NewestFirstStep(cats, IsNoMatch, i);
    NewestFirstStep(cats, IsThrows, i);
    if cats[i].Throws? {
      var before := NewestFirst(cats, IsThrows, i + 1);
      assert (before + [i])[..|before|] == before;
    } else if cats[i].NoMatch? {
      var before := NewestFirst(cats, IsNoMatch, i + 1);
      assert (before + [i])[..|before|] == before;
    }
  }

  /** The expectation's state lies in `repr`. */
  ghost predicate Held(e: BasicExpectation, repr: set<object>)
  {
    e in repr && e.control in repr
    && forall j :: 0 <= j < |e.control.sequences| ==> e.control.sequences[j] in repr
  }

  /** The match count and the policies of every expectation. */
  ghost function ProgressOf(es: seq<BasicExpectation>, repr: set<object>): (r: seq<(int, seq<Policy>)>)
    reads repr
    requires forall k :: 0 <= k < |es| ==> Held(es[k], repr)
    ensures |r| == |es|
  {
    if es == [] then []
    else
      assert Held(es[0], repr);
      [(es[0].control.count, es[0].policies)] + ProgressOf(es[1..], repr)
  }

  lemma {:induction false} ProgressAt(es: seq<BasicExpectation>, repr: set<object>, k: int)
    requires forall j :: 0 <= j < |es| ==> Held(es[j], repr)
    requires 0 <= k < |es|
    ensures ProgressOf(es, repr)[k] == (es[k].control.count, es[k].policies)
  {
    if k > 0 {
      ProgressAt(es[1..], repr, k - 1);
    }
  }

  /** The progress of the expectation that consumed `call`. */
  function Advanced(p: (int, seq<Policy>), call: Call): (int, seq<Policy>)
  {
    (p.0 + 1, ConsumedBy(p.1, call))
  }

  /** Two expectations with their own times policies owning distinct sequence
      entries. */
  ghost predicate Separate(x: BasicExpectation, y: BasicExpectation)
  {
    x != y && x.control != y.control && x.control.Owned() !! y.control.Owned()
  }

  /** Dropping one expectation keeps the others held, valid and separate. */
  lemma DropKeepsValid(es: seq<BasicExpectation>, repr: set<object>, i: int)
    requires 0 <= i < |es|
    requires forall k :: 0 <= k < |es| ==> Held(es[k], repr) && es[k].Valid()
    requires forall a, b :: 0 <= a < b < |es| ==> Separate(es[a], es[b])
    ensures var r := es[..i] + es[i + 1..];
            (forall k :: 0 <= k < |r| ==> Held(r[k], repr) && r[k].Valid())
            && forall a, b :: 0 <= a < b < |r| ==> Separate(r[a], r[b])
  {
    var r := es[..i] + es[i + 1..];
    forall k | 0 <= k < |r|
      ensures r[k] == es[if k < i then k else k + 1]
    {
    }
    forall a, b | 0 <= a < b < |r|
      ensures Separate(r[a], r[b])
    {
      assert Separate(es[if a < i then a else a + 1], es[if b < i then b else b + 1]);
    }
  }

  /** `ExpectationCollection`: the expectations of one mock, oldest first. */
  class ExpectationCollection {
    var expectations: seq<BasicExpectation>
    ghost var Repr: set<object>

    /** Distinct expectations with their own times policies, owning distinct
        sequence entries. */
    ghost predicate Valid()
      reads this, Repr
    {
      this !in Repr
      && (forall k :: 0 <= k < |expectations| ==> Held(expectations[k], Repr) && expectations[k].Valid())
      && forall i, j :: 0 <= i < j < |expectations| ==> Separate(expectations[i], expectations[j])
    }

    /** The match count and the policies of every expectation, oldest first. */
    ghost function Progress(): seq<(int, seq<Policy>)>
      reads this, Repr
      requires Valid()
    {
      ProgressOf(expectations, Repr)
    }

    constructor ()
      ensures Valid() && expectations == []
    {
      expectations := [];
      Repr := {};
    }

    /** An expectation that may join the collection: valid, with its own times
        policy and sequence entries. */
    ghost predicate Fits(e: BasicExpectation)
      reads this, Repr, e, e.control, e.control.sequences
    {
      e.Valid() && forall i :: 0 <= i < |expectations| ==> Separate(expectations[i], e)
    }

    /** `push`: appends an expectation that does not belong to the collection yet. */
    method Push(e: BasicExpectation)
      requires Valid() && Fits(e)
      modifies this
      ensures Valid()
      ensures expectations == old(expectations) + [e]
    {
      expectations := expectations + [e];
      Repr := Repr + {e, e.control} + set j | 0 <= j < |e.control.sequences| :: e.control.sequences[j];
    }

    /** `remove`: erases the expectation and reports it when it is not satisfied. */
    method Remove(e: BasicExpectation) returns (report: Option<Event>)
      requires Valid() && e in expectations
      modifies this
      ensures Valid()
      ensures exists i :: 0 <= i < |old(expectations)| && old(expectations)[i] == e
                          && expectations == old(expectations)[..i] + old(expectations)[i + 1..]
      ensures e !in expectations
      ensures report.Some? <==> !e.IsSatisfied()
      ensures report.Some? ==> report.value == UnfulfilledExpectation(e.Report())
    {
      var i := IndexOf(e);
      DropKeepsValid(expectations, Repr, i);
      expectations := expectations[..i] + expectations[i + 1..];
      if !e.IsSatisfied() {
        report := Some(UnfulfilledExpectation(e.Report()));
      } else {
        report := None;
      }
    }

    /** The position of an expectation of the collection. */
    method IndexOf(e: BasicExpectation) returns (i: int)
      requires e in expectations
      ensures 0 <= i < |expectations| && expectations[i] == e
    {
      i := 0;
      while expectations[i] != e
        invariant 0 <= i < |expectations| && e in expectations[i..]
        decreases |expectations| - i
      {
        i := i + 1;
      }
    }

    /** `evaluate_expectations`: visits the expectations newest first and lists the
        matching, the inapplicable and the non-matching ones; a throwing expectation
        is reported and listed nowhere. Every match is applicable. */
    method EvaluateExpectations(call: Call)
      returns (matches: seq<int>, inapplicable: seq<int>, noMatches: seq<(int, seq<bool>)>, events: seq<Event>)
      requires Valid()
      ensures Valid()
      ensures (matches, inapplicable, noMatches, events) == ListsFrom(old(Categories(expectations, call, Repr)), 0)
      ensures Categories(expectations, call, Repr) == old(Categories(expectations, call, Repr))
    {
      ghost var cats := Categories(expectations, call, Repr);
      var lists: Lists := ([], [], [], []);
      var i := |expectations|;
      while i > 0
        invariant 0 <= i <= |expectations|
        invariant lists == ListsFrom(cats, i)
      {
        i := i - 1;
        var category := Categorize(expectations[i], call);
        CategoriesAt(expectations, call, Repr, i);
        lists := Record(cats, i, category, lists);
      }
      matches, inapplicable, noMatches, events := lists.0, lists.1, lists.2, lists.3;
    }

    /** `gather_expectation_reports`: the reports of the listed expectations. */
    function GatherReports(idxs: seq<int>): (r: seq<ExpectationReport>)
      reads this, Repr
      requires Valid()
      requires forall k :: 0 <= k < |idxs| ==> 0 <= idxs[k] < |expectations|
      ensures |r| == |idxs|
      ensures forall k :: 0 <= k < |idxs| ==> r[k] == expectations[idxs[k]].Report()
    {
      if idxs == [] then []
      else
        assert Held(expectations[idxs[0]], Repr);
        [expectations[idxs[0]].Report()] + GatherReports(idxs[1..])
    }

    /** Forwards the call to the chosen expectation's `consume`; every other
        expectation keeps its count and policies, and the collection stays valid. */
    method ConsumeAt(idx: int, call: Call)
      requires Valid() && 0 <= idx < |expectations|
      requires expectations[idx].control.IsApplicable()
      modifies Repr
      ensures Valid()
      ensures expectations[idx].control.count == old(expectations[idx].control.count) + 1
      ensures expectations[idx].policies == ConsumedBy(old(expectations[idx].policies), call)
      ensures forall k :: 0 <= k < |expectations| && k != idx ==>
                expectations[k].control.count == old(expectations[k].control.count)
                && expectations[k].policies == old(expectations[k].policies)
    {
      var e := expectations[idx];
      assert Held(e, Repr);
      e.Consume(call);
      // Another expectation's entries lie in sequences `e` either leaves alone or
      // writes only at the entries `e` owns.
      var c := e.control;
      forall j | 0 <= j < |expectations| && j != idx
        ensures expectations[j].Valid()
      {
        var d := expectations[j].control;
        assert Separate(e, expectations[j]) by {
          if j < idx { assert Separate(expectations[j], e); }
        }
        assert old(d.Valid());
        forall k | 0 <= k < |d.sequences|
          ensures d.sequences[k].Valid() && d.sequences[k].IsValidId(d.ids[k])
                  && d.sequences[k].entries[d.ids[k]] == ExpectedState(d.min, d.max, d.count)
        {
          var s := d.sequences[k];
          assert (s, d.ids[k]) in d.Owned();
          if s in c.sequences {
            var m :| 0 <= m < |c.sequences| && c.sequences[m] == s;
            assert (s, c.ids[m]) in c.Owned();
          }
        }
      }
      assert forall j :: 0 <= j < |expectations| ==> expectations[j].Valid();
    }

    /** The matches, listed newest first, are matching expectations; their
        reports are the ones their categories carry, and they are applicable. */
    lemma MatchReportsSpec(call: Call, cats: seq<Category>, matches: seq<int>)
      requires Valid() && cats == Categories(expectations, call, Repr)
      requires matches == NewestFirst(cats, IsMatch, 0)
      ensures forall k :: 0 <= k < |matches| ==> 0 <= matches[k] < |expectations| && cats[matches[k]].Match?
      ensures GatherReports(matches) == MatchReports(cats, matches)
      ensures forall k :: 0 <= k < |matches| ==> MatchReports(cats, matches)[k].controlReport.StateApplicable?
    {
      GatheredMatchReports(call, cats, matches);
    }

    lemma GatheredMatchReports(call: Call, cats: seq<Category>, matches: seq<int>)
      requires Valid() && cats == Categories(expectations, call, Repr)
      requires forall k :: 0 <= k < |matches| ==> 0 <= matches[k] < |expectations| && cats[matches[k]].Match?
      ensures GatherReports(matches) == MatchReports(cats, matches)
      ensures forall k :: 0 <= k < |matches| ==> MatchReports(cats, matches)[k].controlReport.StateApplicable?
    {
      var gathered := GatherReports(matches);
      var reports := MatchReports(cats, matches);
      forall k | 0 <= k < |matches|
        ensures gathered[k] == reports[k] && reports[k].controlReport.StateApplicable?
      {
        MatchReportAt(call, cats, matches[k]);
      }
    }

    /** The report a match carries is its expectation's report, and applicable. */
    lemma MatchReportAt(call: Call, cats: seq<Category>, m: int)
      requires Valid() && cats == Categories(expectations, call, Repr)
      requires 0 <= m < |expectations| && cats[m].Match?
      ensures cats[m].report == expectations[m].Report() && cats[m].report.controlReport.StateApplicable?
    {
      CategoriesAt(expectations, call, Repr, m);
      CategorizeSpec(expectations[m], call);
    }

    /** A matching expectation is applicable. */
    lemma MatchApplicable(call: Call, cats: seq<Category>, m: int)
      requires Valid() && cats == Categories(expectations, call, Repr)
      requires 0 <= m < |expectations| && cats[m].Match?
      ensures expectations[m].control.IsApplicable()
    {
      CategoriesAt(expectations, call, Repr, m);
      CategorizeSpec(expectations[m], call);
    }

    /** `consume` on the chosen expectation, stated on the progress of the whole
        collection: only the chosen expectation advances. */
    method Advance(idx: int, call: Call)
      requires Valid() && 0 <= idx < |expectations|
      requires expectations[idx].control.IsApplicable()
      modifies Repr
      ensures Valid() && |expectations| == |old(expectations)|
      ensures Progress() == old(Progress())[idx := Advanced(old(Progress())[idx], call)]
    {
      ghost var before := Progress();
      forall k | 0 <= k < |expectations|
        ensures before[k] == (expectations[k].control.count, expectations[k].policies)
      {
        ProgressAt(expectations, Repr, k);
      }
      ConsumeAt(idx, call);
      forall k | 0 <= k < |expectations|
        ensures Progress()[k] == before[idx := Advanced(before[idx], call)][k]
      {
        ProgressAt(expectations, Repr, k);
      }
    }

    /** The best of the matches, listed newest first: `gather_expectation_reports`
        followed by `find_best_match`. */
    method SelectBest(ghost cats: seq<Category>, matches: seq<int>, call: Call)
      returns (best: int, report: ExpectationReport)
      requires Valid() && cats == Categories(expectations, call, Repr)
      requires matches == NewestFirst(cats, IsMatch, 0) && matches != []
      ensures Valid()
      ensures best == matches[BestMatch(ReportRatings(MatchReports(cats, matches)))]
      ensures 0 <= best < |expectations| && report == cats[best].report
      ensures expectations[best].control.IsApplicable()
    {
      MatchReportsSpec(call, cats, matches);
      var reports := GatherReports(matches);
      var b := FindBestMatch(reports);
      best, report := matches[b], reports[b];
      MatchApplicable(call, cats, best);
    }

    /** The matched branch of `handle_call`: the best of the matches, listed newest
        first, is chosen by `find_best_match` over their reports and consumes the
        call. */
    method HandleMatch(ghost cats: seq<Category>, matches: seq<int>, call: Call)
      returns (best: int, report: ExpectationReport)
      requires Valid() && cats == Categories(expectations, call, Repr)
      requires matches == NewestFirst(cats, IsMatch, 0) && matches != []
      modifies Repr
      ensures Valid()
      ensures best == matches[BestMatch(ReportRatings(MatchReports(cats, matches)))]
      ensures 0 <= best < |expectations| && report == cats[best].report
      ensures |expectations| == |old(expectations)|
      ensures Progress() == old(Progress())[best := Advanced(old(Progress())[best], call)]
    {
      best, report := SelectBest(cats, matches, call);
      Advance(best, call);
    }

    /** `handle_call`: with matches, the best one is reported as a full match and
        consumes the call (its index is returned); otherwise the inapplicable
        matches are reported if there are any, else the non-matching expectations.
        Both of these reports end the call, so only one of them is emitted. */
    method HandleCall(call: Call) returns (events: seq<Event>, chosen: Option<int>)
      requires Valid()
      modifies Repr
      ensures Valid()
      ensures (events, chosen) == CallOutcome(old(Categories(expectations, call, Repr)))
      ensures chosen.Some? ==>
                0 <= chosen.value < |old(expectations)|
                && Progress() == old(Progress())[chosen.value := Advanced(old(Progress())[chosen.value], call)]
      ensures chosen.None? ==> Progress() == old(Progress())
    {
      ghost var cats := Categories(expectations, call, Repr);
      var matches, inapplicable, noMatches;
      matches, inapplicable, noMatches, events := EvaluateExpectations(call);
      if matches != [] {
        var idx, report := HandleMatch(cats, matches, call);
        events := events + [FullMatch(idx, report)];
        chosen := Some(idx);
      } else if inapplicable != [] {
        events := events + [InapplicableMatches(inapplicable)];
        chosen := None;
      } else {
        events := events + [NoMatches(noMatches)];
        chosen := None;
      }
    }
  }
}
