/** The times policy of an expectation: how often it may be matched, and how its
    call count drives the entries it owns in its sequences. */
module ControlPolicies {
  import opened Wrappers
  import opened Sequence

  const TimesConfigMessage: string := "min must be less or equal to max and both must not be less than zero."

  /** A value of the 32-bit `int` the limits are declared with. */
  predicate IsInt(n: int)
  {
    -INT_MAX - 1 <= n <= INT_MAX
  }

  /** Inclusive lower and upper limit of the number of matches. */
  datatype TimesConfig = TimesConfig(min: int, max: int)
  {
    /** The invariant the checking constructor establishes. */
    predicate Valid()
    {
      0 <= min <= max <= INT_MAX
    }
  }

  /** The default-constructed configuration: exactly once. */
  const DefaultTimes: TimesConfig := TimesConfig(1, 1)

  /** The checking constructor `TimesConfig(min, max)`. */
  function MakeTimes(min: int, max: int): (r: Result<TimesConfig, string>)
    requires IsInt(min) && IsInt(max)
    ensures r.Success? <==> 0 <= min <= max
    ensures r.Success? ==> r.value == TimesConfig(min, max) && r.value.Valid()
    ensures r.Failure? ==> r.error == TimesConfigMessage
  {
    if min < 0 || max < 0 || max < min then
      Failure(TimesConfigMessage)
    else
      Success(TimesConfig(min, max))
  }

  /** `expect::times(min, max)`. */
  function Times(min: int, max: int): (r: Result<TimesConfig, string>)
    requires IsInt(min) && IsInt(max)
    ensures r == MakeTimes(min, max)
  {
    MakeTimes(min, max)
  }

  /** `expect::times(exactly)`. */
  function TimesExactly(exactly: int): (r: Result<TimesConfig, string>)
    requires IsInt(exactly)
    ensures r.Success? <==> 0 <= exactly
    ensures r.Success? ==> r.value.min == exactly == r.value.max
  {
    MakeTimes(exactly, exactly)
  }

  /** `expect::at_least(min)`: no upper limit besides the largest `int`. */
  function AtLeast(min: int): (r: Result<TimesConfig, string>)
    requires IsInt(min)
    ensures r.Success? <==> 0 <= min
    ensures r.Success? ==> r.value == TimesConfig(min, INT_MAX)
  {
    MakeTimes(min, INT_MAX)
  }

  /** `expect::at_most(max)`. */
  function AtMost(max: int): (r: Result<TimesConfig, string>)
    requires IsInt(max)
    ensures r.Success? <==> 0 <= max
    ensures r.Success? ==> r.value == TimesConfig(0, max)
  {
    MakeTimes(0, max)
  }

  /** The `consteval` factories `never`, `once`, `twice` and `any_times`. */
  const Never: TimesConfig := TimesConfig(0, 0)
  const Once: TimesConfig := TimesConfig(1, 1)
  const Twice: TimesConfig := TimesConfig(2, 2)
  const AnyTimes: TimesConfig := TimesConfig(0, INT_MAX)

  /** The constant factories pass the constructor's check, and `once` is the
      default. */
  lemma ConstantFactories()
    ensures MakeTimes(0, 0) == Success(Never) && MakeTimes(1, 1) == Success(Once)
    ensures MakeTimes(2, 2) == Success(Twice) && MakeTimes(0, INT_MAX) == Success(AnyTimes)
    ensures Once == DefaultTimes
  {
  }

  /** The state the policy's entries in its sequences are kept in: saturated once
      the maximum is reached, satisfied from the minimum on, unsatisfied before. */
  function ExpectedState(min: int, max: int, count: int): (s: State)
    requires 0 <= min <= max && 0 <= count <= max
    ensures IsFulfilled(s) <==> min <= count
    ensures s == Saturated <==> count == max
    ensures IsActive(s) <==> count < max
  {
    if count == max then Saturated
    else if min <= count then Satisfied
    else Unsatisfied
  }

  /** The reported state of a control policy (`reporting::control_state_t`); a
      sequence report is represented by the sequence's tag. */
  datatype ControlState =
    | StateSaturated(min: int, max: int, count: int, sequences: seq<int>)
    | StateInapplicable(min: int, max: int, count: int, sequenceRatings: seq<Rating>,
                        inapplicableSequences: seq<int>)
    | StateApplicable(min: int, max: int, count: int, sequenceRatings: seq<Rating>)

  /** `gather_sequence_reports`: in order, a rating for every sequence that gives a
      priority and a report for every other one. Each entry is the priority the
      sequence gives and the sequence's tag. */
  function GatherSequenceReports(entries: seq<(Option<int>, int)>): (r: (seq<Rating>, seq<int>))
    ensures |r.0| + |r.1| == |entries|
    ensures r.1 == [] <==> forall k :: 0 <= k < |entries| ==> entries[k].0.Some?
    ensures r.1 == [] ==> forall k :: 0 <= k < |entries| ==>
                            entries[k].0.Some? && r.0[k] == Rating(entries[k].0.value, entries[k].1)
    ensures forall t :: t in r.1 <==> exists k :: 0 <= k < |entries| && entries[k].0.None? && entries[k].1 == t
  {
    if entries == [] then ([], [])
    else
      var init := entries[..|entries| - 1];
      var last := entries[|entries| - 1];
      var r := GatherSequenceReports(init);
      assert forall k :: 0 <= k < |init| ==> init[k] == entries[k];
      match last.0
      case Some(p) => (r.0 + [Rating(p, last.1)], r.1)
      case None => (r.0, r.1 + [last.1])
  }

  /** `make_control_state`: saturated at the maximum, reporting every sequence;
      otherwise inapplicable when some sequence gives no priority, else applicable
      with the ratings. */
  function MakeControlState(min: int, max: int, count: int, entries: seq<(Option<int>, int)>): (r: ControlState)
    ensures r.min == min && r.max == max && r.count == count
    ensures r.StateSaturated? <==> count == max
    ensures r.StateSaturated? ==> r.sequences == seq(|entries|, k requires 0 <= k < |entries| => entries[k].1)
    ensures r.StateApplicable? <==> count != max && forall k :: 0 <= k < |entries| ==> entries[k].0.Some?
    ensures r.StateApplicable? ==> |r.sequenceRatings| == |entries|
                                   && forall k :: 0 <= k < |entries| ==>
                                        r.sequenceRatings[k] == Rating(entries[k].0.value, entries[k].1)
    ensures r.StateInapplicable? ==> |r.sequenceRatings| + |r.inapplicableSequences| == |entries|
    ensures r.StateInapplicable? ==> forall t :: t in r.inapplicableSequences <==>
                                       exists k :: 0 <= k < |entries| && entries[k].0.None? && entries[k].1 == t
  {
    if count == max then
      StateSaturated(min, max, count, seq(|entries|, k requires 0 <= k < |entries| => entries[k].1))
    else
      var (ratings, inapplicable) := GatherSequenceReports(entries);
      if inapplicable != [] then
        StateInapplicable(min, max, count, ratings, inapplicable)
      else
        StateApplicable(min, max, count, ratings)
  }

  /** The priorities the sequences give to their entries, paired with their tags. */
  function SequenceEntries(sequences: seq<BasicSequence>, ids: seq<int>): (r: seq<(Option<int>, int)>)
    reads sequences
    requires |sequences| == |ids|
    requires forall k :: 0 <= k < |sequences| ==> sequences[k].Valid() && sequences[k].IsValidId(ids[k])
    ensures |r| == |sequences|
    ensures forall k :: 0 <= k < |sequences| ==> r[k] == (sequences[k].PriorityOf(ids[k]), sequences[k].tag)
  {
    if sequences == [] then []
    else [(sequences[0].PriorityOf(ids[0]), sequences[0].tag)] + SequenceEntries(sequences[1..], ids[1..])
  }

  /** Setting the entry just appended replaces it. */
  lemma ReplaceLast<E>(s: seq<E>, x: E, y: E)
    ensures (s + [x])[|s| := y] == s + [y]
  {
  }

  /** `make_sequence_entries`: adds an unsatisfied entry to every sequence, in
      order, and returns the new entries' ids. */
  method AddEntries(seqs: seq<BasicSequence>) returns (newIds: seq<int>)
    requires DistinctInts(Tags(seqs))
    requires forall k :: 0 <= k < |seqs| ==> seqs[k].Valid() && |seqs[k].entries| <= INT_MAX
    modifies seqs
    ensures |newIds| == |seqs|
    ensures forall k :: 0 <= k < |seqs| ==>
              seqs[k].Valid()
              && newIds[k] == old(|seqs[k].entries|)
              && seqs[k].entries == old(seqs[k].entries) + [Unsatisfied]
              && seqs[k].cursor == old(seqs[k].cursor)
  {
    newIds := [];
    var i := 0;
    while i < |seqs|
      invariant 0 <= i <= |seqs| && |newIds| == i
      invariant forall k :: 0 <= k < |seqs| ==> seqs[k].Valid()
      invariant forall k :: 0 <= k < i ==>
                  newIds[k] == old(|seqs[k].entries|)
                  && seqs[k].entries == old(seqs[k].entries) + [Unsatisfied]
                  && seqs[k].cursor == old(seqs[k].cursor)
      invariant forall k :: i <= k < |seqs| ==>
                  seqs[k].entries == old(seqs[k].entries) && seqs[k].cursor == old(seqs[k].cursor)
    {
      assert forall k :: 0 <= k < |seqs| && k != i ==> seqs[k] != seqs[i] by {
        forall k | 0 <= k < |seqs| && k != i ensures seqs[k] != seqs[i] {
          assert Tags(seqs)[k] != Tags(seqs)[i];
        }
      }
      var id := seqs[i].Add();
      newIds := newIds + [id.value];
      i := i + 1;
    }
  }

  /** `ControlPolicy`: counts the matches of one expectation and keeps the entries
      it owns in its sequences (entry `ids[k]` of `sequences[k]`) in step with the
      count. */
  class ControlPolicy {
    const min: int
    const max: int
    var count: int
    const sequences: seq<BasicSequence>
    const ids: seq<int>

    /** The sequence entries this policy owns. */
    ghost function Owned(): set<(BasicSequence, int)>
    {
      set k | 0 <= k < |sequences| && k < |ids| :: (sequences[k], ids[k])
    }

    /** Everything but the coupling of the entries to the count. */
    ghost predicate WellFormed()
      reads this, sequences
    {
      0 <= min <= max <= INT_MAX && 0 <= count <= max
      && |sequences| == |ids|
      && DistinctInts(Tags(sequences))
      && forall k :: 0 <= k < |sequences| ==> sequences[k].Valid() && sequences[k].IsValidId(ids[k])
    }

    /** The owned entries are in the state the count calls for. */
    ghost predicate Valid()
      reads this, sequences
    {
      WellFormed()
      && forall k :: 0 <= k < |sequences| ==>
           sequences[k].entries[ids[k]] == ExpectedState(min, max, count)
    }

    /** Adds an entry to every sequence of the configuration and couples it to the
        initial count of zero. A sequence whose entry count no longer fits an `int`
        makes `Sequence::add` throw inside the `noexcept` `make_sequence_entries`,
        which terminates the program; the constructor therefore requires room for
        one more entry. */
    constructor (times: TimesConfig, config: Config)
      requires times.Valid()
      requires DistinctInts(Tags(config.sequences))
      requires forall k :: 0 <= k < |config.sequences| ==>
                 config.sequences[k].Valid() && |config.sequences[k].entries| <= INT_MAX
      modifies config.sequences
      ensures Valid()
      ensures min == times.min && max == times.max && count == 0
      ensures sequences == config.sequences
      ensures forall k :: 0 <= k < |sequences| ==>
                ids[k] == old(|config.sequences[k].entries|)
                && sequences[k].entries == old(config.sequences[k].entries) + [ExpectedState(min, max, 0)]
                && sequences[k].cursor == old(config.sequences[k].cursor)
    {
      var seqs := config.sequences;
      var newIds := AddEntries(seqs);
      min := times.min;
      max := times.max;
      count := 0;
      sequences := seqs;
      ids := newIds;
      new;
      UpdateSequenceStates();
      forall k | 0 <= k < |sequences|
        ensures sequences[k].entries == old(config.sequences[k].entries) + [ExpectedState(min, max, 0)]
      {
        ReplaceLast(old(config.sequences[k].entries), Unsatisfied, ExpectedState(min, max, 0));
      }
    }

    /** `is_satisfied`. */
    predicate IsSatisfied()
      reads this
    {
      min <= count <= max
    }

    /** `is_saturated`. */
    predicate IsSaturated()
      reads this
    {
      count == max
    }

    /** `is_applicable`: the maximum is not reached and every owned entry is
        consumable. */
    predicate IsApplicable()
      reads this, sequences
      requires WellFormed()
    {
      count < max && forall k :: 0 <= k < |sequences| ==> sequences[k].IsConsumable(ids[k])
    }

    /** `state`. */
    function State(): (r: ControlState)
      reads this, sequences
      requires WellFormed()
      ensures r.count == count
    {
      MakeControlState(min, max, count, SequenceEntries(sequences, ids))
    }

    /** The reported state is applicable exactly when the policy is applicable. */
    lemma StateApplicableIff()
      requires WellFormed()
      ensures State().StateApplicable? <==> IsApplicable()
    {
      var entries := SequenceEntries(sequences, ids);
      assert forall k :: 0 <= k < |sequences| ==>
               (entries[k].0.Some? <==> sequences[k].IsConsumable(ids[k]));
    }

    /** A policy in a valid state is satisfied exactly when its owned entries are
        fulfilled, and saturated exactly when they are saturated. */
    lemma EntriesReflectCount(k: int)
      requires Valid() && 0 <= k < |sequences|
      ensures IsFulfilled(sequences[k].entries[ids[k]]) <==> IsSatisfied()
      ensures sequences[k].entries[ids[k]] == Saturated <==> IsSaturated()
    {
    }

    /** `consume`: consumes every owned entry, counts the match and updates the
        entries; the count never exceeds the maximum. */
    method Consume()
      requires Valid() && IsApplicable()
      modifies this, sequences
      ensures Valid()
      ensures count == old(count) + 1 && count <= max
      ensures forall k :: 0 <= k < |sequences| ==>
                sequences[k].cursor == ids[k]
                && sequences[k].entries == old(sequences[k].entries)[ids[k] := ExpectedState(min, max, count)]
    {
      var i := 0;
      while i < |sequences|
        invariant 0 <= i <= |sequences| && count == old(count)
        invariant forall k :: 0 <= k < |sequences| ==>
                    sequences[k].Valid() && sequences[k].entries == old(sequences[k].entries)
        invariant forall k :: 0 <= k < i ==> sequences[k].cursor == ids[k]
        invariant forall k :: i <= k < |sequences| ==>
                    sequences[k].cursor == old(sequences[k].cursor) && sequences[k].IsConsumable(ids[k])
      {
        assert forall k :: 0 <= k < |sequences| && k != i ==> sequences[k] != sequences[i] by {
          forall k | 0 <= k < |sequences| && k != i ensures sequences[k] != sequences[i] {
            assert Tags(sequences)[k] != Tags(sequences)[i];
          }
        }
        sequences[i].Consume(ids[i]);
        i := i + 1;
      }
      count := count + 1;
      UpdateSequenceStates();
    }

    /** `update_sequence_states`: saturates the owned entries at the maximum and
        satisfies them at the minimum; otherwise nothing changes. */
    method UpdateSequenceStates()
      requires WellFormed()
      requires forall k :: 0 <= k < |sequences| ==>
                 sequences[k].cursor <= ids[k] && IsActive(sequences[k].entries[ids[k]])
                 && (count == min && count != max ==> sequences[k].entries[ids[k]] == Unsatisfied)
                 && (count != min && count != max ==> sequences[k].entries[ids[k]] == ExpectedState(min, max, count))
      modifies sequences
      ensures Valid()
      ensures forall k :: 0 <= k < |sequences| ==>
                sequences[k].cursor == old(sequences[k].cursor)
                && sequences[k].entries == old(sequences[k].entries)[ids[k] := ExpectedState(min, max, count)]
    {
      var i := 0;
      while i < |sequences|
        invariant 0 <= i <= |sequences|
        invariant forall k :: 0 <= k < |sequences| ==>
                    sequences[k].Valid() && sequences[k].cursor == old(sequences[k].cursor)
        invariant forall k :: 0 <= k < i ==>
                    sequences[k].entries == old(sequences[k].entries)[ids[k] := ExpectedState(min, max, count)]
        invariant forall k :: i <= k < |sequences| ==> sequences[k].entries == old(sequences[k].entries)
      {
        assert forall k :: 0 <= k < |sequences| && k != i ==> sequences[k] != sequences[i] by {
          forall k | 0 <= k < |sequences| && k != i ensures sequences[k] != sequences[i] {
            assert Tags(sequences)[k] != Tags(sequences)[i];
          }
        }
        if count == max {
          sequences[i].SetSaturated(ids[i]);
        } else if count == min {
          sequences[i].SetSatisfied(ids[i]);
        }
        i := i + 1;
      }
    }
  }
}
