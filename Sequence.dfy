/** Sequences: ordered lists of expectation slots with a monotone cursor, the two
    priority strategies, the rating comparison used to pick between matches, and the
    sequence configuration attached to an expectation. */
module Sequence {
  import opened Wrappers
  import Text

  /** `std::numeric_limits<int>::max()` for the 32-bit `int` underlying `sequence::Id`. */
  const INT_MAX: int := 0x7fff_ffff

  const SequenceFullMessage: string := "Sequence already holds maximum amount of elements."
  const DuplicateSequenceMessage: string := "Expectations can not be assigned to the same sequence multiple times."

  /** The state of one sequence entry. */
  datatype State = Unsatisfied | Satisfied | Saturated

  /** An entry is fulfilled once its expectation reached its minimum. */
  predicate IsFulfilled(s: State)
  {
    s == Satisfied || s == Saturated
  }

  /** An entry is active while its expectation may still be matched. */
  predicate IsActive(s: State)
  {
    s == Unsatisfied || s == Satisfied
  }

  /** The two built-in priority strategies: LazySequence and GreedySequence. */
  datatype Strategy = Lazy | Greedy

  /** The priority a strategy gives to consuming entry `id` while the cursor is at
      `cursor`: lazy prefers the least progress, greedy the most. */
  function Priority(strategy: Strategy, id: int, cursor: int): int
    requires 0 <= cursor <= id <= INT_MAX
  {
    match strategy
    case Lazy => INT_MAX - (id - cursor)
    case Greedy => id - cursor
  }

  /** Both strategies stay within `int`; lazy ranks closer entries higher, greedy ranks
      farther entries higher, and the two are mirror images of each other. */
  lemma PriorityOrder(cursor: int, a: int, b: int)
    requires 0 <= cursor <= a <= INT_MAX && cursor <= b <= INT_MAX
    ensures 0 <= Priority(Lazy, a, cursor) <= INT_MAX && 0 <= Priority(Greedy, a, cursor) <= INT_MAX
    ensures Priority(Lazy, a, cursor) > Priority(Lazy, b, cursor) <==> a < b
    ensures Priority(Greedy, a, cursor) > Priority(Greedy, b, cursor) <==> a > b
    ensures Priority(Lazy, a, cursor) + Priority(Greedy, a, cursor) == INT_MAX
  {
  }

  /** Whether every state in `s` is fulfilled (`std::ranges::all_of`). */
  function AllFulfilled(s: seq<State>): (r: bool)
    ensures r <==> forall k :: 0 <= k < |s| ==> IsFulfilled(s[k])
  {
    if s == [] then true else IsFulfilled(s[0]) && AllFulfilled(s[1..])
  }

  /** `is_consumable`: the entry lies at or after the cursor, everything between the
      cursor and the entry is fulfilled, and the entry itself is still active. */
  function Consumable(entries: seq<State>, cursor: int, id: int): (r: bool)
    requires 0 <= cursor <= |entries|
    requires 0 <= id < |entries|
    ensures r <==> cursor <= id
                   && (forall k :: cursor <= k < id ==> IsFulfilled(entries[k]))
                   && IsActive(entries[id])
  {
    var pending := entries[cursor..];
    var index := id - cursor;
    0 <= index && AllFulfilled(pending[..index]) && IsActive(pending[index])
  }

  /** The length of the fulfilled prefix (`find_if_not(entries, is_fulfilled)`). */
  function FulfilledPrefix(s: seq<State>): (n: nat)
    ensures n <= |s|
    ensures forall k :: 0 <= k < n ==> IsFulfilled(s[k])
    ensures n < |s| ==> !IsFulfilled(s[n])
  {
    if s == [] || !IsFulfilled(s[0]) then 0 else 1 + FulfilledPrefix(s[1..])
  }

  /** The text of the destructor's report. */
  function UnfulfilledMessage(satisfiedCount: nat, total: nat): string
  {
    "Unfulfilled sequence. " + Text.NatToString(satisfiedCount) + " out of "
    + Text.NatToString(total) + " expectation(s) are satisfied."
  }

  /** The report the destructor emits: none when every entry is fulfilled, otherwise
      the length of the fulfilled prefix out of the number of entries. The cursor
      never lies beyond that prefix. */
  function DestructionReport(entries: seq<State>, cursor: int): (r: Option<string>)
    requires 0 <= cursor <= |entries|
    requires forall k :: 0 <= k < cursor ==> IsFulfilled(entries[k])
    ensures r.None? <==> forall k :: 0 <= k < |entries| ==> IsFulfilled(entries[k])
    ensures r.Some? ==>
              exists k: nat :: cursor <= k < |entries| && !IsFulfilled(entries[k])
                && (forall j :: 0 <= j < k ==> IsFulfilled(entries[j]))
                && r.value == UnfulfilledMessage(k, |entries|)
  {
    var satisfiedCount := FulfilledPrefix(entries);
    if satisfiedCount < |entries| then
      Some(UnfulfilledMessage(satisfiedCount, |entries|))
    else
      None
  }

  /** A sequence shared by all expectations attached to it. `tag` stands for the
      object's address, which identifies the sequence in ratings and configurations. */
  class BasicSequence {
    const strategy: Strategy
    const tag: int
    var entries: seq<State>
    var cursor: int

    /** The cursor stays within the entries and never passes an unfulfilled entry;
        ids fit the `int` underlying `sequence::Id`. */
    ghost predicate Valid()
      reads this
    {
      0 <= cursor <= |entries| <= INT_MAX + 1
      && forall k :: 0 <= k < cursor ==> IsFulfilled(entries[k])
    }

    constructor (strategy: Strategy, tag: int)
      ensures Valid()
      ensures this.strategy == strategy && this.tag == tag
      ensures entries == [] && cursor == 0
    {
      this.strategy := strategy;
      this.tag := tag;
      entries := [];
      cursor := 0;
    }

    /** `is_valid`: the id names an existing entry. */
    predicate IsValidId(id: int)
      reads this
    {
      0 <= id < |entries|
    }

    predicate IsConsumable(id: int)
      reads this
      requires Valid() && IsValidId(id)
    {
      Consumable(entries, cursor, id)
    }

    /** `priority_of`: the strategy's priority when the entry is consumable. */
    function PriorityOf(id: int): (r: Option<int>)
      reads this
      requires Valid() && IsValidId(id)
      ensures r.Some? <==> IsConsumable(id)
      ensures r.Some? ==> 0 <= r.value <= INT_MAX && r.value == Priority(strategy, id, cursor)
    {
      if IsConsumable(id) then
        PriorityOrder(cursor, id, id);
        Some(Priority(strategy, id, cursor))
      else
        None
    }

    /** `add`: appends an unsatisfied entry and returns its id, or fails once the
        entry count no longer fits an id. */
    method Add() returns (r: Result<int, string>)
      requires Valid()
      modifies this
      ensures Valid() && cursor == old(cursor)
      ensures old(|entries|) <= INT_MAX ==>
                r == Success(old(|entries|)) && entries == old(entries) + [Unsatisfied]
      ensures old(|entries|) > INT_MAX ==>
                r == Failure(SequenceFullMessage) && entries == old(entries)
    {
      if |entries| > INT_MAX {
        return Failure(SequenceFullMessage);
      }
      entries := entries + [Unsatisfied];
      r := Success(|entries| - 1);
    }

    /** `set_satisfied`: only an unsatisfied entry at or after the cursor changes, and
        only that entry. */
    method SetSatisfied(id: int)
      requires Valid() && IsValidId(id)
      requires cursor <= id && entries[id] == Unsatisfied
      modifies this
      ensures Valid()
      ensures entries == old(entries)[id := Satisfied] && cursor == old(cursor)
    {
      entries := entries[id := Satisfied];
    }

    /** `set_saturated`: only an active entry at or after the cursor changes, and only
        that entry. */
    method SetSaturated(id: int)
      requires Valid() && IsValidId(id)
      requires cursor <= id && IsActive(entries[id])
      modifies this
      ensures Valid()
      ensures entries == old(entries)[id := Saturated] && cursor == old(cursor)
    {
      entries := entries[id := Saturated];
    }

    /** `consume`: moves the cursor onto a consumable entry; the cursor only moves
        forward and only across fulfilled entries. */
    method Consume(id: int)
      requires Valid() && IsValidId(id) && IsConsumable(id)
      modifies this
      ensures Valid()
      ensures cursor == id && old(cursor) <= cursor && entries == old(entries)
      ensures forall k :: old(cursor) <= k < cursor ==> IsFulfilled(entries[k])
    {
      cursor := id;
    }

    /** The report of the destructor; the cursor never exceeds the fulfilled prefix. */
    function Report(): (r: Option<string>)
      reads this
      requires Valid()
      ensures cursor <= FulfilledPrefix(entries)
      ensures r == DestructionReport(entries, cursor)
    {
      DestructionReport(entries, cursor)
    }
  }

  /** A sequence's rating of a match: its priority and the sequence's tag. */
  datatype Rating = Rating(priority: int, tag: int)

  /** The first rating in `rhs` carrying `tag` (`std::ranges::find` by tag). */
  function FindTag(rhs: seq<Rating>, tag: int): (r: Option<Rating>)
    ensures r.None? <==> forall k :: 0 <= k < |rhs| ==> rhs[k].tag != tag
    ensures r.Some? ==> exists k :: 0 <= k < |rhs| && rhs[k] == r.value && r.value.tag == tag
                          && forall j :: 0 <= j < k ==> rhs[j].tag != tag
  {
    if rhs == [] then None
    else if rhs[0].tag == tag then Some(rhs[0])
    else
      var r := FindTag(rhs[1..], tag);
      assert r.Some? ==> exists k :: 0 <= k < |rhs| - 1 && rhs[1..][k] == r.value && r.value.tag == tag
                          && forall j :: 0 <= j < k ==> rhs[1..][j].tag != tag;
      r
  }

  /** The vote of one lhs rating: -1 when the rhs rating of the same sequence has a
      higher priority, +1 otherwise, 0 when rhs has no rating of that sequence. */
  function Vote(l: Rating, rhs: seq<Rating>): int
  {
    match FindTag(rhs, l.tag)
    case None => 0
    case Some(r) => if l.priority < r.priority then -1 else 1
  }

  /** The accumulated votes of `lhs` against `rhs`. */
  function RatingSum(lhs: seq<Rating>, rhs: seq<Rating>): int
  {
    if lhs == [] then 0 else RatingSum(lhs[..|lhs| - 1], rhs) + Vote(lhs[|lhs| - 1], rhs)
  }

  /** `has_better_rating`, stated without the loop: lhs wins if it rates a sequence
      rhs does not, or if its votes do not sum to a negative value. */
  predicate BetterRating(lhs: seq<Rating>, rhs: seq<Rating>)
  {
    (exists k :: 0 <= k < |lhs| && FindTag(rhs, lhs[k].tag).None?) || RatingSum(lhs, rhs) >= 0
  }

  /** `has_better_rating` as the C++ loop computes it. */
  method HasBetterRating(lhs: seq<Rating>, rhs: seq<Rating>) returns (b: bool)
    ensures b == BetterRating(lhs, rhs)
  {
    var rating := 0;
    var i := 0;
    while i < |lhs|
      invariant 0 <= i <= |lhs|
      invariant forall k :: 0 <= k < i ==> FindTag(rhs, lhs[k].tag).Some?
      invariant rating == RatingSum(lhs[..i], rhs)
    {
      var found := FindTag(rhs, lhs[i].tag);
      if found.None? {
        return true;
      }
      rating := rating + if lhs[i].priority < found.value.priority then -1 else 1;
      assert lhs[..i + 1][..i] == lhs[..i];
      i := i + 1;
    }
    assert lhs[..i] == lhs;
    return 0 <= rating;
  }

  /** Ratings that name distinct sequences. */
  predicate DistinctTags(rs: seq<Rating>)
  {
    forall i, j :: 0 <= i < j < |rs| ==> rs[i].tag != rs[j].tag
  }

  /** Whether `lhs` and `rhs` rate the same sequences in the same order. */
  predicate SameTags(lhs: seq<Rating>, rhs: seq<Rating>)
  {
    |lhs| == |rhs| && forall k :: 0 <= k < |lhs| ==> lhs[k].tag == rhs[k].tag
  }

  lemma {:induction false} RatingSumPairs(lhs: seq<Rating>, rhs: seq<Rating>, n: nat)
    requires DistinctTags(lhs) && SameTags(lhs, rhs) && n <= |lhs|
    ensures RatingSum(lhs[..n], rhs) + RatingSum(rhs[..n], lhs) >= 0
  {
    if n > 0 {
      RatingSumPairs(lhs, rhs, n - 1);
      assert lhs[..n][..n - 1] == lhs[..n - 1] && rhs[..n][..n - 1] == rhs[..n - 1];
      assert DistinctTags(rhs);
      FindTagAt(rhs, n - 1);
      FindTagAt(lhs, n - 1);
    }
  }

  lemma FindTagAt(rs: seq<Rating>, n: int)
    requires DistinctTags(rs) && 0 <= n < |rs|
    ensures FindTag(rs, rs[n].tag) == Some(rs[n])
  {
    var r := FindTag(rs, rs[n].tag);
    var k :| 0 <= k < |rs| && rs[k] == r.value && r.value.tag == rs[n].tag
             && forall j :: 0 <= j < k ==> rs[j].tag != rs[n].tag;
    assert k == n;
  }

  /** Two rating lists over the same distinct sequences are always comparable: at
      least one of them has the better rating, so the choice between two matches is
      never left open. */
  lemma BetterRatingTotal(lhs: seq<Rating>, rhs: seq<Rating>)
    requires DistinctTags(lhs) && SameTags(lhs, rhs)
    ensures BetterRating(lhs, rhs) || BetterRating(rhs, lhs)
  {
    RatingSumPairs(lhs, rhs, |lhs|);
    assert lhs[..|lhs|] == lhs && rhs[..|rhs|] == rhs;
  }

  /** A single shared sequence decides by priority alone: lhs is better iff its
      priority is not lower. */
  lemma BetterRatingSingle(p: int, q: int, tag: int)
    ensures BetterRating([Rating(p, tag)], [Rating(q, tag)]) <==> p >= q
  {
    var l, r := [Rating(p, tag)], [Rating(q, tag)];
    assert l[..0] == [] && r[..0] == [];
    assert FindTag(r, tag) == Some(r[0]);
    assert FindTag(l, tag) == Some(l[0]);
    assert RatingSum(l, r) == Vote(l[0], r);
  }

  // ----- Configuration -----

  /** `std::ranges::is_sorted`. */
  predicate SortedInts(s: seq<int>)
  {
    forall i, j :: 0 <= i < j < |s| ==> s[i] <= s[j]
  }

  function InsertSorted(x: int, s: seq<int>): (r: seq<int>)
    ensures multiset(r) == multiset(s) + multiset{x}
  {
    if s == [] || x <= s[0] then [x] + s
    else
      assert s == [s[0]] + s[1..];
      [s[0]] + InsertSorted(x, s[1..])
  }

  lemma {:induction false} InsertSortedIsSorted(x: int, s: seq<int>)
    requires SortedInts(s)
    ensures SortedInts(InsertSorted(x, s))
  {
    if s != [] && x > s[0] {
      InsertSortedIsSorted(x, s[1..]);
      var r := InsertSorted(x, s[1..]);
      assert forall k :: 0 <= k < |r| ==> s[0] <= r[k] by {
        forall k | 0 <= k < |r| ensures s[0] <= r[k] {
          assert r[k] in multiset(r);
          assert r[k] in multiset(s[1..]) + multiset{x};
          if r[k] in multiset(s[1..]) {
            var j :| 0 <= j < |s[1..]| && s[1..][j] == r[k];
            assert s[j + 1] == r[k];
          }
        }
      }
    }
  }

  /** `std::ranges::sort` of the tags. */
  function SortInts(s: seq<int>): (r: seq<int>)
    ensures SortedInts(r) && multiset(r) == multiset(s)
  {
    if s == [] then []
    else
      assert s == [s[0]] + s[1..];
      InsertSortedIsSorted(s[0], SortInts(s[1..]));
      InsertSorted(s[0], SortInts(s[1..]))
  }

  /** `std::ranges::unique` leaves a non-empty tail iff two neighbours are equal. */
  predicate HasAdjacentDuplicate(s: seq<int>)
  {
    exists i :: 0 <= i < |s| - 1 && s[i] == s[i + 1]
  }

  /** No value occurs twice. */
  predicate DistinctInts(s: seq<int>)
  {
    forall i, j :: 0 <= i < j < |s| ==> s[i] != s[j]
  }

  lemma {:induction false} DistinctByMultiset(s: seq<int>)
    ensures DistinctInts(s) <==> forall x :: multiset(s)[x] <= 1
  {
    if s != [] {
      var t := s[1..];
      assert s == [s[0]] + t;
      DistinctByMultiset(t);
      if DistinctInts(s) {
        assert s[0] !in multiset(t);
        assert DistinctInts(t) by {
          forall i, j | 0 <= i < j < |t| ensures t[i] != t[j] {
            assert t[i] == s[i + 1] && t[j] == s[j + 1];
          }
        }
      } else {
        var i, j :| 0 <= i < j < |s| && s[i] == s[j];
        if i == 0 {
          assert t[j - 1] == s[0];
          assert multiset(s)[s[0]] == multiset(t)[s[0]] + 1;
        } else {
          assert t[i - 1] == t[j - 1];
          assert !DistinctInts(t);
          var x :| multiset(t)[x] > 1;
          assert multiset(s)[x] >= multiset(t)[x];
        }
      }
    }
  }

  lemma SortedDuplicateIsAdjacent(s: seq<int>)
    requires SortedInts(s)
    ensures HasAdjacentDuplicate(s) <==> !DistinctInts(s)
  {
    if !DistinctInts(s) {
      var i, j :| 0 <= i < j < |s| && s[i] == s[j];
      assert s[i] <= s[i + 1] <= s[j];
      assert s[i] == s[i + 1];
    }
  }

  /** The adjacent-duplicate test after sorting detects exactly the duplicates of the
      unsorted input. */
  lemma SortedUniqueDetectsDuplicates(s: seq<int>)
    ensures HasAdjacentDuplicate(SortInts(s)) <==> !DistinctInts(s)
  {
    var sorted := SortInts(s);
    SortedDuplicateIsAdjacent(sorted);
    DistinctByMultiset(sorted);
    DistinctByMultiset(s);
  }

  /** The tags of the given sequences, in order. */
  function Tags(seqs: seq<BasicSequence>): (r: seq<int>)
    ensures |r| == |seqs| && forall k :: 0 <= k < |seqs| ==> r[k] == seqs[k].tag
  {
    if seqs == [] then [] else [seqs[0].tag] + Tags(seqs[1..])
  }

  /** The sequences an expectation is attached to. */
  datatype Config = Config(sequences: seq<BasicSequence>)

  /** The `Config` constructor: refuses a sequence that occurs twice. */
  function MakeConfig(seqs: seq<BasicSequence>): (r: Result<Config, string>)
    ensures r.Success? <==> DistinctInts(Tags(seqs))
    ensures r.Success? ==> r.value.sequences == seqs
    ensures r.Failure? ==> r.error == DuplicateSequenceMessage
  {
    if 1 < |seqs| && HasAdjacentDuplicate(SortInts(Tags(seqs))) then
      SortedUniqueDetectsDuplicates(Tags(seqs));
      Failure(DuplicateSequenceMessage)
    else
      SortedUniqueDetectsDuplicates(Tags(seqs));
      Success(Config(seqs))
  }

  /** `Config::concat`: the other configuration's sequences follow this one's, and
      the combined list passes the duplicate check again. */
  function Concat(first: Config, second: Config): (r: Result<Config, string>)
    ensures r.Success? <==> DistinctInts(Tags(first.sequences + second.sequences))
    ensures r.Success? ==> r.value.sequences == first.sequences + second.sequences
  {
    MakeConfig(first.sequences + second.sequences)
  }
}
