# mimic++ core, modelled in Dafny

mimic++ is a C++20 mocking framework. This project models the parts of its headers that carry logic, and proves properties of them:

- **Expectation matching.** A `BasicSequence` is an ordered list of entries with a cursor that only moves forward. The Lazy and Greedy strategies rate its entries, and `has_better_rating` compares ratings. A `ControlPolicy` counts calls against `min`/`max` and keeps its sequence entries in step with the count. An `ExpectationCollection` sorts the expectations, newest first, into no-match, inapplicable and match, and consumes the best match. The stateful parts are Dafny classes (`Sequence.BasicSequence`, `ControlPolicies.ControlPolicy`, `Expectation.BasicExpectation`, `Expectation.ExpectationCollection`). Their methods are proved against specification functions.
- **Reports.** `partition_requirement_descriptions` is a two-array in-place partition over `array`s. The `stringify_*` writers are loops appending to an output string.
- **Signature algebra.** A signature is a record of return type, parameters, ellipsis, const, ref-qualifier, `noexcept` and call convention. The type traits, the call-convention traits and the `Facade` spec-string parser are functions over it. They take as a parameter which registered call convention, if any, is the platform default (`is_default_call_convention`): that convention's tag is then selected for every signature with the default convention, and, since its traits cover only the twelve non-variadic forms, the signature traits are then undefined on variadic signatures.
- **Matchers.** These are `PredicateMatcher` with its inversion, the wildcard and comparison matchers, the string matchers with ASCII case folding, the range matchers, and the argument-requirement describers.
- **Type names.** This covers the lexer (`NameLexer`) for demangled names and both shift-reduce parsers over it: the spec-normalising `NameParser` and the token-stack `NameParser` of `NamerParser2.hpp`. It also covers the token-stack reductions of `NameParserReductions.hpp`, the tokens' visitor walks, and the two `print_type` printers.
- **Utilities.** These are `partition_by`, `find_closing_token`, `find_next_unwrapped_token`, `prefix_range`, `binary_find`, `contains` and `concat_arrays`.

Each header has one module: `Sequence`, `ControlPolicies`, `Expectation`, `StringifyReports`, `TypeTraits`, `CallConvention`, `Facade`, `GeneralMatchers`, `StringMatchers`, `RangeMatchers`, `ArgRequirementPolicies`, `Lexing`, `NameParsing`, `ParserTokens`, `ParserReductions`, `Parser2`, `PrintTypes`, `TypePrinting` and `Algorithm`. `Wrappers`, `Text` and `Signatures` hold the shared datatypes and string helpers.

Where the source calls `MIMICPP_ASSERT` on its own internal state, the model makes that a `requires`. Where the source throws, or asserts on text the user supplies, the model returns an error value (`Result`/`Option`); the one throw that terminates the program instead is listed under "Left out". Reporter calls are recorded as events in a log rather than performed.

The range matchers are cited from `include/mimic++/matchers/RangeMatchers.hpp`. Lines 840-1011 of `include/mimic++/Matcher.hpp` hold the same matchers, differing only in building the stored tuple with `std::tuple{…}` instead of `std::make_tuple(…)`, so the model covers both copies.

The model follows the code where the code and its documentation differ:
- `Identifier::is_reserved` and `Type::specs()`, which `NameParserReductions.hpp` calls, are not declared in `NameParserTokens.hpp`. The model takes a reserved identifier to be one starting with `__`, and reads a type's specs off the type.
- In `NamerParser2.hpp`, `Layer::merge` is modelled as its release build behaves: it ORs the flags.

## Model

| member | source | states |
|---|---|---|
| Sequence.PriorityOrder | include/mimic++/Sequence.hpp:255-280 | the lazy priority `INT_MAX - (id - cursor)` and the greedy priority `id - cursor` stay within `int`; lazy ranks nearer entries higher, greedy farther ones, and the two always sum to `INT_MAX` |
| Sequence.AllFulfilled | include/mimic++/Sequence.hpp:175 | true exactly when every state of the range is satisfied or saturated |
| Sequence.Consumable | include/mimic++/Sequence.hpp:166-177 | an entry is consumable iff it lies at or after the cursor, every entry from the cursor up to it is fulfilled, and it is itself unsatisfied or satisfied |
| Sequence.FulfilledPrefix | include/mimic++/Sequence.hpp:106-107 | the position of the first unfulfilled entry: all entries before it are fulfilled and the one at it is not |
| Sequence.DestructionReport | include/mimic++/Sequence.hpp:104-118 | no report iff every entry is fulfilled; otherwise "Unfulfilled sequence. k out of n expectation(s) are satisfied." with k the first unfulfilled position, which lies at or after the cursor |
| Sequence.BasicSequence.constructor | include/mimic++/Sequence.hpp:120-124 | a new sequence has no entries and its cursor at 0 |
| Sequence.BasicSequence.PriorityOf | include/mimic++/Sequence.hpp:132-143 | a priority exists iff the entry is consumable, and it is the strategy's value for the entry and the cursor, within `[0, INT_MAX]` |
| Sequence.BasicSequence.Add | include/mimic++/Sequence.hpp:186-198 | while the entry count fits an `int` id, appends one unsatisfied entry and returns the old count as its id; otherwise fails with "Sequence already holds maximum amount of elements." and changes nothing |
| Sequence.BasicSequence.SetSatisfied | include/mimic++/Sequence.hpp:145-153 | an unsatisfied entry at or after the cursor becomes satisfied; no other entry and not the cursor change |
| Sequence.BasicSequence.SetSaturated | include/mimic++/Sequence.hpp:155-164 | an active entry at or after the cursor becomes saturated; no other entry and not the cursor change |
| Sequence.BasicSequence.Consume | include/mimic++/Sequence.hpp:179-184 | the cursor moves onto the consumed entry: never backwards and only across fulfilled entries; the entries are unchanged |
| Sequence.BasicSequence.Report | include/mimic++/Sequence.hpp:104-118 | the cursor never lies beyond the fulfilled prefix (the destructor's assertion holds in every reachable state) and the report is `DestructionReport` |
| Sequence.FindTag | include/mimic++/Sequence.hpp:466-467 | the first rating carrying the tag, or none iff no rating carries it |
| Sequence.HasBetterRating | include/mimic++/Sequence.hpp:458-478 | the loop returns true on a lhs tag missing from rhs, else whether the sum of -1 (lower priority) / +1 (otherwise) over shared tags is non-negative; an empty lhs is better |
| Sequence.BetterRatingTotal | include/mimic++/Sequence.hpp:458-478 | for two rating lists over the same distinct sequences, at least one of them is the better one |
| Sequence.BetterRatingSingle | include/mimic++/Sequence.hpp:458-478 | with one shared sequence, lhs is better iff its priority is not lower |
| Sequence.SortInts | include/mimic++/Sequence.hpp:366 | the tags sorted: a sorted permutation of the input |
| Sequence.SortedUniqueDetectsDuplicates | include/mimic++/Sequence.hpp:364-372 | after sorting, an adjacent duplicate exists iff the unsorted tags hold a duplicate |
| Sequence.Tags | include/mimic++/Sequence.hpp:364 | the tags of the sequences, in order |
| Sequence.MakeConfig | include/mimic++/Sequence.hpp:355-375 | a configuration is made iff no sequence occurs twice, and then holds the sequences in order; otherwise fails with the invalid-argument message |
| Sequence.Concat | include/mimic++/Sequence.hpp:384-389 | the other configuration's sequences follow this one's, and the result exists iff the combined list is duplicate-free |
| ControlPolicies.MakeTimes | include/mimic++/policies/ControlPolicies.hpp:57-69 | `TimesConfig(min, max)` succeeds iff `0 <= min <= max`, keeping both limits; otherwise fails with the invalid-argument message |
| ControlPolicies.Times | include/mimic++/policies/ControlPolicies.hpp:283-286 | `times(min, max)` is the checking constructor |
| ControlPolicies.TimesExactly | include/mimic++/policies/ControlPolicies.hpp:298-301 | `times(n)` succeeds iff `n >= 0` and then has both limits `n` |
| ControlPolicies.AtLeast | include/mimic++/policies/ControlPolicies.hpp:313-316 | `at_least(n)` succeeds iff `n >= 0` and is `{n, INT_MAX}` |
| ControlPolicies.AtMost | include/mimic++/policies/ControlPolicies.hpp:328-331 | `at_most(n)` succeeds iff `n >= 0` and is `{0, n}` |
| ControlPolicies.ConstantFactories | include/mimic++/policies/ControlPolicies.hpp:340-387 | `never`, `once`, `twice` and `any_times` are `{0,0}`, `{1,1}`, `{2,2}`, `{0,INT_MAX}`, all accepted by the constructor, and `once` equals the default `{1,1}` (lines 84-85) |
| ControlPolicies.ExpectedState | include/mimic++/policies/ControlPolicies.hpp:233-249 | the state the owned entries are kept in: fulfilled iff `min <= count`, saturated iff `count == max`, active iff `count < max` |
| ControlPolicies.GatherSequenceReports | include/mimic++/policies/ControlPolicies.hpp:94-117 | every sequence lands in exactly one list; there are no inapplicable reports iff every sequence gives a priority, and then the ratings are the priorities with their tags, in order |
| ControlPolicies.MakeControlState | include/mimic++/policies/ControlPolicies.hpp:120-156 | saturated iff `count == max` (reporting every sequence); otherwise applicable iff every sequence gives a priority, with the rating (priority, tag) of each sequence in order; inapplicable else, listing exactly the tags of the sequences that give no priority; the limits and count are carried through |
| ControlPolicies.SequenceEntries | include/mimic++/policies/ControlPolicies.hpp:102-110 | each attached sequence's `priority_of` its entry, paired with its tag, in order |
| ControlPolicies.AddEntries | include/mimic++/policies/ControlPolicies.hpp:29-48 | adds one unsatisfied entry at the end of every sequence, in order, returns each new entry's id (the sequence's former length) and leaves the cursors and earlier entries alone |
| ControlPolicies.ControlPolicy.constructor | include/mimic++/policies/ControlPolicies.hpp:165-175 | takes the limits, adds one entry to each sequence of the configuration with count 0, and leaves the entries in the state `update_sequence_states` gives |
| ControlPolicies.ControlPolicy.State | include/mimic++/policies/ControlPolicies.hpp:215-223 | `state()` is `make_control_state` of the limits, the count and the attached entries |
| ControlPolicies.ControlPolicy.StateApplicableIff | include/mimic++/policies/ControlPolicies.hpp:190-199 | the reported state is applicable exactly when `is_applicable` holds |
| ControlPolicies.ControlPolicy.EntriesReflectCount | include/mimic++/policies/ControlPolicies.hpp:177-188 | in every reachable state, the owned entries are fulfilled iff the policy is satisfied and saturated iff it is saturated |
| ControlPolicies.ControlPolicy.Consume | include/mimic++/policies/ControlPolicies.hpp:201-213 | requires applicability; moves each sequence's cursor onto the owned entry, increments the count by one (never beyond `max`) and puts each owned entry into the state the new count calls for |
| ControlPolicies.ControlPolicy.UpdateSequenceStates | include/mimic++/policies/ControlPolicies.hpp:233-249 | saturates the owned entries when `count == max`, else satisfies them when `count == min`, else leaves them; nothing else changes |
| Expectation.RequirementOutcomesSpec | include/mimic++/Expectation.hpp:35-55 | the outcomes exist exactly when no policy's `matches` throws, and then hold every policy's outcome at its position |
| Expectation.ConsumedBy | include/mimic++/Expectation.hpp:572-581 | every policy has consumed the call once more, in order, and is otherwise unchanged |
| Expectation.Descriptions | include/mimic++/Expectation.hpp:512-519 | the policies' `describe()` results, in order, as the report's requirement descriptions |
| Expectation.BasicExpectation.constructor | include/mimic++/Expectation.hpp:498-515 | the expectation holds the given times policy and expectation policies |
| Expectation.BasicExpectation.ApplicableIffControlApplicable | include/mimic++/Expectation.hpp:550-557 | `is_applicable` holds exactly when the times policy's state is applicable, i.e. when the times policy is applicable |
| Expectation.BasicExpectation.Consume | include/mimic++/Expectation.hpp:572-581 | consumes the times policy (count + 1, owned sequence entries advanced) and then forwards the call to every policy |
| Expectation.CategorizeSpec | include/mimic++/Expectation.hpp:400-419 | an expectation throws iff a policy throws; it does not match iff some outcome is false (keeping the outcomes); it matches iff all outcomes hold and it is applicable, with an applicable report; inapplicable otherwise |
| Expectation.CategoriesAt | include/mimic++/Expectation.hpp:400-419 | the category listed at each position is the category of the expectation at that position |
| Expectation.NewestFirst | include/mimic++/Expectation.hpp:402 | the positions of one category, each of that category |
| Expectation.NewestFirstSpec | include/mimic++/Expectation.hpp:402-419 | a list holds exactly the positions of its category, each once, in strictly decreasing (newest-first) order |
| Expectation.EvaluationPartitions | include/mimic++/Expectation.hpp:395-421 | an expectation that does not throw lands in exactly one of the match, inapplicable and no-match lists; one that throws in none |
| Expectation.BestMatch | include/mimic++/Expectation.hpp:85-106 | the chosen position lies within the matches |
| Expectation.ReportRatings | include/mimic++/Expectation.hpp:87-90 | the sequence ratings of each applicable report, in order |
| Expectation.FindBestMatch | include/mimic++/Expectation.hpp:85-106 | the loop keeps the current best while it has the better rating and returns `BestMatch` of the ratings, an index in `[0, n)` |
| Expectation.NewestWinsWithoutSequences | include/mimic++/Expectation.hpp:85-106 | with no sequences every rating list is empty, so the first listed, i.e. the newest, match wins |
| Expectation.TiedSequenceChoice | include/mimic++/Expectation.hpp:85-106 | two matches differing only in their entry of one shared sequence: a greedy sequence picks the younger, a lazy sequence the older |
| Expectation.ExceptionEvents | include/mimic++/Expectation.hpp:46-51 | one unhandled-exception report per throwing expectation, in order |
| Expectation.NoMatchEntries | include/mimic++/Expectation.hpp:66-80 | each non-matching expectation paired with its outcomes, in list order |
| Expectation.MatchReports | include/mimic++/Expectation.hpp:58-65 | the reports of the listed matches, in list order |
| Expectation.NewestFirstEmpty | include/mimic++/Expectation.hpp:358-379 | a category's list is empty exactly when no expectation has that category |
| Expectation.CallOutcomeLast | include/mimic++/Expectation.hpp:349-389 | the unhandled exceptions are followed by one last report: the full match of the chosen expectation when there are matches, else the inapplicable matches if any, else the no-matches |
| Expectation.CallOutcomeSpec | include/mimic++/Expectation.hpp:349-389 | a call is consumed exactly when some expectation matches, and then by a matching one; the last report is that full match, else inapplicable iff nothing matched but something was inapplicable, else no-matches |
| Expectation.Record | include/mimic++/Expectation.hpp:402-419 | one loop step files the expectation into the list its category names, giving the lists from its position on |
| Expectation.RecordStep | include/mimic++/Expectation.hpp:402-419 | an expectation joins the list of its category and no other |
| Expectation.ProgressOf | include/mimic++/Expectation.hpp:307-336 | the count and policies of every stored expectation |
| Expectation.ExpectationCollection.constructor | include/mimic++/Expectation.hpp:251-306 | a new collection holds no expectations |
| Expectation.ExpectationCollection.Push | include/mimic++/Expectation.hpp:307-314 | appends an expectation that does not belong to the collection yet |
| Expectation.ExpectationCollection.Remove | include/mimic++/Expectation.hpp:323-336 | erases the expectation from its position, keeping the others in order, and reports it as unfulfilled exactly when it is not satisfied |
| Expectation.ExpectationCollection.EvaluateExpectations | include/mimic++/Expectation.hpp:395-421 | the loop over the expectations, newest first, yields the three lists and the exception reports the categories call for, and changes no expectation |
| Expectation.ExpectationCollection.GatherReports | include/mimic++/Expectation.hpp:58-65 | the reports of the listed expectations, in order |
| Expectation.ExpectationCollection.ConsumeAt | include/mimic++/Expectation.hpp:371-375 | only the chosen expectation consumes the call: its count rises by one and its policies record the call; every other expectation keeps count and policies |
| Expectation.ExpectationCollection.MatchReportsSpec | include/mimic++/Expectation.hpp:358-363 | the listed matches are matching expectations, their gathered reports are those of their categories, and every one is applicable (so `find_best_match` may read its ratings) |
| Expectation.ExpectationCollection.MatchApplicable | include/mimic++/Expectation.hpp:410-417 | an expectation filed as a match is applicable |
| Expectation.ExpectationCollection.Advance | include/mimic++/Expectation.hpp:371-375 | the progress of the whole collection changes only at the chosen expectation, which advances by one call |
| Expectation.ExpectationCollection.SelectBest | include/mimic++/Expectation.hpp:358-366 | the best match is the match at `find_best_match` of the gathered reports, and it is applicable |
| Expectation.ExpectationCollection.HandleMatch | include/mimic++/Expectation.hpp:358-377 | the best match, chosen by `find_best_match`, consumes the call, and nothing else advances |
| Expectation.ExpectationCollection.HandleCall | include/mimic++/Expectation.hpp:349-389 | the reports and the chosen expectation are `CallOutcome` of the categories; with a choice only that expectation advances, without one nothing changes |
| StringifyReports.DescLeOrder | include/mimic++/reporting/StringifyReports.hpp:239 | the order `std::ranges::sort` uses on optional descriptions (empty first, then by text) is reflexive, total, antisymmetric and transitive |
| StringifyReports.InsertSpec | include/mimic++/reporting/StringifyReports.hpp:239 | inserting into a sorted sequence adds exactly the new description and keeps it sorted |
| StringifyReports.SortSpec | include/mimic++/reporting/StringifyReports.hpp:239 | the sort used for violations and adherences returns a sorted permutation of its input |
| StringifyReports.SortedUnique | include/mimic++/reporting/StringifyReports.hpp:239 | two sorted arrangements of the same descriptions are equal, so the printed order does not depend on the unspecified `std::sort` algorithm |
| StringifyReports.SortPermutationInvariant | include/mimic++/reporting/StringifyReports.hpp:238-249 | sorting two permutations of each other gives the same sequence |
| StringifyReports.Pairs | include/mimic++/reporting/StringifyReports.hpp:189-194 | the description at each position paired with the outcome at the same position, one pair per description |
| StringifyReports.SelectBagPermutation | include/mimic++/reporting/StringifyReports.hpp:200-205 | rearranging the (description, outcome) pairs leaves the multiset of descriptions selected by an outcome unchanged |
| StringifyReports.SelectAll | include/mimic++/reporting/StringifyReports.hpp:198-205 | when every outcome equals the selected one, every description is selected, in order |
| StringifyReports.SelectNone | include/mimic++/reporting/StringifyReports.hpp:198-205 | when no outcome equals the selected one, nothing is selected |
| StringifyReports.ViolationsAdherencesSplit | include/mimic++/reporting/StringifyReports.hpp:238-243 | violations and adherences together are exactly the descriptions, as a multiset |
| StringifyReports.SelectMembership | include/mimic++/reporting/StringifyReports.hpp:238-243 | a description is selected iff one of its positions carries the selected outcome |
| StringifyReports.SwapKeepsPairs | include/mimic++/reporting/StringifyReports.hpp:203-204 | swapping the same two positions in both sequences keeps the multiset of pairs |
| StringifyReports.FindFalse | include/mimic++/reporting/StringifyReports.hpp:198-200 | the first `false` outcome in `[from, to)`, or `to` when there is none: every outcome before the result is true |
| StringifyReports.SwapPaired | include/mimic++/reporting/StringifyReports.hpp:203-204 | both arrays have positions i and j exchanged, which keeps every description paired with its outcome |
| StringifyReports.PartitionRequirementDescriptions | include/mimic++/reporting/StringifyReports.hpp:189-208 | with equal, non-empty lengths and at least one violation: afterwards all outcomes before the returned midpoint are true and all from it on are false, the midpoint lies inside the arrays (the violation span is non-empty), and the multiset of (description, outcome) pairs is unchanged |
| StringifyReports.SelectPartitioned | include/mimic++/reporting/StringifyReports.hpp:207-208 | after the partition the suffix from the midpoint is exactly the violations and the prefix exactly the adherences |
| StringifyReports.SelectPermutation | include/mimic++/reporting/StringifyReports.hpp:200-205 | rearranging descriptions and outcomes alike keeps the contents of each selection |
| StringifyReports.PartitionSelects | include/mimic++/reporting/StringifyReports.hpp:189-208 | the returned span holds exactly the violated descriptions of the original arrays and the prefix exactly the adhered ones, as multisets |
| StringifyReports.StringifyCallReportArguments | include/mimic++/reporting/StringifyReports.hpp:41-56 | appends one line `prefix arg[k] => type: state` per argument, the argument at position k numbered k, in order |
| StringifyReports.DescriptionLinesPresent | include/mimic++/reporting/StringifyReports.hpp:86-103 | descriptions without text produce nothing; the rest produce one `prefix text\n` line each, in order |
| StringifyReports.StringifyRequirementDescriptions | include/mimic++/reporting/StringifyReports.hpp:86-103 | appends the description lines in order to the output |
| StringifyReports.StringifyNoMatchEntry | include/mimic++/reporting/StringifyReports.hpp:232-256 | partitions a copy of the report's arrays and appends the numbered heading, the sorted violations as `-` lines and, when any exist, the sorted adherences as `+` lines; the result does not depend on the order the partition leaves |
| StringifyReports.StringifyNoMatchEntries | include/mimic++/reporting/StringifyReports.hpp:229-257 | appends the section of each rejecting expectation in order, the k-th one numbered k + 1 |
| StringifyReports.StringifyNoMatches | include/mimic++/reporting/StringifyReports.hpp:211-262 | the text is the call header and arguments, then "No Expectations available!" for no reports or the count and each section, then the stack trace when one was captured |
| TypeTraits.ApplyTraitInPlace | include/mimic++/TypeTraits.hpp:285-299 | applying a trait around the call convention is defined exactly on the supported signatures and transforms the signature with its convention untouched |
| TypeTraits.SignatureRemoveNoexcept | include/mimic++/TypeTraits.hpp:309-487 | `signature_remove_noexcept` drops `noexcept`, keeps everything else and tells whether it was present |
| TypeTraits.SignatureAddNoexcept | include/mimic++/TypeTraits.hpp:501-603 | `signature_add_noexcept` adds `noexcept` and tells whether it was absent, keeping everything else |
| TypeTraits.SignatureIsNoexcept | include/mimic++/TypeTraits.hpp:617-621 | `signature_is_noexcept` holds exactly for `noexcept` signatures |
| TypeTraits.NoexceptRoundTrip | include/mimic++/TypeTraits.hpp:309-603 | adding and removing `noexcept` undo each other, and each is idempotent and reports no change the second time |
| TypeTraits.SignatureRemoveRefQualifier | include/mimic++/TypeTraits.hpp:635-739 | `signature_remove_ref_qualifier` drops `&` or `&&`, keeps const and `noexcept` and tells whether a ref-qualifier was present |
| TypeTraits.SignatureRemoveConstQualifier | include/mimic++/TypeTraits.hpp:753-857 | `signature_remove_const_qualifier` drops const, keeps the ref-qualifier and `noexcept` and tells whether const was present |
| TypeTraits.SignatureAddConstQualifier | include/mimic++/TypeTraits.hpp:871-941 | `signature_add_const_qualifier` adds const, keeps the ref-qualifier and `noexcept` and tells whether const was absent |
| TypeTraits.ConstRoundTrip | include/mimic++/TypeTraits.hpp:753-941 | adding and removing const undo each other |
| TypeTraits.SignatureDecay | include/mimic++/TypeTraits.hpp:955-965 | `signature_decay` leaves a signature without call convention, `noexcept`, const or ref-qualifier, with the same return type, parameters and ellipsis |
| TypeTraits.DecayExact | include/mimic++/TypeTraits.hpp:955-965 | two signatures decay alike exactly when they agree in return type, parameters and ellipsis, and decaying is idempotent |
| TypeTraits.DecayIgnoresTraits | include/mimic++/TypeTraits.hpp:309-965 | every qualifier trait leaves the decayed signature as it was |
| TypeTraits.SignatureReturnType | include/mimic++/TypeTraits.hpp:979-998 | `signature_return_type` is the signature's return type |
| TypeTraits.SignatureParamList | include/mimic++/TypeTraits.hpp:1132-1148 | `signature_param_list` is the parameter list of a non-variadic signature |
| TypeTraits.SignatureParamType | include/mimic++/TypeTraits.hpp:1011-1030 | `signature_param_type<i>` is the i-th parameter |
| TypeTraits.SignatureConstQualification | include/mimic++/TypeTraits.hpp:1039-1047 | `signature_const_qualification` is `as_const` exactly for const signatures and never `any` |
| TypeTraits.SignatureRefQualification | include/mimic++/TypeTraits.hpp:1061-1120 | `signature_ref_qualification` is `any`, lvalue or rvalue exactly when the signature has no, an `&` or an `&&` qualifier |
| TypeTraits.NormalizeOverload | include/mimic++/TypeTraits.hpp:1215-1217 | the normalised signature has the default convention and no `noexcept` |
| TypeTraits.OverloadableExact | include/mimic++/TypeTraits.hpp:1152-1236 | `is_overloadable_with` agrees with the reference definition (same parameters, qualifications that overload each other, or different parameters); hence it is symmetric and no signature overloads itself |
| TypeTraits.OverloadableWithAllExact | include/mimic++/TypeTraits.hpp:1250-1256 | the conjunction over the others holds exactly when the first signature overloads every one of them |
| TypeTraits.OverloadSetPairwise | include/mimic++/TypeTraits.hpp:1250-1262 | a list is an overload set exactly when its signatures overload each other pairwise |
| TypeTraits.OverloadSetPermutation | include/mimic++/TypeTraits.hpp:1250-1262 | whether a list is an overload set depends only on which signatures it holds, not on their order |
| CallConvention.RemoveCallConvention | include/mimic++/CallConvention.hpp:16-72 | defined iff the signature is non-variadic and carries the convention; the result has the default convention and is otherwise unchanged |
| CallConvention.HasCallConventionExact | include/mimic++/CallConvention.hpp:53-75 | the concept holds exactly for non-variadic signatures carrying the convention, and never when the convention is the platform default (`void cc()` is then `void()`, so removing changes nothing) |
| CallConvention.AddCallConvention | include/mimic++/CallConvention.hpp:77-100 | defined iff the signature is non-variadic and has either the default convention or this one; the result carries the convention and is otherwise unchanged |
| CallConvention.AddCallConventionRoundTrip | include/mimic++/CallConvention.hpp:16-100 | adding is idempotent, adding after removing restores a signature with the convention, and removing after adding restores a default one |
| CallConvention.SignatureCallConventionExact | include/mimic++/CallConvention.hpp:119-134 | a tag is selected iff the signature has the default convention or is non-variadic; a non-default convention's tag exactly for the signatures having it; a default-convention signature gets the default tag, or, when a registered convention is the platform default, that convention's tag |
| CallConvention.SignatureRemoveCallConvention | include/mimic++/TypeTraits.hpp:271-276 | defined iff the signature is supported (non-variadic, or variadic with the default convention when no registered convention is the default); the result has the default convention and is otherwise unchanged |
| CallConvention.TraitsRoundTrip | include/mimic++/CallConvention.hpp:136-149 | the selected tag's traits add back exactly the convention they removed |
| Facade.TrimSpaces | include/mimic++/Facade.hpp:219-225 | a suffix of the text that starts with neither a space nor a tab |
| Facade.TrimSpacesSuffix | include/mimic++/Facade.hpp:219-225 | trimming keeps a suffix of the text and drops only spaces and tabs |
| Facade.LetterRun | include/mimic++/Facade.hpp:267-272 | the length of the leading run of ASCII letters: the character behind it, if any, is no letter |
| Facade.TokenLength | include/mimic++/Facade.hpp:242-292 | a token at the front of a non-empty text has positive length within the text |
| Facade.Step | include/mimic++/Facade.hpp:231-235 | a successful step leaves exactly the text behind the token |
| Facade.FindTokenBegin | include/mimic++/Facade.hpp:219-225 | the first position from `from` on that is no space or tab: the text from there is the trimmed rest |
| Facade.ParseRefSpecifier | include/mimic++/Facade.hpp:240-259 | `&&` sets rvalue and `&` lvalue, a second ref-qualifier fails; the returned position lies behind the token and agrees with the specification step |
| Facade.ParseKeywordSpecifier | include/mimic++/Facade.hpp:261-293 | the token runs over the following letters; `const` and `noexcept` set their flag and fail when already set, `override` and `final` are skipped, any other word fails with "Invalid spec"; agrees with the specification step |
| Facade.EvaluateSpecs | include/mimic++/Facade.hpp:215-238 | the loop computes the specification's record of the whole text, starting from no specifiers |
| Facade.SpecsOfTrim | include/mimic++/Facade.hpp:228-230 | leading spaces and tabs do not change the outcome |
| Facade.SpecsOfFront | include/mimic++/Facade.hpp:228-235 | a text starting with a token evaluates as its first step, then the rest |
| Facade.BlankSpecs | include/mimic++/Facade.hpp:228-237 | a text of spaces and tabs only, the empty text included, leaves the record unchanged |
| Facade.StepAppend | include/mimic++/Facade.hpp:231-235 | a step on a text followed by more text at a token boundary reads the same token with the same outcome |
| Facade.TrimSpacesAppend | include/mimic++/Facade.hpp:219-225 | trimming a concatenation trims only the first part unless it is blank |
| Facade.SpecsOfAppend | include/mimic++/Facade.hpp:215-238 | evaluating two texts that meet at a token boundary is evaluating the first, then the second from its record: no token runs across the seam |
| Facade.WordSpecs | include/mimic++/Facade.hpp:261-293 | a lone word after blanks evaluates as its one step |
| Facade.IgnoredSpecifiers | include/mimic++/Facade.hpp:286-290 | appending " override" or " final" never changes the outcome |
| Facade.RejectedAppendix | include/mimic++/Facade.hpp:274-290 | appending `const` or `noexcept` when already set fails with that assertion, and appending a word that is no specifier fails as invalid |
| Facade.AppendedWord | include/mimic++/Facade.hpp:228-235 | a word appended after an accepted text is evaluated as one more step |
| Facade.RejectedSecondRef | include/mimic++/Facade.hpp:245 | appending a second ref-qualifier fails with the ref assertion |
| Facade.SpellingRoundTrip | include/mimic++/Facade.hpp:215-293 | every record is read back from its canonical spelling, for each of the twelve combinations |
| Facade.Evaluate | include/mimic++/Facade.hpp:298-321 | the signature gains the ref-qualifier, const and noexcept the record asks for, and keeps its shape and call convention |
| Facade.ApplyNormalizedSpecsExact | include/mimic++/Facade.hpp:325-326 | an empty text leaves the raw signature as it is, and the spelling of a record gives the signature with exactly those specifiers |
| GeneralMatchers.Values | include/mimic++/matchers/GeneralMatchers.hpp:110-119 | the stored arguments' values, in order, as handed to the predicate after the target |
| GeneralMatchers.Texts | include/mimic++/matchers/GeneralMatchers.hpp:123-136 | the rendered stored arguments in order, or nothing iff one of them cannot be rendered |
| GeneralMatchers.FormatDefined | include/mimic++/matchers/GeneralMatchers.hpp:126-133 | `Format`, i.e. `vformat` over automatically numbered `{}` fields: formatting succeeds iff the format string is well formed and has no more `{}` fields than arguments; surplus arguments make no difference |
| GeneralMatchers.FormatLiteral | include/mimic++/matchers/GeneralMatchers.hpp:126-133 | a character other than a brace is copied to the output |
| GeneralMatchers.FormatLeadingField | include/mimic++/matchers/GeneralMatchers.hpp:126-133 | a leading `{}` takes the first argument and the rest formats with the remaining ones |
| GeneralMatchers.FormatPlain | include/mimic++/matchers/GeneralMatchers.hpp:126-133 | literal text formats to itself, whatever the arguments |
| GeneralMatchers.FormatField | include/mimic++/matchers/GeneralMatchers.hpp:126-133 | literal text, one field, literal text: the field takes the first argument |
| GeneralMatchers.DescribePlain | include/mimic++/matchers/GeneralMatchers.hpp:123-136 | a matcher without stored arguments and with a literal format describes itself by that text |
| GeneralMatchers.DescribeField | include/mimic++/matchers/GeneralMatchers.hpp:123-136 | a matcher with one stored argument and format "lead {}" describes itself as the lead followed by the rendered argument |
| GeneralMatchers.NotSpec | include/mimic++/matchers/GeneralMatchers.hpp:138-180 | the inversion matches exactly where the matcher does not, describes itself with the swapped format, and inverting twice restores both matching and description |
| GeneralMatchers.CompareMatches | include/mimic++/matchers/GeneralMatchers.hpp:243-339 | `eq`, `ne`, `lt`, `le`, `gt`, `ge` match by their operator, and the inversion of each matches as the complementary comparison |
| GeneralMatchers.CompareDescribe | include/mimic++/matchers/GeneralMatchers.hpp:243-339 | each comparison describes itself as its operator symbol followed by the expected value, and its inversion as the complementary comparison (`!eq(42)` reads "!= 42") |
| GeneralMatchers.PredicateSpec | include/mimic++/matchers/GeneralMatchers.hpp:347-362 | `predicate(p)` matches by p and by default describes itself as "passes predicate", its inversion as "fails predicate" |
| GeneralMatchers.WildcardSpec | include/mimic++/matchers/GeneralMatchers.hpp:188-200 | the wildcard matches every target and describes itself as "has no constraints" |
| StringMatchers.Mismatch | include/mimic++/matchers/StringMatchers.hpp:200-204 | the position where two strings first differ: both agree before it, and differ at it unless one ends there |
| StringMatchers.Reverse | include/mimic++/matchers/StringMatchers.hpp:245-262 | the reversed view holds the same characters in the opposite order |
| StringMatchers.SearchSpec | include/mimic++/matchers/StringMatchers.hpp:296-314 | the search finds the first occurrence of the pattern, and finds nothing only when there is none |
| StringMatchers.CaseFold | include/mimic++/matchers/StringMatchers.hpp:40-48 | case folding upper-cases every character and keeps the length |
| StringMatchers.EqualSpec | include/mimic++/matchers/StringMatchers.hpp:146-162 | `str::eq(p)` matches exactly the targets equal to p |
| StringMatchers.StartsWithSpec | include/mimic++/matchers/StringMatchers.hpp:192-210 | `str::starts_with(p)` matches exactly the targets with p as a prefix |
| StringMatchers.PrefixByMismatch | include/mimic++/matchers/StringMatchers.hpp:200-204 | the common prefix covers the whole pattern exactly when the pattern is a prefix of the target |
| StringMatchers.EndsWithSpec | include/mimic++/matchers/StringMatchers.hpp:243-262 | `str::ends_with(p)` matches exactly the targets with p as a suffix |
| StringMatchers.ReversedPrefix | include/mimic++/matchers/StringMatchers.hpp:243-262 | the reversed pattern is a prefix of the reversed target exactly when the pattern is a suffix of the target |
| StringMatchers.ContainsSpec | include/mimic++/matchers/StringMatchers.hpp:296-314 | `str::contains(p)` matches exactly the targets in which p occurs |
| StringMatchers.EmptyPattern | include/mimic++/matchers/StringMatchers.hpp:296-314 | the empty pattern is started with, ended with and contained by every target, while `eq` matches only the empty target |
| StringMatchers.CaseInsensitiveSpec | include/mimic++/matchers/StringMatchers.hpp:169-338 | a case-insensitive matcher is the plain one on the case-folded target and pattern, and matches wherever the plain one does |
| StringMatchers.CaseFoldIdempotent | include/mimic++/matchers/StringMatchers.hpp:40-48 | case folding a folded string changes nothing |
| StringMatchers.DescribeSpec | include/mimic++/matchers/StringMatchers.hpp:146-338 | every description is its lead text followed by the printed pattern, and the inversion uses the negated lead ("starts not with", "contains not", "is not equal to") |
| RangeMatchers.EqualSpec | include/mimic++/matchers/RangeMatchers.hpp:48-52 | the elementwise comparison holds exactly for ranges of equal length related at every position |
| RangeMatchers.RangeEqSpec | include/mimic++/matchers/RangeMatchers.hpp:37-56 | `range::eq` matches exactly the targets of the expected length whose elements each relate to the expected one at the same position; it reads "elements are …" and, inverted, "elements are not …" |
| RangeMatchers.IndexOf | include/mimic++/matchers/RangeMatchers.hpp:76-80 | the first position with the key, or none when no element has it |
| RangeMatchers.IsPermutationSpec | include/mimic++/matchers/RangeMatchers.hpp:76-80 | the target is a permutation of the expected range exactly when both hold each key the same number of times |
| RangeMatchers.KeysPaired | include/mimic++/matchers/RangeMatchers.hpp:76-80 | pairing the first target element with an expected element of the same key keeps the key counts equal exactly when they were equal before |
| RangeMatchers.MissingKey | include/mimic++/matchers/RangeMatchers.hpp:76-80 | a target key the expected range lacks makes the key counts differ |
| RangeMatchers.UnorderedEqSpec | include/mimic++/matchers/RangeMatchers.hpp:65-84 | `range::unordered_eq` matches exactly the rearrangements of the expected range and reads "is a permutation of …", inverted "is not a permutation of …" |
| RangeMatchers.IsSortedSpec | include/mimic++/matchers/RangeMatchers.hpp:102-106 | a range is sorted exactly when no element is related before its predecessor |
| RangeMatchers.SortedByLess | include/mimic++/matchers/RangeMatchers.hpp:91-93 | with the default `std::ranges::less` on integers, sorted means every element is at most every later one |
| RangeMatchers.RangeIsSortedSpec | include/mimic++/matchers/RangeMatchers.hpp:91-108 | `range::is_sorted` matches exactly the ranges with no adjacent pair out of order, the empty one among them, and reads "is a sorted range", inverted "is an unsorted range" |
| RangeMatchers.IsEmptySpec | include/mimic++/matchers/RangeMatchers.hpp:113-122 | `range::is_empty` matches exactly the empty ranges and reads "is an empty range", inverted "is not an empty range" |
| RangeMatchers.HasSizeSpec | include/mimic++/matchers/RangeMatchers.hpp:128-140 | `range::has_size(n)` matches exactly the ranges of n elements and reads "has size of n", inverted "has different size than n" |
| RangeMatchers.AllAnySpec | include/mimic++/matchers/RangeMatchers.hpp:153-180 | all elements match exactly when none fails, and any matches exactly when one does |
| RangeMatchers.EachElementSpec | include/mimic++/matchers/RangeMatchers.hpp:147-165 | `range::each_element(m)` matches exactly when every element matches m, the empty range included, and reads "each el in range: el" before m's description |
| RangeMatchers.AnyElementSpec | include/mimic++/matchers/RangeMatchers.hpp:172-190 | `range::any_element(m)` matches exactly when some element matches m, never on the empty range, and reads "any el in range: el", inverted "none el in range: el" |
| ArgRequirementPolicies.Select | include/mimic++/policies/ArgRequirementPolicies.hpp:150-173 | for selected indices, the argument at each index through the projection at the same position; for all arguments, the argument list unchanged |
| ArgRequirementPolicies.PaddedSpec | include/mimic++/policies/ArgRequirementPolicies.hpp:246-254 | padding the projections to n succeeds iff there are at most n of them, keeps them in front and fills the rest with the identity |
| ArgRequirementPolicies.Arg | include/mimic++/policies/ArgRequirementPolicies.hpp:200-213 | `expect::arg` builds a requirement selecting one index with exactly one projection |
| ArgRequirementPolicies.ArgsSpec | include/mimic++/policies/ArgRequirementPolicies.hpp:239-255 | `expect::args` is rejected iff there are more projections than indices; otherwise argument k of the selection is the projected argument at index k for each given projection |
| ArgRequirementPolicies.AllArgsOf | include/mimic++/policies/ArgRequirementPolicies.hpp:268-283 | `expect::all_args` builds a requirement selecting all arguments |
| ArgRequirementPolicies.RequirementStateless | include/mimic++/policies/ArgRequirementPolicies.hpp:69-90 | the requirement is satisfied before and after consuming a call, and consuming changes no later match |
| ArgRequirementPolicies.MatchesSpec | include/mimic++/policies/ArgRequirementPolicies.hpp:75-85 | `expect::arg<i>(m, proj)` matches iff m accepts the projected argument i; `expect::all_args(m)` iff m accepts the whole argument list |
| ArgRequirementPolicies.IndexParts | include/mimic++/policies/ArgRequirementPolicies.hpp:130-131 | each index written in decimal, in order |
| ArgRequirementPolicies.Describe | include/mimic++/policies/ArgRequirementPolicies.hpp:92-110 | a description exists iff the matcher has one |
| ArgRequirementPolicies.SingleIndexDescription | include/mimic++/policies/ArgRequirementPolicies.hpp:124-134 | one index reads "expect: arg[i] " followed by the matcher description |
| ArgRequirementPolicies.TwoIndicesDescription | include/mimic++/policies/ArgRequirementPolicies.hpp:124-134 | two indices read "expect: arg[i, j] " followed by the matcher description |
| ArgRequirementPolicies.JoinInjective | include/mimic++/policies/ArgRequirementPolicies.hpp:130-131 | joining comma-free parts with ", " loses nothing: equal joins come from equal part lists |
| ArgRequirementPolicies.SplitAtFirstComma | include/mimic++/policies/ArgRequirementPolicies.hpp:130-131 | a comma-free part followed by ", " is determined by where the first comma stands |
| ArgRequirementPolicies.SplitAtBracket | include/mimic++/policies/ArgRequirementPolicies.hpp:132 | a part free of "]" followed by "] " is determined by where the first "]" stands |
| ArgRequirementPolicies.IndexListInjective | include/mimic++/policies/ArgRequirementPolicies.hpp:129-132 | two index lists render to the same bracket text only when they are equal |
| ArgRequirementPolicies.DescriberInjective | include/mimic++/policies/ArgRequirementPolicies.hpp:124-145 | equal descriptions of two requirements mean the same selected indices (or both all arguments) and the same matcher description |
| ArgRequirementPolicies.IndexedNotAll | include/mimic++/policies/ArgRequirementPolicies.hpp:124-145 | an indexed description never reads like the all-arguments one |
| ArgRequirementPolicies.DescribeSpec | include/mimic++/policies/ArgRequirementPolicies.hpp:92-110 | when the matcher has a description, the requirement's description is the describer's text around it |
| Lexing.StrLtAt | include/mimic++/printing/type/NameLexer.hpp:78-79 | two strings that agree up to a position and then differ upwards (or the first ends) are strictly ordered |
| Lexing.StrictlySortedSpec | include/mimic++/printing/type/NameLexer.hpp:78-82 | a strictly sorted table is sorted, as `binary_find` and `prefix_range` need, and holds every text once, as the `unique` assertion checks |
| Lexing.TablesSorted | include/mimic++/printing/type/NameLexer.hpp:45-104 | the keyword table and the operator/punctuator table, as the listed texts sorted, are sorted and free of duplicates |
| Lexing.OperatorLeadsClosed | include/mimic++/printing/type/NameLexer.hpp:55-65 | every operator or punctuator starts with one that is a single character, so `next_as_op_or_punctuator`'s first option is always that character |
| Lexing.RunEnd | include/mimic++/printing/type/NameLexer.hpp:287 | the end of the run from `from` of characters satisfying the predicate: all before it satisfy it and the one at it, if any, does not |
| Lexing.LeadOptions | include/mimic++/printing/type/NameLexer.hpp:262-264 | a subrange of the table |
| Lexing.BestOp | include/mimic++/printing/type/NameLexer.hpp:293-339 | the longest table entry the text starts with, or none iff the text starts with no entry |
| Lexing.LeadOption | include/mimic++/printing/type/NameLexer.hpp:301 | when options exist for the first character, the first option is that character itself and the text starts with some entry |
| Lexing.EndRepeats | include/mimic++/printing/type/NameLexer.hpp:237-243 | once the text is used up, every further token is the end token with empty content |
| Lexing.ScanSlices | include/mimic++/printing/type/NameLexer.hpp:235-282 | `Scan`, i.e. `find_next`: the text is the dropped whitespace, the token's content and the rest, in that order; only the end token is empty, and it comes only when nothing but whitespace is left |
| Lexing.ScanFront | include/mimic++/printing/type/NameLexer.hpp:262-282 | a text starting with something other than whitespace yields a non-empty token read off its very front |
| Lexing.ScanProgress | include/mimic++/printing/type/NameLexer.hpp:235-282 | each token but the end token consumes text, so lexing a name ends |
| Lexing.SpaceSpec | include/mimic++/printing/type/NameLexer.hpp:245-260 | a whitespace run is a space token iff it is exactly one space; any other run is dropped and the next token read |
| Lexing.OperatorSpec | include/mimic++/printing/type/NameLexer.hpp:262-266 | a text starting with an operator or punctuator yields the longest table entry it starts with, classified by its index |
| Lexing.IdentifierSpec | include/mimic++/printing/type/NameLexer.hpp:269-281 | otherwise the token is the run of identifier characters, a keyword (with its table index) iff the run is in the keyword table, else an identifier with that content |
| Lexing.IdentifierCharSpec | include/mimic++/printing/type/NameLexer.hpp:352-360 | the identifier run stops at exactly the whitespace and the one-character operators or punctuators |
| Lexing.TryAdvance | include/mimic++/printing/type/NameLexer.hpp:303-312 | the narrowed options lie within the current ones |
| Lexing.NarrowOptions | include/mimic++/printing/type/NameLexer.hpp:303-312 | narrowing by one character keeps exactly the entries that start with the longer prefix, and none when the text is too short |
| Lexing.NoEntryOfLength | include/mimic++/printing/type/NameLexer.hpp:319-324 | when the first option is not exactly the prefix, no entry of that length is a prefix of the text |
| Lexing.EndOfOptions | include/mimic++/printing/type/NameLexer.hpp:316 | when no entry starts with the next longer prefix, no entry the text starts with is longer than the current one |
| Lexing.LongestIsBest | include/mimic++/printing/type/NameLexer.hpp:293-339 | in a duplicate-free table, a longest entry the text starts with is the one chosen |
| Lexing.WideningStep | include/mimic++/printing/type/NameLexer.hpp:316-326 | one round of widening keeps the loop invariant: the options are the entries starting with the prefix and the remembered entry is the longest one so far |
| Lexing.WideningDone | include/mimic++/printing/type/NameLexer.hpp:316-330 | when no option is left, the remembered entry is the longest entry the text starts with |
| Lexing.LongestMatch | include/mimic++/printing/type/NameLexer.hpp:314-330 | the loop's last match is an entry the text starts with, and the longest one |
| Lexing.NameLexer.constructor | include/mimic++/printing/type/NameLexer.hpp:211-216 | the lexer holds the token tables and has read the first token off the name |
| Lexing.NameLexer.Peek | include/mimic++/printing/type/NameLexer.hpp:224-228 | the upcoming token, without reading on |
| Lexing.NameLexer.Next | include/mimic++/printing/type/NameLexer.hpp:218-222 | returns the upcoming token and reads the following one off the rest |
| Lexing.NameLexer.FindNext | include/mimic++/printing/type/NameLexer.hpp:234-282 | reads the token the scanner specifies off the front and keeps the rest |
| Lexing.NameLexer.NextAsSpace | include/mimic++/printing/type/NameLexer.hpp:284-292 | takes the whitespace run at the front |
| Lexing.NameLexer.NextAsOpOrPunctuator | include/mimic++/printing/type/NameLexer.hpp:298-340 | takes the longest operator or punctuator at the front and classifies it by its table index |
| Lexing.NameLexer.NextAsIdentifier | include/mimic++/printing/type/NameLexer.hpp:351-366 | takes the run of identifier characters at the front |
| NameParsing.FlushOrder | include/mimic++/printing/type/NameParser.hpp:208-239 | a flush passes on only qualifier calls, each at most once, in the order const, volatile, the reference, noexcept |
| NameParsing.FlushReadBack | include/mimic++/printing/type/NameParser.hpp:208-239 | the frame's flags can be read back from the calls its flush makes, when it does not hold both references |
| NameParsing.Forward | include/mimic++/printing/type/NameParser.hpp:82-85 | the call is passed on unchanged and the frames stay as they are |
| NameParsing.Push | include/mimic++/printing/type/NameParser.hpp:68-72 | a fresh frame without qualifiers goes on top of the others and the call is passed on |
| NameParsing.Mark | include/mimic++/printing/type/NameParser.hpp:87-127 | the qualifier's flag is set on the top frame only and nothing is passed on |
| NameParsing.Flush | include/mimic++/printing/type/NameParser.hpp:208-239 | the top frame is popped and its qualifier calls are passed on |
| NameParsing.Close | include/mimic++/printing/type/NameParser.hpp:147-176 | the top frame is flushed, then the call passed on |
| NameParsing.Renew | include/mimic++/printing/type/NameParser.hpp:108-158 | the top frame is flushed and replaced by a fresh one, then the call passed on |
| NameParsing.SpecNormalizer.constructor | include/mimic++/printing/type/NameParser.hpp:63-66 | no frames and no calls passed on yet |
| NameParsing.SpecNormalizer.Begin | include/mimic++/printing/type/NameParser.hpp:68-72 | pushes a fresh frame and passes `begin` on |
| NameParsing.SpecNormalizer.End | include/mimic++/printing/type/NameParser.hpp:74-80 | with exactly one frame left, flushes it and passes `end` on |
| NameParsing.SpecNormalizer.Pass | include/mimic++/printing/type/NameParser.hpp:82-85 | `add_identifier`, `add_scope` and the operator-identifier brackets are passed on unchanged |
| NameParsing.SpecNormalizer.AddQualifier | include/mimic++/printing/type/NameParser.hpp:87-127 | `add_const`, `add_volatile`, `add_noexcept` and the reference calls only set the top frame's flag |
| NameParsing.SpecNormalizer.Restart | include/mimic++/printing/type/NameParser.hpp:108-158 | `add_ptr`, `add_argument` and `end_return_type` flush the top frame, start a fresh one and pass the call on |
| NameParsing.SpecNormalizer.OpenFrame | include/mimic++/printing/type/NameParser.hpp:141-164 | `begin_template` and `open_parenthesis` start a frame and pass the call on |
| NameParsing.SpecNormalizer.Finish | include/mimic++/printing/type/NameParser.hpp:147-176 | `end_template`, `end_function` and `end_function_ptr` flush the top frame and pass the call on |
| NameParsing.SpecNormalizer.FinalizeCurrentSpecs | include/mimic++/printing/type/NameParser.hpp:208-239 | pops the top frame and passes on its qualifier calls; requires that the top frame holds at most one reference, as the source asserts |
| NameParsing.LastOpen | include/mimic++/printing/type/NameParser.hpp:335-345 | the position of the topmost open token: no open token lies above it |
| NameParsing.PopUntilOpenCount | include/mimic++/printing/type/NameParser.hpp:335-345 | popping to the topmost open token removes exactly one open token |
| NameParsing.Advance | include/mimic++/printing/type/NameParser.hpp:218-222 | the lexer hands out its upcoming token and does not grow, and shrinks unless that token is the end |
| NameParsing.OperatorLead | include/mimic++/printing/type/NameParser.hpp:449-455 | one space after `operator` is skipped, then the next token read |
| NameParsing.NamedOperator | include/mimic++/printing/type/NameParser.hpp:447-487 | an operator identifier passes on `begin_operator_identifier`, the symbol as an identifier and `end_operator_identifier` |
| NameParsing.Step | include/mimic++/printing/type/NameParser.hpp:254-271 | handling a token keeps the lexer on the same tables and never lets the text grow |
| NameParsing.ScopeReductionKeepsSync | include/mimic++/printing/type/NameParser.hpp:304-327 | `reduce_as_scope` keeps one spec frame per open bracket, plus the outermost one |
| NameParsing.ClosedBracketKeepsSync | include/mimic++/printing/type/NameParser.hpp:335-345 | closing a bracket drops one open token and one frame |
| NameParsing.OperatorStepKeepsSync | include/mimic++/printing/type/NameParser.hpp:356-421 | every operator or punctuator keeps one frame per open bracket |
| NameParsing.OperatorNameKeepsSync | include/mimic++/printing/type/NameParser.hpp:447-490 | the operator identifier keeps one frame per open bracket |
| NameParsing.StepKeepsSync | include/mimic++/printing/type/NameParser.hpp:254-271 | every token keeps one frame per open bracket, plus the outermost one |
| NameParsing.QualifierStep | include/mimic++/printing/type/NameParser.hpp:423-445 | a qualifier token only sets its flag on the top frame, passes nothing on and, while in sync, never fails |
| NameParsing.FinishedOutcome | include/mimic++/printing/type/NameParser.hpp:74-80 | `end` succeeds iff every bracket was closed and the last frame does not hold both references; it then flushes the frame and passes `end` on |
| NameParsing.StepExtends | include/mimic++/printing/type/NameParser.hpp:254-271 | a step only adds calls behind those the visitor has received |
| NameParsing.ParseFromExtends | include/mimic++/printing/type/NameParser.hpp:254-271 | parsing keeps the calls made so far, adds more and passes `end` last |
| NameParsing.ParseBracketed | include/mimic++/printing/type/NameParser.hpp:254-271 | a parsed name starts with `begin` and ends with `end` |
| NameParsing.CloseParenthesis | include/mimic++/printing/type/NameParser.hpp:380-396 | `)` succeeds iff a bracket is open; it closes the innermost one, and before `(` it ends a function pointer and leaves a scope token, otherwise it ends a function |
| NameParsing.OperatorSymbolSpec | include/mimic++/printing/type/NameParser.hpp:457-482 | after `operator`, `(` must be followed by `)` and `[` by `]`, and the pair is one symbol; any other operator is a symbol on its own |
| NameParsing.OperatorNameEvents | include/mimic++/printing/type/NameParser.hpp:447-490 | `begin_operator_identifier` is passed on first; when no operator follows, that is all and the token is dropped, otherwise the symbol follows as an identifier |
| NameParsing.NameParser.constructor | include/mimic++/printing/type/NameParser.hpp:248-252 | a parser without tokens and without calls, whose lexer has read the first token of the name |
| NameParsing.NameParser.Run | include/mimic++/printing/type/NameParser.hpp:254-271 | succeeds iff the specification's parse of the name succeeds, and then the visitor received exactly its calls |
| NameParsing.NameParser.HandleToken | include/mimic++/printing/type/NameParser.hpp:262-266 | dispatching one token to its handler is one specification step |
| NameParsing.NameParser.HandleSpace | include/mimic++/printing/type/NameParser.hpp:286-302 | a space pops a scope and ends the return type exactly when a scope is on top and `(` follows |
| NameParsing.NameParser.ReduceAsScope | include/mimic++/printing/type/NameParser.hpp:304-327 | `reduce_as_scope` is the specification's scope reduction |
| NameParsing.NameParser.HandleIdentifier | include/mimic++/printing/type/NameParser.hpp:329-333 | reduces as a scope and passes the identifier on |
| NameParsing.NameParser.PopUntilOpenToken | include/mimic++/printing/type/NameParser.hpp:335-345 | pops up to and including the topmost open token, and fails when there is none |
| NameParsing.NameParser.ReduceAsArg | include/mimic++/printing/type/NameParser.hpp:347-354 | replaces the scope on top by an argument, and fails when no scope is on top |
| NameParsing.NameParser.CloseBracket | include/mimic++/printing/type/NameParser.hpp:365-396 | pops to the open token, maybe pushes a scope, then flushes with the closing call |
| NameParsing.NameParser.HandleOperatorOrPunctuator | include/mimic++/printing/type/NameParser.hpp:356-421 | one operator or punctuator is one specification step |
| NameParsing.NameParser.HandleKeyword | include/mimic++/printing/type/NameParser.hpp:423-445 | `operator` starts an operator identifier, `const`, `volatile` and `noexcept` mark the top frame, other keywords do nothing |
| NameParsing.NameParser.HandleOperatorToken | include/mimic++/printing/type/NameParser.hpp:447-490 | `handle_operator_token` is the specification's operator-name step |
| NameParsing.NameParser.SkipSpace | include/mimic++/printing/type/NameParser.hpp:451-454 | skips one space token iff the lexer shows one next |
| NameParsing.NameParser.ReadOperatorSymbol | include/mimic++/printing/type/NameParser.hpp:457-482 | reads the closing half of `()` or `[]` and fails on any other token |
| ParserTokens.Merge | include/mimic++/printing/type/NameParserTokens.hpp:161-168 | the merged layer is const iff either layer is, and volatile iff either layer is |
| ParserTokens.Scopes | include/mimic++/printing/type/NameParserTokens.hpp:387-393 | a scope sequence holds at least one scope, starting with the first |
| ParserTokens.BalancedAppend | include/mimic++/printing/type/NameParserTokens.hpp:24-63 | two runs of visitor calls in which every begin is matched by its end concatenate to such a run |
| ParserTokens.Wrapped | include/mimic++/printing/type/NameParserTokens.hpp:24-63 | a balanced run between an opening and a closing call is enclosed: its depth returns to zero only at the end |
| ParserTokens.EnclosedTopLevel | include/mimic++/printing/type/NameParserTokens.hpp:24-63 | inside an enclosed run nothing but the opening call is at the outer level |
| ParserTokens.SpecsFlat | include/mimic++/printing/type/NameParserTokens.hpp:204-238 | the specs make only qualifier and pointer calls, so they nest trivially |
| ParserTokens.TypeEnclosed | include/mimic++/printing/type/NameParserTokens.hpp:528-552 | a type's walk is one enclosed run that starts with `begin_type` or `begin_function` |
| ParserTokens.RegularTypeEnclosed | include/mimic++/printing/type/NameParserTokens.hpp:426-450 | a regular type's walk is enclosed by `begin_type` … `end_type` |
| ParserTokens.FunctionTypeEnclosed | include/mimic++/printing/type/NameParserTokens.hpp:452-475 | a function type's walk is enclosed by `begin_function` … `end_function` |
| ParserTokens.FunctionPtrTypeEnclosed | include/mimic++/printing/type/NameParserTokens.hpp:492-526 | a function-pointer type's walk is enclosed by `begin_type` … `end_type`, with the pointer part enclosed inside |
| ParserTokens.IdentifierBalanced | include/mimic++/printing/type/NameParserTokens.hpp:304-353 | an identifier's walk, with its operator brackets and template arguments, is balanced |
| ParserTokens.ArgsBalanced | include/mimic++/printing/type/NameParserTokens.hpp:561-576 | the argument sequence's walk is balanced and makes one `add_arg` fewer than there are types, outside every nested pair |
| ParserTokens.ContextBalanced | include/mimic++/printing/type/NameParserTokens.hpp:355-369 | the function context's walk is balanced |
| ParserTokens.FunctionIdentifierBalanced | include/mimic++/printing/type/NameParserTokens.hpp:371-385 | the function identifier's walk is balanced |
| ParserTokens.ScopeEnclosed | include/mimic++/printing/type/NameParserTokens.hpp:399-423 | each scope is enclosed by `begin_scope` … `end_scope` |
| ParserTokens.ScopeSequenceBalanced | include/mimic++/printing/type/NameParserTokens.hpp:394-408 | the scope sequence's walk is balanced and makes one `begin_scope` per scope at its own level |
| ParserTokens.FunctionEnclosed | include/mimic++/printing/type/NameParserTokens.hpp:588-618 | a function's walk is enclosed by `begin_function` … `end_function` |
| ParserTokens.WholeEnclosed | include/mimic++/printing/type/NameParserTokens.hpp:620-637 | `WholeCalls` and the other `*Calls` walks, i.e. the tokens' visitor `operator()`s: walking the whole name makes `begin` first and `end` last, and every pair opened in between is closed in between, innermost first |
| ParserTokens.IsTemplateCalls | include/mimic++/printing/type/NameParserTokens.hpp:290-294 | `is_template` holds iff the identifier's walk ends with `end_template_args` |
| ParserTokens.IsVoidCalls | include/mimic++/printing/type/NameParserTokens.hpp:296-302 | `Identifier::is_void` holds iff the identifier's walk starts by adding the name "void" |
| ParserTokens.PtrCount | include/mimic++/printing/type/NameParserTokens.hpp:212-218 | each layer after the first is announced by one `add_ptr` |
| ParserTokens.HasPtrCalls | include/mimic++/printing/type/NameParserTokens.hpp:199-203 | `has_ptr` holds iff the specs' walk adds a pointer |
| ParserTokens.MergeCalls | include/mimic++/printing/type/NameParserTokens.hpp:161-185 | when no flag is set on both layers, the merged layer makes exactly the calls of both |
| ParserTokens.TrailingLayer | include/mimic++/printing/type/NameParserTokens.hpp:171-185 | the layer read back off the end of a run of calls, within its length |
| ParserTokens.LayersRoundTrip | include/mimic++/printing/type/NameParserTokens.hpp:210-218 | the layers can be read back from their calls |
| ParserTokens.SpecsRoundTrip | include/mimic++/printing/type/NameParserTokens.hpp:204-238 | the specs (layers, reference, noexcept) can be read back from their walk |
| ParserTokens.Extend | include/mimic++/printing/type/NameParserTokens.hpp:387-392 | adding a scope appends it behind the others |
| ParserTokens.ExtendCalls | include/mimic++/printing/type/NameParserTokens.hpp:394-408 | an added scope is walked after the ones before it |
| ParserTokens.AppendArgCalls | include/mimic++/printing/type/NameParserTokens.hpp:561-576 | a type added to a non-empty argument sequence is walked after an `add_arg` |
| ParserTokens.TemplateCalls | include/mimic++/printing/type/NameParserTokens.hpp:304-318 | giving an identifier template arguments appends their walk between `begin_template_args` and `end_template_args` |
| ParserReductions.IsSuffixOfMeans | include/mimic++/printing/type/NameParserReductions.hpp:23-55 | `is_suffix_of<T1..Tk>` holds exactly when the stack has at least k tokens and its top k hold T1..Tk from bottom to top |
| ParserReductions.SuffixLength | include/mimic++/printing/type/NameParserReductions.hpp:48-55 | the recursive comparison alone already implies the stack is long enough |
| ParserReductions.MatchSuffix | include/mimic++/printing/type/NameParserReductions.hpp:57-89 | `match_suffix` yields the top k tokens exactly when `is_suffix_of` holds; they are the stack's top and each holds its kind |
| ParserReductions.MatchTail | include/mimic++/printing/type/NameParserReductions.hpp:57-95 | tokens of the matched kinds pushed on any stack are what `match_suffix` returns, and removing that many leaves the stack below them |
| ParserReductions.RemoveSuffix | include/mimic++/printing/type/NameParserReductions.hpp:91-95 | the view keeps its bottom, shortened by exactly `count` tokens |
| ParserReductions.IgnoreSpace | include/mimic++/printing/type/NameParserReductions.hpp:97-103 | the view is unchanged, or a space on top is dropped; it only ever shrinks from the top |
| ParserReductions.IgnoreReservedIdentifier | include/mimic++/printing/type/NameParserReductions.hpp:105-113 | the view is unchanged, or a reserved identifier on top is dropped |
| ParserReductions.ScopeSequenceReduction | include/mimic++/printing/type/NameParserReductions.hpp:119-157 | a successful reduction rewrites the stack's top into fewer tokens |
| ParserReductions.ScopeSequenceApplies | include/mimic++/printing/type/NameParserReductions.hpp:119-157 | the reduction applies exactly when `::` is on top of an identifier or a function identifier |
| ParserReductions.ScopeSequenceExtends | include/mimic++/printing/type/NameParserReductions.hpp:119-157 | the new scope is appended to a scope sequence directly below, whose visitor walk is extended by the scope's; otherwise a sequence of that scope alone replaces the two tokens |
| ParserReductions.ArgSequenceReduction | include/mimic++/printing/type/NameParserReductions.hpp:159-187 | a successful reduction rewrites the stack's top into no more tokens |
| ParserReductions.ArgSequenceApplies | include/mimic++/printing/type/NameParserReductions.hpp:159-187 | the reduction applies exactly when a type is on top |
| ParserReductions.ArgSequenceJoins | include/mimic++/printing/type/NameParserReductions.hpp:162-172 | after `ArgSequence ,` the type is appended to the sequence, whose walk gains one `add_arg` and the type's calls |
| ParserReductions.ArgSequenceStarts | include/mimic++/printing/type/NameParserReductions.hpp:174-184 | a type anywhere else starts a one-element argument sequence walked as that type |
| ParserReductions.TemplateIdentifierReduction | include/mimic++/printing/type/NameParserReductions.hpp:189-228 | a successful reduction rewrites the stack's top into fewer tokens |
| ParserReductions.TemplateIdentifierApplies | include/mimic++/printing/type/NameParserReductions.hpp:189-228 | the reduction applies exactly to `Identifier < ArgSequence? >` whose identifier has no template arguments yet |
| ParserReductions.TemplateIdentifierGivesArgs | include/mimic++/printing/type/NameParserReductions.hpp:189-228 | the identifier takes the (possibly empty) arguments between the angles and becomes a template identifier in place of the whole suffix |
| ParserReductions.ContextArgs | include/mimic++/printing/type/NameParserReductions.hpp:256-266 | a sole `void` argument stands for no arguments, and otherwise the arguments are kept |
| ParserReductions.FunctionContextReduction | include/mimic++/printing/type/NameParserReductions.hpp:230-273 | a successful reduction rewrites the stack's top into fewer tokens |
| ParserReductions.FunctionContextApplies | include/mimic++/printing/type/NameParserReductions.hpp:230-273 | `( ArgSequence? )` reduces exactly when it does not directly follow `::` or a scope sequence |
| ParserReductions.FunctionIdentifierReduction | include/mimic++/printing/type/NameParserReductions.hpp:275-301 | a successful reduction rewrites the stack's top into fewer tokens |
| ParserReductions.FunctionIdentifierApplies | include/mimic++/printing/type/NameParserReductions.hpp:275-301 | once a space and then a reserved identifier on top are set aside, the reduction applies exactly to `Identifier FunctionContext` |
| ParserReductions.LastOfIsLast | include/mimic++/printing/type/NameParserReductions.hpp:318-348 | the search finds a token of the opening kind with none above it, or reports none when no token has that kind |
| ParserReductions.PlaceholderReduction | include/mimic++/printing/type/NameParserReductions.hpp:318-348 | a successful reduction rewrites the stack's top into fewer tokens, ending in one identifier holding the wrapped text |
| ParserReductions.FunctionTypeReduction | include/mimic++/printing/type/NameParserReductions.hpp:350-397 | a successful reduction rewrites the stack's top into fewer tokens |
| ParserReductions.NestedPart | include/mimic++/printing/type/NameParserReductions.hpp:406-420 | the nested-function part taken from the stack leaves only a bottom part of it |
| ParserReductions.PtrPart | include/mimic++/printing/type/NameParserReductions.hpp:421-499 | the pointer part found carries a pointer layer and leaves a strictly shorter bottom part of the stack |
| ParserReductions.FunctionPtrReduction | include/mimic++/printing/type/NameParserReductions.hpp:399-500 | a successful reduction shrinks the stack to a function-pointer token whose specs hold a pointer |
| ParserReductions.ApplyFunctionPtrType | include/mimic++/printing/type/NameParserReductions.hpp:507-543 | the function-pointer type, with any nested function reduced around it, is one type token pushed on the rest of the stack |
| ParserReductions.FunctionPtrTypeReduction | include/mimic++/printing/type/NameParserReductions.hpp:507-543 | a successful reduction shrinks the stack to one ending in a type |
| ParserReductions.NestedPtrTypeAgrees | include/mimic++/printing/type/NameParserReductions.hpp:545-570 | pushing a nested function pointer and its context back and reducing again gives the same stack as applying the nested type directly |
| ParserReductions.NestedFunctionTypeAgrees | include/mimic++/printing/type/NameParserReductions.hpp:545-570 | pushing a nested function context back and reducing again makes the function type of the return type on top |
| ParserReductions.RegularTypeReduction | include/mimic++/printing/type/NameParserReductions.hpp:573-644 | a successful reduction leaves a stack, no longer than before, ending in a type |
| ParserReductions.RegularTypeForms | include/mimic++/printing/type/NameParserReductions.hpp:573-644 | the type forms around the identifier on top with prefix specs of at most one cv-layer, unless that identifier is reserved and follows a type, when it is dropped |
| ParserReductions.RegularTypeNotAdjacent | include/mimic++/printing/type/NameParserReductions.hpp:573-644 | a non-reserved identifier directly after a type or a function context never reduces to a regular type |
| ParserReductions.TypeReduction | include/mimic++/printing/type/NameParserReductions.hpp:646-651 | a successful reduction leaves a stack ending in a type, no longer than before |
| ParserReductions.FunctionReduction | include/mimic++/printing/type/NameParserReductions.hpp:653-685 | a successful reduction leaves a stack ending in the finished function, no longer than before |
| ParserReductions.ConversionOperatorReduction | include/mimic++/printing/type/NameParserReductions.hpp:687-713 | the result ends in an operator identifier naming the target type, joined with the context into a function identifier when a context was on top |
| ParserReductions.NameConversionNamesType | include/mimic++/printing/type/NameParserReductions.hpp:687-713 | `operator Type` is replaced by an operator identifier naming that type, or by a function identifier of it and the context |
| ParserReductions.ConversionContext | include/mimic++/printing/type/NameParserReductions.hpp:706-712 | an operator identifier with a context pushed on it reduces to a function identifier of the two |
| ParserReductions.SpecsReduction | include/mimic++/printing/type/NameParserReductions.hpp:716-749 | the stack ends in a token that carries specs; a top that already carries them is kept, and fresh specs are pushed when nothing on top can carry them |
| ParserReductions.EmplaceSpecs | include/mimic++/printing/type/NameParserReductions.hpp:738-748 | the stack is kept when its top carries specs, and otherwise gains a fresh `Specs` token |
| ParserReductions.TokenStack.ReduceAsScopeSequence | include/mimic++/printing/type/NameParserReductions.hpp:119-157 | reports success exactly when the reduction applies, and the stack becomes its result, else stays as it was |
| ParserReductions.TokenStack.ReduceAsArgSequence | include/mimic++/printing/type/NameParserReductions.hpp:159-187 | reports success exactly when the reduction applies, and the stack becomes its result, else stays as it was |
| ParserReductions.TokenStack.ReduceAsTemplateIdentifier | include/mimic++/printing/type/NameParserReductions.hpp:189-228 | reports success exactly when the reduction applies, and the stack becomes its result, else stays as it was |
| ParserReductions.TokenStack.ReduceAsFunctionContext | include/mimic++/printing/type/NameParserReductions.hpp:230-273 | reports success exactly when the reduction applies, and the stack becomes its result, else stays as it was |
| ParserReductions.TokenStack.ReduceAsFunctionIdentifier | include/mimic++/printing/type/NameParserReductions.hpp:275-301 | reports success exactly when the reduction applies, and the stack becomes its result, else stays as it was |
| ParserReductions.TokenStack.ReduceAsPlaceholderIdentifierWrapped | include/mimic++/printing/type/NameParserReductions.hpp:318-348 | reports success exactly when the reduction applies, and the stack becomes its result, else stays as it was |
| ParserReductions.TokenStack.ReduceAsFunctionType | include/mimic++/printing/type/NameParserReductions.hpp:350-397 | reports success exactly when the reduction applies, and the stack becomes its result, else stays as it was |
| ParserReductions.TokenStack.ReduceAsFunctionPtr | include/mimic++/printing/type/NameParserReductions.hpp:399-500 | reports success exactly when the reduction applies, and the stack becomes its result, else stays as it was |
| ParserReductions.TokenStack.ReduceAsFunctionPtrType | include/mimic++/printing/type/NameParserReductions.hpp:507-543 | reports success exactly when the reduction applies, and the stack becomes its result, with nested pointers reduced in turn |
| ParserReductions.TokenStack.HandleNestedFunctionPtr | include/mimic++/printing/type/NameParserReductions.hpp:545-570 | the return type on top is wrapped in the nested function (pointer) type |
| ParserReductions.TokenStack.ReduceAsRegularType | include/mimic++/printing/type/NameParserReductions.hpp:573-644 | reports success exactly when the reduction applies, and the stack becomes its result, else stays as it was |
| ParserReductions.TokenStack.ReduceAsType | include/mimic++/printing/type/NameParserReductions.hpp:646-651 | reports success exactly when one of the three type reductions applies, and the stack becomes its result |
| ParserReductions.TokenStack.ReduceAsFunction | include/mimic++/printing/type/NameParserReductions.hpp:653-685 | reports success exactly when the reduction applies, and the stack becomes its result, else stays as it was |
| ParserReductions.TokenStack.ReduceAsConversionOperatorFunctionIdentifier | include/mimic++/printing/type/NameParserReductions.hpp:687-713 | the stack becomes the conversion-operator reduction of the old one |
| ParserReductions.TokenStack.GetOrEmplaceSpecs | include/mimic++/printing/type/NameParserReductions.hpp:716-749 | the stack becomes the specs reduction of the old one and the returned specs are those of its new top |
| ParserReductions.FindLast | include/mimic++/printing/type/NameParserReductions.hpp:322-330 | the downward search returns the position of the last token of the kind, as `LastOf` defines it |
| ParserReductions.TokenStack.NameConversionInPlace | include/mimic++/printing/type/NameParserReductions.hpp:687-713 | once the target type is reduced, the stack becomes the operator identifier naming it, joined with the context when there is one |
| ParserReductions.TokenStack.AttachContextInPlace | include/mimic++/printing/type/NameParserReductions.hpp:706-712 | the context is pushed back and a function identifier reduction is tried on it |
| Parser2.MergeKeepsFlags | include/mimic++/printing/type/NamerParser2.hpp:148-164 | `Merge`, i.e. `Layer::merge`: merging two layers that pass its assertions loses no qualifier flag and keeps a single kind of reference |
| Parser2.MergeLaws | include/mimic++/printing/type/NamerParser2.hpp:148-164 | merging is commutative and the empty layer is its identity |
| Parser2.LongestSuffixBound | include/mimic++/printing/type/NamerParser2.hpp:441-472 | `LongestSuffix`, i.e. `determine_longest_suffix`: the longest matching suffix is no longer than the kinds asked for nor than the stack |
| Parser2.LongestSuffixHolds | include/mimic++/printing/type/NamerParser2.hpp:441-472 | every counted token holds its kind, matched from the top down against the kinds from the end |
| Parser2.LongestSuffixStops | include/mimic++/printing/type/NamerParser2.hpp:441-472 | the count stops exactly at the first token that does not hold its kind |
| Parser2.LongestSuffixOfTail | include/mimic++/printing/type/NamerParser2.hpp:441-472 | tokens holding all the kinds, pushed on any stack, are counted in full |
| Parser2.LongestSuffixFull | include/mimic++/printing/type/NamerParser2.hpp:441-472 | the count equals the number of kinds exactly when the topmost tokens hold all of them in order |
| Parser2.TopIsSuffix | include/mimic++/printing/type/NamerParser2.hpp:441-472 | a suffix of length one matches exactly when the top token holds the kind |
| Parser2.Below | include/mimic++/printing/type/NamerParser2.hpp:643-698 | the stack with an optional token of the kind taken off its top, and otherwise unchanged |
| Parser2.RewritesFilled | include/mimic++/printing/type/NamerParser2.hpp:395-417 | a rewrite whose new top is no empty argument list keeps every argument list non-empty |
| Parser2.SpecsPtrCount | include/mimic++/printing/type/NamerParser2.hpp:167-215 | a specs token reports one `add_ptr` per layer after the first |
| Parser2.LayerMakesNoPtr | include/mimic++/printing/type/NamerParser2.hpp:148-164 | a single layer reports no `add_ptr` |
| Parser2.NameScopeCount | include/mimic++/printing/type/NamerParser2.hpp:117-135 | a name reports one `add_scope` between each two of its scopes |
| Parser2.ArgListReduction | include/mimic++/printing/type/NamerParser2.hpp:559-583 | the reduction applies exactly when a type is on top, and leaves a non-empty argument list ending in that type |
| Parser2.ArgListJoins | include/mimic++/printing/type/NamerParser2.hpp:559-583 | `ArgList , Type` appends the type to the list |
| Parser2.ArgListStarts | include/mimic++/printing/type/NamerParser2.hpp:559-583 | a type with no `ArgList ,` below it starts a list of its own |
| Parser2.TemplateReduction | include/mimic++/printing/type/NamerParser2.hpp:585-612 | a successful reduction consumed a closing angle and leaves a template directly above a name |
| Parser2.TemplateWithArgsForms | include/mimic++/printing/type/NamerParser2.hpp:585-612 | `Name < ArgList >` becomes the name followed by a template of those arguments |
| Parser2.TemplateWithoutArgsForms | include/mimic++/printing/type/NamerParser2.hpp:585-612 | `Name < >` becomes the name followed by an empty template |
| Parser2.FunctionArgsReduction | include/mimic++/printing/type/NamerParser2.hpp:614-641 | a successful reduction consumed a closing parenthesis and leaves function arguments on top |
| Parser2.FunctionArgsWithTypesForms | include/mimic++/printing/type/NamerParser2.hpp:614-641 | `( ArgList )` becomes function arguments of that list |
| Parser2.FunctionArgsWithoutTypesForms | include/mimic++/printing/type/NamerParser2.hpp:614-641 | `( )` becomes empty function arguments |
| Parser2.FunctionReduction | include/mimic++/printing/type/NamerParser2.hpp:643-698 | the reduction applies exactly when function arguments are on top, under optional specs, and leaves a function type on top |
| Parser2.FunctionForms | include/mimic++/printing/type/NamerParser2.hpp:643-698 | `ret name(args)` becomes a function type with that return type, name and arguments |
| Parser2.RegularTypeReduction | include/mimic++/printing/type/NamerParser2.hpp:700-751 | the reduction applies exactly when a name is on top, under an optional template and optional specs, and leaves a regular type on top |
| Parser2.PrefixSpecsMerge | include/mimic++/printing/type/NamerParser2.hpp:700-751 | a prefix specs token (`const T`) is merged into the first layer of the type's specs |
| Parser2.TypeReduction | include/mimic++/printing/type/NamerParser2.hpp:753-757 | the reduction applies exactly when the function or the regular-type reduction does, and leaves a type on top |
| Parser2.TypeOrSame | include/mimic++/printing/type/NamerParser2.hpp:753-757 | the stack is unchanged or rewritten to end in a type |
| Parser2.ArgOrSame | include/mimic++/printing/type/NamerParser2.hpp:886-892 | the stack is unchanged or rewritten to end in a non-empty argument list |
| Parser2.NameReduction | include/mimic++/printing/type/NamerParser2.hpp:759-784 | the stack ends in a name whose last scope is the one reduced |
| Parser2.NameExtends | include/mimic++/printing/type/NamerParser2.hpp:759-784 | `Name :: x` appends the scope `x` to the name |
| Parser2.NameDropsLeadingScope | include/mimic++/printing/type/NamerParser2.hpp:759-784 | a leading `::` with no name below it is dropped and the scope starts a new name |
| Parser2.NoTypeAtScopeResolution | include/mimic++/printing/type/NamerParser2.hpp:753-784 | no type is reduced while a `::` is on top |
| Parser2.SpecsReduction | include/mimic++/printing/type/NamerParser2.hpp:807-819 | the layer is merged into the last layer of the specs on top, all other layers kept, or it becomes a new one-layer specs token |
| Parser2.SpecsLayerReduction | include/mimic++/printing/type/NamerParser2.hpp:821-834 | a `*` adds an empty layer to the specs on top, or pushes new specs with two empty layers |
| Parser2.MemberFunctionPtrReduction | include/mimic++/printing/type/NamerParser2.hpp:836-856 | a successful reduction consumed a closing parenthesis and leaves a function pointer on top |
| Parser2.FreeFunctionPtrReduction | include/mimic++/printing/type/NamerParser2.hpp:858-874 | a successful reduction consumed a closing parenthesis and leaves a function pointer without scopes on top |
| Parser2.FunctionPtrReduction | include/mimic++/printing/type/NamerParser2.hpp:876-880 | a successful reduction leaves a function pointer on top |
| Parser2.FinishName | include/mimic++/printing/type/NamerParser2.hpp:485-507 | a lone name at the end is a regular type without specs |
| Parser2.StepKeepsFilled | include/mimic++/printing/type/NamerParser2.hpp:485-507 | `Step` (with `OperatorStep` and `CloseParensStep`), i.e. one token of the parse loop: handling any token keeps every argument list non-empty, so the template and function-argument assertions hold |
| Parser2.ConsumeKeepsFilled | include/mimic++/printing/type/NamerParser2.hpp:485-507 | handling the whole token stream keeps every argument list non-empty |
| Parser2.NameParser.TryReduceAsArgList | include/mimic++/printing/type/NamerParser2.hpp:559-583 | reports success exactly when the reduction applies; the stack becomes its result, else stays as it was |
| Parser2.NameParser.TryReduceAsTemplate | include/mimic++/printing/type/NamerParser2.hpp:585-612 | reports success exactly when the reduction applies; the stack becomes its result, else stays as it was |
| Parser2.NameParser.TryReduceAsFunctionArgs | include/mimic++/printing/type/NamerParser2.hpp:614-641 | reports success exactly when the reduction applies; the stack becomes its result, else stays as it was |
| Parser2.NameParser.TryReduceAsFunction | include/mimic++/printing/type/NamerParser2.hpp:643-698 | reports success exactly when the reduction applies; the stack becomes its result, else stays as it was |
| Parser2.NameParser.TryReduceAsRegularType | include/mimic++/printing/type/NamerParser2.hpp:700-751 | reports success exactly when the reduction applies; the stack becomes its result, else stays as it was |
| Parser2.NameParser.TryReduceAsType | include/mimic++/printing/type/NamerParser2.hpp:753-757 | reports success exactly when a type reduction applies, and the stack becomes its result |
| Parser2.NameParser.ReduceAsName | include/mimic++/printing/type/NamerParser2.hpp:759-784 | the stack becomes the name reduction of the old one |
| Parser2.NameParser.HandleSpace | include/mimic++/printing/type/NamerParser2.hpp:786-797 | the stack becomes the space step of the old one, given the next token |
| Parser2.NameParser.ReduceAsSpecs | include/mimic++/printing/type/NamerParser2.hpp:807-819 | the stack becomes the specs reduction of the old one |
| Parser2.NameParser.ReduceAsSpecsLayer | include/mimic++/printing/type/NamerParser2.hpp:821-834 | the stack becomes the specs-layer reduction of the old one |
| Parser2.NameParser.TryReduceAsMemberFunctionPtr | include/mimic++/printing/type/NamerParser2.hpp:836-856 | reports success exactly when the reduction applies; the stack becomes its result, else stays as it was |
| Parser2.NameParser.TryReduceAsFreeFunctionPtr | include/mimic++/printing/type/NamerParser2.hpp:858-874 | reports success exactly when the reduction applies; the stack becomes its result, else stays as it was |
| Parser2.NameParser.TryReduceAsFunctionPtr | include/mimic++/printing/type/NamerParser2.hpp:876-880 | reports success exactly when either pointer reduction applies; the stack becomes its result |
| Parser2.NameParser.HandleOperator | include/mimic++/printing/type/NamerParser2.hpp:882-955 | the stack becomes the operator step of the old one, given the token and the next one |
| Parser2.NameParser.HandleKeyword | include/mimic++/printing/type/NamerParser2.hpp:957-971 | the stack becomes the keyword step of the old one |
| Parser2.NameParser.Run | include/mimic++/printing/type/NamerParser2.hpp:485-507 | the visitor calls reported are those `ParseInput` (the token loop, then `Finish`) defines, or none when the end state is not a single type |
| Parser2.NameParser.TryReduceAsTypeAndArgList | include/mimic++/printing/type/NamerParser2.hpp:888-892 | the stack becomes the type-then-argument-list reduction of the old one, which leaves it unchanged or ending in a non-empty argument list |
| Parser2.NameParser.HandleCloseParens | include/mimic++/printing/type/NamerParser2.hpp:911-926 | the stack becomes the closing-parenthesis step of the old one: a function pointer when `(` follows and the pointer reduction applies, else function arguments when they apply |
| Parser2.NameParser.HandleCloseAngle | include/mimic++/printing/type/NamerParser2.hpp:931-938 | the pending type joins the argument list, a closing angle is pushed and a template is reduced when it applies |
| Parser2.NameParser.constructor | include/mimic++/printing/type/NamerParser2.hpp:477-482 | the token stack starts empty and the lexer starts on the whole name |
| PrintTypes.BaseName | include/mimic++/printing/type/PrintType.hpp:169-203 | `BaseName`, i.e. `print_type_to`'s chain: the name comes from the highest-priority printer that exists for the type, every higher one being absent |
| PrintTypes.CvTextInjective | include/mimic++/printing/type/PrintType.hpp:219-258 | the text written for a cv-qualification tells which qualification it was |
| PrintTypes.Innermost | include/mimic++/printing/type/PrintType.hpp:207-217 | the type a printer finally names carries no declarator operator |
| PrintTypes.Specialisation | include/mimic++/printing/type/PrintType.hpp:219-340 | exactly the types with a declarator operator match a partial specialisation, which names a strictly smaller type with the same innermost type |
| PrintTypes.Write | include/mimic++/printing/type/PrintType.hpp:205-217 | writing a name only appends to the output |
| PrintTypes.WriteAppends | include/mimic++/printing/type/PrintType.hpp:345-363 | writing to an output iterator appends exactly the text that `print_type` returns, so the two overloads agree |
| PrintTypes.PrintSuffixRules | include/mimic++/printing/type/PrintType.hpp:219-340 | `Print`, i.e. `print_type_helper`: each declarator operator appends its spelling (cv, `&`, `&&`, `*`, `[]`, `[n]`) to the name of the type it applies to, and `T[n][m]` appends `[m]` to the name of `T[n]` |
| PrintTypes.PrintStartsWithBase | include/mimic++/printing/type/PrintType.hpp:207-217 | a printed name starts with the name of the innermost type |
| PrintTypes.DeclaratorsIgnorePrinters | include/mimic++/printing/type/PrintType.hpp:219-340 | the declarator text after the base name depends only on the type's shape, never on which printer named the base |
| PrintTypes.TwoDimensionalKeepsOrder | include/mimic++/printing/type/PrintType.hpp:326-340 | a two-dimensional array `E[n][m]` prints its bounds in the order they are written |
| PrintTypes.ThreeDimensionsSwapped | include/mimic++/printing/type/PrintType.hpp:326-340 | as written, `int[1][2][3]` prints as `int[1][3][2]`, not in its declared order |
| PrintTypes.UnboundedOuterSwapped | include/mimic++/printing/type/PrintType.hpp:299-310 | as written, `int[][2]` prints as `int[2][]`, not in its declared order |
| PrintTypes.ArrayElement | include/mimic++/printing/type/PrintType.hpp:299-340 | the element type of an array run is no array and is strictly smaller than the array |
| PrintTypes.InOrderSpecialisation | include/mimic++/printing/type/PrintType.hpp:299-340 | the corrected split matches exactly the types with a declarator operator and names a strictly smaller type |
| PrintTypes.WriteInOrder | include/mimic++/printing/type/PrintType.hpp:299-340 | the corrected writer only appends to the output |
| PrintTypes.InOrderKeepsDeclaredOrder | include/mimic++/printing/type/PrintType.hpp:299-340 | with the corrected array rule every array prints its bounds in the order its declaration spells them, however many there are |
| PrintTypes.InOrderAgreesOnShallowArrays | include/mimic++/printing/type/PrintType.hpp:299-340 | the correction changes nothing for the arrays the source already prints in order |
| TypePrinting.BeforeFirst | include/mimic++/printing/TypePrinter.hpp:396-398 | the text kept is a prefix without `c`, ending just before the first `c` when there is one |
| TypePrinting.Write | include/mimic++/printing/TypePrinter.hpp:205-215 | writing a name only appends to the output |
| TypePrinting.WriteAppends | include/mimic++/printing/TypePrinter.hpp:300-318 | writing to an output iterator appends exactly the text that `print_type` returns |
| TypePrinting.PrintSuffixRules | include/mimic++/printing/TypePrinter.hpp:216-297 | `Print`, i.e. `print_type_helper`: `const T` appends " const" (likewise volatile), `T&` one `&`, `T&&` two, `T*` one `*` to the name of `T` |
| TypePrinting.ArrayQualifierFollowsArray | include/mimic++/printing/TypePrinter.hpp:216-257 | an array of cv-qualified elements prints the qualifier after the whole array's demangled name, because the cv-specialisations lack a non-array constraint |
| TypePrinting.SignatureShape | include/mimic++/printing/TypePrinter.hpp:328-379 | for a printable signature (`Printable`: no variadic function type anywhere in it, since `signature_param_list` at include/mimic++/TypeTraits.hpp:1132-1145 has no variadic specialisation), it prints as `R(P1, P2, ...)` with the parameters joined by ", ", then " const", " &" or " &&", and " noexcept", and `R()` without parameters |
| TypePrinting.QualifiersRoundTrip | include/mimic++/printing/TypePrinter.hpp:358-376 | the qualifier text of a signature tells which qualifiers it has: reading it back gives them again |
| TypePrinting.SignatureOmitsConvention | include/mimic++/printing/TypePrinter.hpp:328-379 | printable signatures differing only in the call convention print alike |
| TypePrinting.TemplateShape | include/mimic++/printing/TypePrinter.hpp:382-401 | a class template prints as its demangled name before the first `<` followed by its printed arguments joined by ", " in angle brackets |
| TypePrinting.ContainerNames | include/mimic++/printing/TypePrinter.hpp:555-598 | `CommonName` and `BaseName`, i.e. the common printer ahead of the others: `std::vector`, `std::pmr::vector` and `std::array` are named after their printed element type (and bound), ahead of the template printer |
| TypePrinting.StringNamesDistinct | include/mimic++/printing/TypePrinter.hpp:453-553 | different standard string and string-view classes get different names |
| Algorithm.Zip | include/mimic++/utilities/Algorithm.hpp:55-61 | each target element paired with the control element at the same index, one pair per element |
| Algorithm.FailingMultiplicity | include/mimic++/utilities/Algorithm.hpp:67-74 | a pair occurs among the failing pairs as often as in the input when its control element fails the predicate, and never otherwise |
| Algorithm.FailingPermutation | include/mimic++/utilities/Algorithm.hpp:67-74 | permuting the pairs permutes the failing pairs |
| Algorithm.FailingOfPartitioned | include/mimic++/utilities/Algorithm.hpp:76 | on pairs that pass before `m` and fail from `m` on, the failing pairs are exactly the suffix from `m` |
| Algorithm.FailingEmpty | test/unit-tests/utilities/Algorithm.cpp:75-87 | no pair fails iff every control element satisfies the predicate |
| Algorithm.FindIfNot | include/mimic++/utilities/Algorithm.hpp:67-69 | the first index in `[from, to)` whose control element fails the predicate, or `to`: every element before it passes |
| Algorithm.SwapBoth | include/mimic++/utilities/Algorithm.hpp:71-73 | positions i and j exchanged in both ranges, which keeps every target element paired with its control element |
| Algorithm.PartitionBy | include/mimic++/utilities/Algorithm.hpp:55-77 | afterwards every control element before the returned midpoint passes and every one from it on fails; the target/control pairs are permuted alike; when every element passes, nothing changes and the result is empty |
| Algorithm.PartitionedSuffix | test/unit-tests/utilities/Algorithm.cpp:60-115 | the returned range holds exactly the pairs whose control element failed the predicate before the call, and it is empty iff every control element passed |
| Algorithm.CountAbsent | include/mimic++/utilities/Algorithm.hpp:106-112 | counting over a stretch without the token adds nothing |
| Algorithm.CountAppend | include/mimic++/utilities/Algorithm.hpp:140-148 | counting two pieces in turn counts their concatenation |
| Algorithm.Find | include/mimic++/utilities/Algorithm.hpp:100-112 | the first index of `x` in `[from, to)`, or `to`: no element before it equals `x` |
| Algorithm.ClosingStep | include/mimic++/utilities/Algorithm.hpp:106-112 | one loop round: the closing token just paired with an opening token is balanced, so no unbalanced closing token lies before the next one searched |
| Algorithm.FindClosingToken | include/mimic++/utilities/Algorithm.hpp:93-115 | the first closing token with more closing tokens up to it than opening tokens before it, or the end when there is none |
| Algorithm.CountAllAppend | include/mimic++/utilities/Algorithm.hpp:140-148 | counting all characters of a collection over two pieces in turn counts their concatenation |
| Algorithm.CountAllOf | include/mimic++/utilities/Algorithm.hpp:140-148 | the sum, over the characters of the collection, of their occurrences in the source |
| Algorithm.Search | include/mimic++/utilities/Algorithm.hpp:152 | the first occurrence of the token at or after `from`, or none when no position from `from` on holds it |
| Algorithm.FindNextUnwrappedToken | include/mimic++/utilities/Algorithm.hpp:133-170 | the running scope count of the loop gives the same answer as the scan by depth: the first match whose depth (opening characters before it minus closing characters up to its end) is zero, the assertion when a depth is negative, else nothing |
| Algorithm.DepthFromRunningCount | include/mimic++/utilities/Algorithm.hpp:156-157 | the running count updated by the text between the previous match and this one is this match's depth |
| Algorithm.DepthAfterMatch | include/mimic++/utilities/Algorithm.hpp:164 | adding the opening characters inside the match to its depth gives the running count behind the match |
| Algorithm.UnwrappedAt | include/mimic++/utilities/Algorithm.hpp:152-167 | one step of the scan: a negative depth asserts, zero returns the match, positive continues behind it |
| Algorithm.UnwrappedFound | include/mimic++/utilities/Algorithm.hpp:133-170 | a returned match is an occurrence of the token, spanning the token's length, at depth zero |
| Algorithm.FirstUnwrapped | test/unit-tests/utilities/Algorithm.cpp:182-250 | the first occurrence of a one-character token at or after `from` whose depth is not positive |
| Algorithm.FirstUnwrappedSkip | include/mimic++/utilities/Algorithm.hpp:152 | positions without the token character do not change the first unwrapped occurrence |
| Algorithm.UnwrappedCharacter | test/unit-tests/utilities/Algorithm.cpp:182-250 | for a one-character token the result is exactly the first occurrence not inside brackets (or the assertion when its depth is negative), and nothing when every occurrence is wrapped |
| Algorithm.SearchCharacter | include/mimic++/utilities/Algorithm.hpp:152 | searching for a one-character token finds the next position holding that character |
| Algorithm.LowerBound | test/unit-tests/utilities/Algorithm.cpp:252-301 | the first element the value is ordered at or before; every element before it is ordered before the value |
| Algorithm.LowerBoundSorted | test/unit-tests/utilities/Algorithm.cpp:252-301 | on a sorted table every element from the lower bound on is ordered at or after the value |
| Algorithm.PrefixOrdered | test/unit-tests/utilities/Algorithm.cpp:252-301 | a string is ordered at or after each of its prefixes |
| Algorithm.BeyondPrefixed | test/unit-tests/utilities/Algorithm.cpp:252-301 | a string ordered after a prefix without starting with it is ordered after every string that starts with it |
| Algorithm.PrefixedRun | test/unit-tests/utilities/Algorithm.cpp:252-301 | the number of leading elements that start with the prefix |
| Algorithm.PrefixRange | test/unit-tests/utilities/Algorithm.cpp:252-301 | a subrange `begin <= end <= size` of the table |
| Algorithm.PrefixRangeExact | test/unit-tests/utilities/Algorithm.cpp:252-301 | on a sorted table the range holds exactly the elements that start with the prefix (all of them for an empty prefix, none for an empty table) |
| Algorithm.BinaryFind | test/unit-tests/utilities/Algorithm.cpp:358-421 | the position of the value, or the end |
| Algorithm.BinaryFindExact | test/unit-tests/utilities/Algorithm.cpp:358-421 | on a sorted table the end is returned iff the value is absent |
| Algorithm.Contains | test/unit-tests/utilities/Algorithm.cpp:423-453 | true only for a value in the table |
| Algorithm.ContainsExact | test/unit-tests/utilities/Algorithm.cpp:423-453 | on a sorted table, true iff the value is in the table |
| Algorithm.ConcatArraysLayout | test/unit-tests/utilities/Algorithm.cpp:303-356 | element j of argument i sits behind all elements of the earlier arguments in the concatenation |

## Left out

- Thread safety: the `std::mutex` of `ExpectationCollection` is not modelled. The collection is single-threaded.
- `finalize_call` and the finalizer policies run user callables. `handle_call` ends with the consumption of the chosen expectation.
- Reporter side effects: the `[[noreturn]]` reporter calls are modelled as the last event of a call outcome.
- An exception thrown by a policy's `matches` is an outcome of that policy (`None`). It is not raised.
- `ControlPolicies.ControlPolicy.constructor`: a sequence already holding `INT_MAX` entries makes `Sequence::add` throw inside the `noexcept` `make_sequence_entries`, which terminates the program. The constructor requires room for one more entry instead of returning an error value.
- `std::format` rendering of stored values is an abstract text supplied with each value. The comparison matchers are modelled on integers, whose text is their decimal spelling.
- Floating-point matchers and `matches::instance` are not modelled: the first need floating point, the second compares object addresses.
- Unicode case folding of the string matchers is not modelled. Folding is ASCII `toupper` on each character.
- The string matchers' compile-time check that target and pattern share a character type has no run-time counterpart. Strings are `seq<char>`.
- `regex_replace_all`, `prettify_type_name` and `type_name` (demangling): the demangled name is a parameter of the printers (`Demangler`, `BasePrinters`). The fixed compiler-specific names of the msvc and gcc backends are left out.
- `detail::print_type_to` priority chain: a custom `TypePrinter` and the common, signature and template printers are parameters that may or may not exist for a type. Only their priority order is modelled.
- `TypePrinting.SignatureShape`: the source cannot print a variadic function type. `generate_name` reads the parameters through `signature_param_list_t`, which include/mimic++/TypeTraits.hpp:1132-1145 defines only for `Return(Params...)`, so `print_type<void(int, ...)>` does not compile. The printer functions therefore require `Printable`, and no printed form is given for such types. The printer also does not write the call convention, and the model states that too (`TypePrinting.SignatureOmitsConvention`).
- `PrintTypes`: the type is modelled with cv-qualifiers on array elements only (`CvOnElements`), which is how C++ normalises a cv-qualified array type.
- `GeneralMatchers.FormatDefined`: `Format` models only automatically numbered `{}` fields; indexed fields (`{0}`) and fields with a format spec (`{:x}`, `{0:>4}`), which `vformat` accepts, make formatting fail in the model, so a user format string using them describes nothing here.
- `Parser2.MergeKeepsFlags`: the assertions of `Layer::merge`, `Specs::has_ptr` and the prefix-specs size check are not enforced. The model states what they guarantee, for layers that pass them.
- `Parser2.NameParser.Run`: the end-state assertions (exactly one `Type` token) give `None` instead of aborting.
- `ParserReductions.TokenStack.ReduceAsPlaceholderIdentifierWrapped`: the token stack does not carry the input text, so the text between the opening and the closing token is a parameter.
- Visitor callbacks of the parsers are modelled as the list of calls they receive. Scopes keep their identifier text rather than a callback.
- `Stacktrace.hpp` and its backends: a stacktrace is an already printed text with an entry count.
- `ObjectWatcher.hpp`, `InterfaceMocking.hpp`, `ExpectationBuilder.hpp` and the `CallInterface` call operator are object-lifetime, macro and call-forwarding plumbing. They are not part of this model.
- `stringify_full_match` and `stringify_inapplicable_matches` are not part of this model. Only the no-match report is modelled, with the argument and requirement-description writers it uses.

## Findings

| source | as written | input that shows it | evidently intended | confidence | as-written member | corrected member |
|---|---|---|---|---|---|---|
| include/mimic++/printing/type/PrintType.hpp:326-340 | `T[n][m]` prints `print(T[n]) + "[m]"`, and `T[n]` is matched again as a whole, so deeper arrays put their inner bounds out of order | `int[1][2][3]` prints as `int[1][3][2]` | every array prints its bounds in declaration order | not executed | PrintTypes.ThreeDimensionsSwapped | PrintTypes.InOrderKeepsDeclaredOrder |
| include/mimic++/printing/type/PrintType.hpp:299-310 | `T[]` prints `print(T) + "[]"`, so an array of unknown bound of arrays puts `[]` last | `int[][2]` prints as `int[2][]` | `int[][2]` | not executed | PrintTypes.UnboundedOuterSwapped | PrintTypes.InOrderKeepsDeclaredOrder |
