# ash-rust: verified models

This project models the parts of ash-rust whose correctness depends on interleavings, three-valued
logic, nested scopes or exact arithmetic, and proves what they are for. `dafny verify dfyconfig.toml`
checks all of it.

| file | what it models |
|---|---|
| `Hub.dfy` | the GraphQL subscription hub: one shared execution per key, joined and left by many connections, as a transition system and as a class |
| `Resources.dfy`, `Filters.dfy`, `Like.dfy` | resources' policies, the filter language with its three-valued evaluation, its simplifying constructors, and `LIKE` |
| `Policies.dfy`, `PolicyRefinement.dfy`, `Guards.dfy` | policies compiled to filters and decided record by record, and client filters rewritten so that hidden fields read as null |
| `Atomic.dfy`, `Expressions.dfy`, `Translation.dfy`, `Planner.dfy`, `Validations.dfy`, `OperationLaws.dfy` | updates as one statement: its expressions, resource expressions translated to them, the planner, built-in validations as conditions, and what the evaluators' operations come to |
| `Notifications.dfy` | transactions, `Multi` pipelines and the notification queue |
| `Bulk.dfy`, `BulkRows.dfy`, `BulkActions.dfy` | bulk create, upsert and update: what an action comes to, what that is for each row, and the loops that do it |
| `Wrappers.dfy`, `Sequences.dfy`, `Powers.dfy`, `Arithmetic.dfy` | what several of the others use |
| `Values.dfy`, `TextOrder.dfy`, `Calendar.dfy`, `Timestamps.dfy`, `Decimals.dfy`, `EditDistance.dfy` | the value order, civil dates, timestamp text, decimal comparison, edit distance |
| `Tokens.dfy`, `Authentication.dfy`, `Sessions.dfy` | the token store, the authentication flows over it, and every run of them |
| `ResourceTokens.dfy` | the parser and printer that `resource!` transformers share |

What comes from outside is a parameter: the data layer's answers to each row, the clock, fresh ids,
password checks and hashing, lower-casing, the rounding of integers to floats, the Rust grammar of
types and meta items. Statements hold for all of them.

## Where the code does less than one might expect

Each of these is a proved statement about the code as it is, with the condition under which it does not
arise. Where that condition is exact, this says "exactly".

- `Multi::execute` makes its own notification queue even where one is already open, and sends what it
  holds as soon as the pipeline is done. Inside a transaction that then fails, notifiers have heard of
  writes that are gone (`PipelineNotifiesBeforeItsScopeCommits`). A failed transaction is silent exactly
  when no pipeline it reached had anything to send (`FailedScopeIsSilentExactlyWhenQuiet`). The comment
  on `execute` ties sending to the commit.
- For the same reason a pipeline overtakes what was queued before it: work that notifies and then runs a
  pipeline that notifies is heard in the other order (`PipelineOvertakes`). A transaction that succeeds
  notifies in program order where of any two parts in a row the first queued nothing or the second sent
  nothing of its own, and, if no two notifications are the same, exactly there
  (`OutermostScopeIsAllOrNothing`).
- A failure swallowed within a scope leaves what it queued (`SwallowedFailureStillNotifies`). A transaction
  that announces its writes and commits notifies of the rows it leaves stored exactly when no inner
  transaction failed with something queued (`NotifiesOfWhatIsStoredWithoutOrphans`).
- Rewriting a client's filter is redacting the record only for leaves that null does not decide: asking
  for `Eq` null (or excluding by `Ne` null or an empty `In`) on a hidden field finds nothing where the
  redacted record would match (`EqualsNullIsNotGuardedAsNull`). And a field that is shown by a condition
  that is unknown is not found by (`UndecidedConditionHidesAShownField`). `GuardedLeaf` says exactly when
  the two agree on a leaf.
- A rewritten filter can be answered by a hidden value, though the comment on `guard_input_filter` says it
  finds no records by values the actor cannot see. Where a field's condition is unknown, asking for a nil
  field finds the record whose hidden field is nil and not the one whose hidden field has a value
  (`NilLeafTellsHiddenValuesApart`). On a leaf whose field looks alike on two records, its condition too,
  `LeafTellsApart` says exactly when the two are told apart; for a leaf's own side it is this one case
  (`ExposedForItsSide`). A filter that crosses no relationship tells nothing hidden apart where the
  conditions come out alike on both records and there is no such leaf (`GuardTellsNothingHiddenApart`).
- The primary key is never guarded, and redacted where a policy hides it (`HiddenKeyIsFoundBy`).
- Across a relationship under an odd number of negations, a rewritten filter can find a record that does not
  match it as the client sees it, where a field's condition is unknown on the related record and null
  decides the leaf that asks of it (`NegatedCrossingFindsByAHiddenValue`). It does not where relationships
  are crossed under an even number of negations, whatever the conditions, nor across others where the
  conditions of such leaves are decided on the related records; leaves that null does not decide need no
  condition (`GuardFindsOnlyWhatIsSeen`). On a leaf, `LeafKeepsClaim` says exactly where each claim
  holds. Finding only what is seen is not telling nothing apart: excluding parents with a kid whose secret
  is 7 finds only parents that look like that, and still separates a hidden 7 from a hidden 8 where the
  condition is unknown (`NegatedCrossingTellsHiddenValuesApart`).
- A policy that forbids, or authorizes unless, by a check that is undecided on the record lets the
  single-record write through while its compiled filter does not match (`UndecidedNegationSeparatesThem`).
  The two agree exactly where a write that is authorized is clearly so: by a bypass, or by all the other
  policies, that forbid by no undecided check and authorize by a decided one
  (`WriteFilterRefinesAuthorization`).
- A created row whose after-action hook calls it stale stays stored without being counted
  (`StaleAfterCreateIsStoredUncounted`), exactly when its batch commits (`BulkCreateIsAtomic`).
- A batch with a transaction of its own that fails within an outer buffer leaves what it announced waiting there,
  of rows it rolled back (`FailedBatchAnnouncesWithinABuffer`). Every other counted or announced row is stored
  (`CountedAndAnnouncedAreStored`).
- An `atomic_update` change is planned over the record as stored, whatever changes before it set: setting
  a count to 5 and a total to one more than the count gives a total of 6 where the changes run one after
  another, and 2 in the statement if the count was 1 (`AtomicChangeReadsTheStoredRecord`). For the counter
  idiom the two agree exactly where its field has not moved (`CounterAgreesWhereUnmoved`).
- Nor do the two evaluate alike. Read first, `x == nil` is true of a nil `x`; in the statement it is nil,
  though no field has moved (`NilComparisonSeparatesThem`). An operation whose operands keep their values
  keeps its own exactly where `OperationKeeps` says: lengths and case of nil or text; joined parts that are
  not nil and are shown alike; integers or nil for arithmetic, which read first also adds texts; and for
  comparisons, operands that are not nil and on which the order by type says what the read-first
  comparison does (`TranslationKeepsTheValue`). So they agree where every operation that is evaluated
  keeps its value and every field that is read still has its stored value.
- Planning an update takes away the type by which an assigned field would be compared
  (`TypedComparisonSeparatesThem`). At a comparison, a test for being distinct or a membership test it makes
  no difference exactly when an operand is null or the answer is the same by both types
  (`ComparisonPlansAlike`, `DistinctPlansAlike`, `MemberPlansAlike`); values that are not text are compared
  alike whatever was set (`ComparisonWithoutTextIsPlannable`).
- The conditions a statement checks for the built-in validations are not those validations. A text that the
  statement computes may be of any length (`ComputedTextOfAnyLengthPasses`), and a decimal, which is stored
  as text, fails any maximum where a statement is evaluated in memory (`DecimalFailsAnyMaximum`).
  `ConditionsFailAsRecordsAreRejected` says exactly on which values they agree.
- A token stored under an id that was revoked just before is valid exactly when it has time to run: the
  flagged rows, or the tombstone, count for nothing (`TombstoneBlocksNothing`). Ids have to be fresh.
- A rotation spends the old refresh token before it reads the user: it leaves the sign-in a valid one
  exactly when the user is still there and the new token has time to run
  (`RotationLeavesATokenExactlyForAUser`).

## Model

| member | source | states |
|---|---|---|
| SubscriptionHub.NoMemberStranded | crates/ash-graphql/src/ws.rs:162-259 | in every interleaving, a subscribed member's execution was not aborted, and either still runs or has sent `Complete` after that member joined, as the last frame it receives |
| SubscriptionHub.SubscriberReceivesEveryResponse | crates/ash-graphql/src/ws.rs:162-237 | over every run of actions: a member subscribed from its join on has received exactly the responses its execution sent since, once each and in order, and `Complete` after them once the execution finished |
| SubscriptionHub.StepDelivers | crates/ash-graphql/src/ws.rs:208-237 | in any step a subscribed member receives exactly what its own execution says in it |
| SubscriptionHub.AbortReachesNobody | crates/ash-graphql/src/ws.rs:198-206 | once an abort is requested, nobody is subscribed to that execution, then or at any later time, and no entry leads to it |
| SubscriptionHub.EntriesAreAccountedFor | crates/ash-graphql/src/ws.rs:162-206 | each entry has a live receiver or a member of its key about to leave; the entries are the active executions, one for each key, with different generations |
| SubscriptionHub.EntryGoesOnlyWithItsStream | crates/ash-graphql/src/ws.rs:197-214 | an entry goes only because nobody is subscribed to its stream or because that very stream is ending: an old stream never removes its successor |
| SubscriptionHub.SubscribersShareOneExecution | crates/ash-graphql/src/ws.rs:162-195 | two members of one key whose executions are active have the same execution |
| SubscriptionHub.NothingOutlivesItsMembers | crates/ash-graphql/src/ws.rs:197-259 | once every member has fully left there is no entry, and an execution still streaming has had its abort requested |
| SubscriptionHub.RunIsMonotone | crates/ash-graphql/src/ws.rs:162-259 | over a run executions keep their key, requested aborts stay requested and channels only gain frames |
| SubscriptionHub.StepKeeps | crates/ash-graphql/src/ws.rs:162-259 | every atomic step keeps the inductive invariant |
| SubscriptionHub.RunKeeps | crates/ash-graphql/src/ws.rs:162-259 | every state of every run satisfies the invariant |
| SubscriptionHub.Hub.constructor | crates/ash-graphql/src/ws.rs:149-153 | a new hub is the initial state |
| SubscriptionHub.Hub.Join | crates/ash-graphql/src/ws.rs:162-195 | performs the join step: the new member is subscribed to the execution the entry of its key names |
| SubscriptionHub.Hub.ReceiverCount | crates/ash-graphql/src/ws.rs:201 | the count is zero exactly when no member of the generation is subscribed |
| SubscriptionHub.Hub.DropMember | crates/ash-graphql/src/ws.rs:254-259 | drops the receiver and only then leaves |
| SubscriptionHub.Hub.LeaveHub | crates/ash-graphql/src/ws.rs:197-206 | performs the leave step |
| SubscriptionHub.Hub.Send | crates/ash-graphql/src/ws.rs:228-233 | adds the response to the channel where somebody is subscribed, and ends the loop exactly where nobody is, the channel as it was |
| SubscriptionHub.Hub.Ended | crates/ash-graphql/src/ws.rs:208-214 | removes the entry only where the generation is still its own |
| SubscriptionHub.Hub.End | crates/ash-graphql/src/ws.rs:234-237 | the hub forgets the execution before its members are told `Complete` |
| Filters.ComputeAllOf | crates/ash-core/src/filter.rs:244-254 | the loop computes SQL `AND`: false wins, then unknown |
| Filters.ComputeAnyOf | crates/ash-core/src/filter.rs:257-267 | the loop computes SQL `OR`: true wins, then unknown |
| Filters.BuildAnd | crates/ash-core/src/filter.rs:132-147 | the loop builds the simplified conjunction |
| Filters.BuildOr | crates/ash-core/src/filter.rs:149-164 | the loop builds the simplified disjunction |
| Filters.ConstructorsKeepMeaning | crates/ash-core/src/filter.rs:132-164 | `and`, `or` and `!` mean `AND`, `OR` and `NOT` of the parts as given, unknown included, for every filter and record |
| Filters.LikeFiltersAreTextFilters | crates/ash-core/src/filter.rs:209-214 | where case matters, the patterns a plain needle makes evaluate as the starts-with, ends-with and contains filters, unknown included |
| Filters.ComparisonsOfIntegers | crates/ash-core/src/filter.rs:196-203 | on an integer field the six comparisons with an integer are those of the integers |
| Filters.ComparisonsAreOpposites | crates/ash-core/src/filter.rs:196-203 | for every field and value `Lte`, `Gte` and `Ne` negate `Gt`, `Lt` and `Eq`, unknown included; on a present field exactly one of less, greater and equal is true |
| Filters.InIsSomeEquality | crates/ash-core/src/filter.rs:204-207 | `In` is the `Or` of its equalities, each unknown of null, and true exactly where the field is one of the values |
| Filters.InIsPlainEqualityWithoutNull | crates/ash-core/src/filter.rs:204-207 | it is the `Or` of plain `Eq` filters exactly where null is not listed or another value is the field's |
| Filters.HasFindsAnItem | crates/ash-core/src/filter.rs:218-221 | `Has` is true exactly of arrays that hold the value, and unknown exactly of null |
| Filters.CaseIsIgnored | crates/ash-core/src/filter.rs:183-217 | `ILike`, and each text filter on a field that ignores case, asks of the lowered text with the lowered needle |
| Filters.TextIsSearched | crates/ash-core/src/filter.rs:209-213 | where case is minded, contains, starts with and ends with are the ways the text splits around the needle; no other value passes |
| Like.LikeMatches | crates/ash-core/src/filter.rs:286-326 | the rolling table answers whether the text splits into segments that fit the pattern's tokens, for every text and pattern |
| Like.NextRow | crates/ash-core/src/filter.rs:314-324 | one more character takes the row for the text so far to the row for the longer text |
| Like.FirstRow | crates/ash-core/src/filter.rs:306-313 | the row for the empty text |
| Like.Tokenize | crates/ash-core/src/filter.rs:295-304 | the loop reads `%`, `_` and backslash escapes into the pattern's tokens |
| Like.MatchesConcat | crates/ash-core/src/filter.rs:286-326 | a pattern's two parts match exactly where the text splits between them |
| Like.PlainPatterns | crates/ash-core/src/filter.rs:286-326 | for a needle free of `%`, `_` and backslash, `n`, `n%`, `%n` and `%n%` match exactly equality, prefix, suffix and containment |
| Policies.CompileEffects | crates/ash-core/src/policy.rs:194-232 | the loop compiles an effect list to its filter |
| PolicyRefinement.CompiledCheckMeans | crates/ash-core/src/policy.rs:467-503 | for every check, actor, record and setting, the compiled check evaluates to what the check means, defined by recursion over the check alone, unknown included |
| PolicyRefinement.HoldsMeans | crates/ash-core/src/policy.rs:505-511 | a check holds of a record exactly if it is true of it |
| PolicyRefinement.HoldsWithoutARecordExactlyIfAlwaysTrue | crates/ash-core/src/policy.rs:505-511 | without a record a check holds exactly if it is true of every record |
| PolicyRefinement.ApplicableAreThoseFor | crates/ash-core/src/policy.rs:33-43 | the policies picked for an action are those for every action, its kind or its name |
| PolicyRefinement.AuthorizedMeans | crates/ash-core/src/policy.rs:148-186 | a write is authorized exactly if there are no policies, a bypass for the action allows it, or there are others for it and all of them do |
| Policies.DecideEffects | crates/ash-core/src/policy.rs:234-275 | the loop allows exactly when nothing forbids and something authorizes if anything could |
| Policies.CompileReadFilter | crates/ash-core/src/policy.rs:97-146 | the early returns give the read filter, `Forbidden`, or no filter |
| Policies.AuthorizeWrite | crates/ash-core/src/policy.rs:148-186 | Ok exactly when a bypass allows the write, or all other policies do and there is one |
| PolicyRefinement.EffectsFilterRefinesDecision | crates/ash-core/src/policy.rs:194-275 | a compiled policy true of a record allows it, and one false of it does not; it is true exactly where it allows the record, forbids by no undecided check, and authorizes, if it can, by a decided one |
| PolicyRefinement.WriteFilterRefinesAuthorization | crates/ash-core/src/policy.rs:148-186 | wherever `write_filter` matches, `authorize_write` is Ok; it matches exactly where a bypass, or all the other policies, clearly allow the write, so the two agree exactly where an authorized write is clearly authorized |
| PolicyRefinement.UndecidedNegationSeparatesThem | crates/ash-core/src/policy.rs:234-275 | a policy and a record on which the two disagree |
| PolicyRefinement.ReadFilterAgreesWithWriteFilter | crates/ash-core/src/policy.rs:97-146 | the read filter (none as true, `Forbidden` as false) has the write filter's three-valued result on every record |
| PolicyRefinement.WriteFilterMatches | crates/ash-core/src/policy.rs:436-465 | the write filter matches exactly where a bypass does, or all other policies do and there is one |
| PolicyRefinement.CheckReadsRecordAlone | crates/ash-core/src/policy.rs:467-511 | a compiled check evaluates alike with and without the resource, so deciding without it is sound |
| PolicyRefinement.AuthorizedBeforeTheRecord | crates/ash-core/src/policy.rs:505-511 | where no policy negates a check, a write authorized before there is a record is authorized on every record |
| Guards.HiddenFields | crates/ash-core/src/policy.rs:327-337 | the loop collects exactly the fields some policy hides |
| Guards.RedactFields | crates/ash-core/src/policy.rs:312-325 | exactly the hidden fields end null, each policy having read the record as it was |
| Guards.LeafKeepsClaim | crates/ash-core/src/policy.rs:403-418 | on a leaf, for both values, both ways and both sides: the claim holds exactly where the leaf settles, by what its field's condition says of the record |
| Guards.RewriteKeepsClaim | crates/ash-core/src/policy.rs:377-420 | by induction over filters with relationships: that the rewritten filter comes out a value only where, or wherever, the filter does as the client sees the record passes from the leaves through every connective, turning over at negations and at relationships under them |
| Guards.GuardFindsOnlyWhatIsSeen | crates/ash-core/src/policy.rs:373-420 | with relationships: a rewritten client filter matches only records it matches as the client sees them, hidden fields null and unreadable related records gone; wherever its leaves settle, so unconditionally where relationships are crossed under an even number of negations, and where one is crossed under an odd number if the conditions of the leaves null decides are decided on the records it leads to |
| Guards.GuardFindsExactlyWhatIsSeen | crates/ash-core/src/policy.rs:373-420 | with relationships: and it matches all of them where the claim holds of its leaves both ways |
| Guards.SeeingIsReadingRedacted | crates/ash-core/src/policy.rs:312-325 | on one record alone, a filter as the client sees it is the filter on the redacted record, unknown included |
| Guards.GuardedLeaf | crates/ash-core/src/policy.rs:377-420 | on a leaf, for both polarities, against the redacted record: the rewrite decides nothing it does not; they agree where the field's condition is true; where it is false exactly for the leaves null does not decide; and where it is unknown exactly when the redacted leaf does not come out for its side, or a nil field is asked for |
| Guards.GuardMeansRedact | crates/ash-core/src/policy.rs:377-420 | for filters that cross no relationship and both polarities, the rewrite decides nothing the redacted record does not, and with decided conditions and guardable leaves the same |
| Guards.GuardFindsOnlyWhatIsVisible | crates/ash-core/src/policy.rs:373-420 | a rewritten client filter that crosses no relationship matches only records it matches redacted: no condition on leaves or undecided policies |
| Guards.GuardFindsWhatRedactionShows | crates/ash-core/src/policy.rs:373-420 | for a filter that crosses no relationship, rewriting is redacting where its leaves are guardable and field conditions decided |
| Guards.LeafTellsApart | crates/ash-core/src/policy.rs:403-418 | two records on which a leaf's field looks alike, and has the same condition, are told apart by the rewritten leaf exactly where the condition is unknown, the leaf does not need it, and comes out on one record alone |
| Guards.ExposedForItsSide | crates/ash-core/src/policy.rs:403-418 | for its own side the only leaf that does not need its condition is a positive `IsNil`, which tells a nil field from another |
| Guards.AlikeComeOutAlike | crates/ash-core/src/policy.rs:373-420 | with relationships and negations: a rewritten filter comes out alike on two records that no leaf tells apart, related records matching up across relationships |
| Guards.GuardTellsNothingHiddenApart | crates/ash-core/src/policy.rs:373-420 | a filter that crosses no relationship tells two records apart only by what is shown, where the named fields' conditions come out alike on both and no positive `IsNil` asks by an unknown one of a field nil on one alone |
| Guards.DecidedConditionsTellNothingApart | crates/ash-core/src/policy.rs:373-420 | nor does one with guardable leaves where field conditions are decided on both, alike or not |
| Guards.NilLeafTellsHiddenValuesApart | crates/ash-core/src/policy.rs:403-418 | a filter and two records that redact to the same, of which it finds one |
| Guards.ConditionDecides | crates/ash-core/src/policy.rs:350-371 | a field's condition is true only where the field is shown and false only where it is hidden, the primary key always shown |
| Guards.EqualsNullIsNotGuardedAsNull | crates/ash-core/src/policy.rs:377-420 | a filter and a record on which rewriting is not redacting |
| Guards.UndecidedConditionHidesAShownField | crates/ash-core/src/policy.rs:377-420 | a filter and a record with a shown field on which rewriting is not redacting |
| Guards.NegatedCrossingFindsByAHiddenValue | crates/ash-core/src/policy.rs:385-418 | a filter and two records that differ in a hidden value of a related record, told apart by the rewritten filter, which finds one that does not match as seen |
| Guards.NegatedCrossingTellsHiddenValuesApart | crates/ash-core/src/policy.rs:385-418 | a filter that finds only what is seen and tells a hidden 7 from a hidden 8 |
| Guards.HiddenKeyIsFoundBy | crates/ash-core/src/policy.rs:350-371 | a resource that hides its primary key, a filter and a record on which rewriting is not redacting |
| Atomic.AtomicUpdate.Set | crates/ash-core/src/atomic.rs:266-270 | keeps the other fields' entries and puts the new one last |
| Atomic.AtomicUpdate.ValueOf | crates/ash-core/src/atomic.rs:255-263 | the search from the end finds what the field was last set to |
| Atomic.AtomicUpdate.Apply | crates/ash-core/src/atomic.rs:274-293 | fails exactly when a condition holds, with the first that does; otherwise every field ends at its planned value on the original row |
| OperationLaws.IntegersAreCalculated | crates/ash-core/src/expr.rs:218-245 | both evaluators add, subtract and multiply as the integers do |
| OperationLaws.SubtractionIsUndone | crates/ash-core/src/atomic.rs:111-119 | in both, what was subtracted and is added again gives the minuend |
| OperationLaws.ProductsDistribute | crates/ash-core/src/atomic.rs:111-119 | in both, products distribute over sums, with the units zero and one |
| OperationLaws.QuotientsLeaveARemainder | crates/ash-core/src/expr.rs:246-260 | in both, a quotient is the one number that leaves a remainder smaller than the divisor and of the dividend's sign; by zero there is none |
| OperationLaws.OtherValuesAreNotCalculated | crates/ash-core/src/expr.rs:218-260 | read first, texts are added end to end, nil makes nil, and exactly the other pairs are type mismatches; a statement calculates integers alone |
| OperationLaws.FieldIsDecremented | crates/ash-core/src/atomic.rs:274-293 | an update that takes a number off an integer field leaves the field that much less |
| OperationLaws.ComparisonsGoByTheFirstType | crates/ash-core/src/atomic.rs:96-107 | a comparison is unknown exactly of null, and goes by the type of its first operand that is an attribute |
| OperationLaws.DistinctUnlessEqual | crates/ash-core/src/atomic.rs:160-167 | operands are distinct unless both are null or they are equal, never unknown |
| OperationLaws.MembershipIsEqualityWithSome | crates/ash-core/src/atomic.rs:168-179 | membership in a list without null is equality with one of its values |
| OperationLaws.ConjunctionsAndDisjunctions | crates/ash-core/src/atomic.rs:180-201 | conjunctions and disjunctions in a statement are true and false where their items make them so |
| Planner.PlanAll | crates/ash-core/src/engine/atomic.rs:235-283 | the planner's loop: a change's whole list is planned over what the update set before it, and an `atomic_update` translated over the record as stored; it gives up exactly where there is no plan |
| Atomic.WrittenIsThePlannedValue | crates/ash-core/src/atomic.rs:274-293 | a field ends at `value_of` it evaluated on the original row, even where the list repeats fields, and no other field appears or goes |
| Atomic.SetReplaces | crates/ash-core/src/atomic.rs:254-270 | after `set`, `value_of` gives the new expression for that field and what it gave before for the others |
| Atomic.NotTrueHoldsUnlessTrue | crates/ash-core/src/atomic.rs:74-78 | `not_true` holds of false and of unknown, and not of true |
| Planner.PlanningKeepsMeaning | crates/ash-core/src/atomic.rs:339-347 | an expression planned over `value_of`, evaluated on the stored row, is the expression on the record the update has made so far, where each comparison and filter in it answers alike |
| Planner.SameReadsEvalAlike | crates/ash-core/src/atomic.rs:87-203 | an expression evaluates alike on records that agree on the fields it reads |
| Translation.TranslatedUnlessCustom | crates/ash-core/src/engine/atomic.rs:475-541 | a resource expression is translated exactly when it calls no Rust |
| Translation.TranslationKeepsTheValue | crates/ash-core/src/expr.rs:151-299 | for every expression whose operands keep their values: the statement's value is the value read first exactly where the operation keeps it, in each of its nil and type cases |
| Translation.ValuesComparedAlike | crates/ash-core/src/types.rs:764-788 | values other than two typed texts are compared alike exactly if both are integers or text, or equality is asked for, or the value order answers no |
| Planner.PlannedUnlessCustom | crates/ash-core/src/engine/atomic.rs:268-271 | there is a plan exactly when no `atomic_update` calls Rust |
| Planner.PlanIsSequentialExecution | crates/ash-core/src/engine/atomic.rs:235-283 | there is a plan, and its statement gives the record, or the error, that the changes and checks give one after another, `atomic_update` evaluated read first: where translating keeps its value and its fields have their stored values, and each comparison and filter planned through `value_of` answers alike |
| Planner.TypedComparisonSeparatesThem | crates/ash-core/src/atomic.rs:98-109 | two assignments for which the statement and the sequence differ |
| Planner.ComparisonPlansAlike | crates/ash-core/src/atomic.rs:96-107 | at a comparison, planning keeps the answer exactly where an operand is null or the relation stands alike under the type before and after |
| Planner.DistinctPlansAlike | crates/ash-core/src/atomic.rs:160-167 | at a test for being distinct, exactly where one is null or they are equal by both types or by neither |
| Planner.MemberPlansAlike | crates/ash-core/src/atomic.rs:168-179 | at a membership test, exactly where the operand is null or a member by both types or by neither |
| Planner.ComparisonWithoutTextIsPlannable | crates/ash-core/src/types.rs:764-788 | as values are compared, a comparison with one that is no text is planned alike whatever was set before |
| Planner.CounterAgreesWhereUnmoved | crates/ash-core/src/engine/atomic.rs:475-541 | for a field that is an integer or nil and a number added to it, they agree exactly where the field still has its stored value |
| Planner.AtomicChangeReadsTheStoredRecord | crates/ash-core/src/engine/atomic.rs:268-271 | a change and an `atomic_update` for which the statement and the sequence differ |
| Planner.NilComparisonSeparatesThem | crates/ash-core/src/expr.rs:261-265 | an `atomic_update` for which they differ though no field has moved |
| Validations.ConditionsFailAsRecordsAreRejected | crates/ash-core/src/engine/atomic.rs:418-473 | for every built-in validation and value: the conditions of the statement fail exactly where the record-by-record check does, if and only if the value is one they judge alike |
| Validations.TextAttributesAreJudgedAlike | crates/ash-core/src/engine/atomic.rs:421-457 | on text attributes, minding case or not, `present` and `string_length` fail alike on whatever is stored |
| Validations.NumbersOutsideAreRejected | crates/ash-core/src/pipeline.rs:325-338 | where integers are floats exactly, numericality rejects exactly the numbers outside the bounds, integers or texts, and whatever is no number but null |
| Validations.ComputedTextOfAnyLengthPasses | crates/ash-core/src/engine/atomic.rs:446-471 | a computed text too long for the record-by-record check, for which the statement has no condition |
| Validations.DecimalFailsAnyMaximum | crates/ash-core/src/engine/atomic.rs:461-470 | a decimal within its maximum that fails the statement's condition |
| Notifications.World.HandOut | crates/ash-core/src/notifier.rs:140-173 | a notification goes to each of the context's notifiers and then to each of its resource's |
| Notifications.EachNotifierHears | crates/ash-core/src/notifier.rs:140-173 | an item's deliveries are one to each of the context's notifiers and then one to each of its resource's, in the order listed |
| Notifications.HeardAsOftenAsListed | crates/ash-core/src/notifier.rs:131-173 | a notifier hears a notification once for each time it is listed with the context or with an item that carries it |
| Notifications.HeardInOrder | crates/ash-core/src/notifier.rs:131-148 | everybody hears of an item after the items before it and before those after it |
| Notifications.World.Flush | crates/ash-core/src/notifier.rs:131-148 | everything queued goes out in order, and the queue is empty |
| Notifications.World.Dispatch | crates/ash-core/src/notifier.rs:151-174 | queued where there is a queue, and otherwise handed out |
| Notifications.World.RunTransaction | crates/ash-core/src/context.rs:251-292 | shares the open queue, or makes one that is flushed after commit and cleared on failure; where it made one and failed, the notifiers heard nothing exactly when no pipeline had anything to send |
| Notifications.World.RunAtomically | crates/ash-core/src/context.rs:216-247 | runs as it is within a queue or without transactions, and otherwise as a transaction |
| Notifications.World.RunPipeline | crates/ash-core/src/multi.rs:236-248 | the loop stops at the first failing step |
| Notifications.World.Execute | crates/ash-core/src/multi.rs:269-283 | a pipeline in a transaction, under a queue of its own |
| Notifications.World.ExecuteWithoutTransaction | crates/ash-core/src/multi.rs:251-258 | the same without a transaction |
| Notifications.OutermostScopeIsAllOrNothing | crates/ash-core/src/context.rs:211-293 | over every nest of transactions and pipelines in which errors propagate: every write is stored on success and none on failure; on success every notification goes out once in program order if nothing overtakes, on failure none if nothing is sent early, and, for distinct notifications, only then; always without pipelines |
| Notifications.SendsInProgramOrderExactlyWhenInOrder | crates/ash-core/src/multi.rs:261-283 | for work that succeeds and distinct notifications: what its pipelines send followed by what it queued is program order if and only if no pipeline overtakes what was queued before it |
| Notifications.PipelineOvertakes | crates/ash-core/src/multi.rs:261-283 | two notifications a nested pipeline delivers out of program order |
| Notifications.OutermostPipelineIsAllOrNothing | crates/ash-core/src/multi.rs:261-283 | the same for an outermost pipeline |
| Notifications.FailedScopeIsSilentExactlyWhenQuiet | crates/ash-core/src/multi.rs:269-283 | a transaction that fails leaves the notifiers, the rows and the queue outside as they were, the notifiers exactly when no pipeline it reached had anything to send |
| Notifications.PipelineNotifiesBeforeItsScopeCommits | crates/ash-core/src/multi.rs:269-283 | a nested pipeline that notifies of a write its scope then rolls back |
| Notifications.SwallowedFailureStillNotifies | crates/ash-core/src/context.rs:251-292 | a swallowed inner failure whose queued notification goes out |
| Notifications.StoredAreTheKept | crates/ash-core/src/context.rs:251-292 | the rows that stay stored are those of the notifications that inner rollbacks would keep |
| Notifications.KeptIsQueuedWithoutOrphans | crates/ash-core/src/context.rs:261-289 | what work queues is what its committed inner transactions queued exactly when no inner transaction failed with something queued |
| Notifications.NotifiesOfWhatIsStoredWithoutOrphans | crates/ash-core/src/context.rs:251-292 | a transaction that announces its writes notifies of exactly the rows it leaves stored, in order, if and only if it fails or no inner transaction failed with something queued |
| Notifications.SuccessfulScopeNotifiesOfEachOnce | crates/ash-core/src/context.rs:251-292 | whatever pipelines it holds, a scope that succeeds has sent every notification exactly once, in program order if nothing overtakes and, for distinct notifications, only then |
| Notifications.SuccessStoresEverything | crates/ash-core/src/context.rs:251-292 | work that succeeds stores every write in program order, in every mode |
| Notifications.QuietMeansNoLeaks | crates/ash-core/src/multi.rs:236-283 | the condition on pipelines holds exactly when none of them sends anything |
| Notifications.FailureNamesTheFirstFailingStep | crates/ash-core/src/multi.rs:236-248 | a pipeline's error names its first failing step and carries that step's error; steps after it add nothing |
| Bulk.NoRowIsLost | crates/ash-core/src/bulk.rs:258-514 | whenever a bulk action returns a result, counted rows, failed rows and rows left out as stale are all the inputs, in every mode, batch size and error setting |
| Bulk.EveryPreparedRowIsConcludedOnce | crates/ash-core/src/bulk.rs:436-514 | unless the action stopped early, each prepared row's hooks ran exactly once, in order, with its own outcome |
| Bulk.OwnOutcomeAt | crates/ash-core/src/bulk.rs:380-420 | a row's own outcome is its batch's error where that failed as a whole, and otherwise what writing and finishing it gave |
| BulkRows.RowComesOut | crates/ash-core/src/bulk.rs:337-420 | for every kind, mode and scope: a prepared row comes out well exactly if it was written, finishing it raised nothing and its batch did not fail; otherwise it carries its batch's error, or its write's, or its finishing's |
| BulkRows.BatchFailsExactly | crates/ash-core/src/bulk.rs:337-378 | a batch fails exactly if a row fails its whole write or, in a transaction, is in trouble other than being stale; with the first such row's error |
| BulkRows.BatchesAreSlices | crates/ash-core/src/bulk.rs:483-487 | each batch is the next rows, as many as the batch size or what is left |
| BulkRows.BatchStores | crates/ash-core/src/bulk.rs:337-378 | a batch leaves stored only rows that were written: all unless it fails, none if it fails and is rolled back; unless rolled back, what it announces is stored |
| BulkRows.CountedAndAnnouncedAreStored | crates/ash-core/src/bulk.rs:436-514 | nothing is stored that was not written; every counted row is stored; and every announced one, unless a batch with its own transaction fails within an outer buffer |
| BulkRows.FailedBatchAnnouncesWithinABuffer | crates/ash-core/src/bulk.rs:337-351 | such a batch: a row announced and not stored |
| BulkRows.ReturnedRecordsAreReadable | crates/ash-core/src/bulk.rs:410-417 | an action that returns records and does not stop has read back every row that came out well |
| BulkRows.ModesDecideWhatIsRolledBack | crates/ash-core/src/bulk.rs:270-298 | the mode, and whether the data layer transacts, decide what is rolled back: all, each failing batch, or nothing |
| Bulk.HooksWithAt | crates/ash-core/src/bulk.rs:404-406 | one hook call for each row, with the outcome at its place |
| Bulk.BatchCommitsWholeOrNotAtAll | crates/ash-core/src/bulk.rs:337-378 | a failed batch leaves no row and no notification; a committed one holds successes and stale rows alone |
| Bulk.BatchIsAtomic | crates/ash-core/src/bulk.rs:337-420 | a batch stores as many rows as it counts or leaves out as stale, and notifies of the counted ones in order |
| Bulk.BulkCreateIsAtomic | crates/ash-core/src/bulk.rs:436-514 | with batch transactions and no outer buffer, a create counts the rows of unfailed batches that came out well, notifies of exactly these in order, and changes the store by exactly these if and only if no row its hooks call stale is in a batch that commits |
| Bulk.StaleAfterCreateIsStoredUncounted | crates/ash-core/src/bulk.rs:369-376 | a created row whose finish is stale stays stored uncounted |
| Bulk.ResultReportsTheCounts | crates/ash-core/src/bulk.rs:380-420 | a result counts exactly the rows whose hooks were run with success and holds their records in order if asked for; rolled back as a whole, it counts none and fails every input |
| BulkActions.Action.Fail | crates/ash-core/src/bulk.rs:260-267 | counts the failure or returns it |
| BulkActions.Action.WriteRows | crates/ash-core/src/data_layer.rs:264-309 | rows are written in order, up to the first that fails the whole write |
| BulkActions.Action.FinishRows | crates/ash-core/src/bulk.rs:356-378 | the loop gives the batch's outcomes, stale rows passing and other failures ending a transactional batch |
| BulkActions.Action.InBatch | crates/ash-core/src/bulk.rs:340-351 | writes and finishes a batch, its rows rolled back and its notifications dropped when it fails in its own transaction |
| BulkActions.Action.Conclude | crates/ash-core/src/bulk.rs:404-406 | the loop runs each row's hooks with its outcome |
| BulkActions.Action.Settle | crates/ash-core/src/bulk.rs:382-420 | concludes and then counts a batch |
| BulkActions.Action.PrepareAll | crates/ash-core/src/bulk.rs:457-481 | the loop prepares rows, rejecting those that fail |
| BulkActions.Action.RunBatches | crates/ash-core/src/bulk.rs:483-510 | the loop over chunks does to the store, hooks, notifications and counters what the batches add up to |
| BulkActions.Action.Run | crates/ash-core/src/bulk.rs:436-514 | a bulk action's result, and its whole effect on rows, hooks, queue and notifiers, in every mode |
| Values.ValueOrderIsTotal | crates/ash-core/src/value.rs:172-210 | the order on arbitrarily nested values is total, antisymmetric and transitive, and equality in it is being the same value, for any monotone rounding of integers to floats |
| Values.KindsInOrder | crates/ash-core/src/value.rs:174-185 | null, truth, numbers, UUIDs, text, maps, arrays, in this order |
| Values.WithinAKind | crates/ash-core/src/value.rs:186-200 | false before true, numbers by value with an integer before a float it rounds to, smaller maps before larger |
| Values.ArraysByTheFirstDifference | crates/ash-core/src/value.rs:196 | an array comes before one that continues it, and before one with a greater value where they first differ |
| Values.CompareEqual | crates/ash-core/src/value.rs:158-162 | values compare equal exactly when they are structurally equal |
| Values.CompareTransitive | crates/ash-core/src/value.rs:172-210 | transitivity through mixed integers and floats and through maps' sorted entries |
| Values.RoundingMustBeMonotone | crates/ash-core/src/value.rs:191-193 | a rounding that is not monotone gives two integers and a float in a cycle |
| Values.SortedKeys | crates/ash-core/src/value.rs:201-205 | a map's keys, in text order, each once |
| Calendar.CivilIsTheCalendar | crates/ash-core/src/resource.rs:976-993 | every day's date is a date of the Gregorian calendar, the next day's is the date after it, and day 0 is 1970-01-01 |
| Calendar.YearOfEraBounds | crates/ash-core/src/resource.rs:982-986 | the computed year of the era is the one the day falls in, and no subtraction goes below zero |
| Calendar.YearOfEraUnique | crates/ash-core/src/resource.rs:984 | it is the only year the day falls in |
| Calendar.DateOrderIsDayOrder | crates/ash-core/src/resource.rs:976-993 | dates compare as their days do, so no two days share a date |
| Calendar.ClockRecombines | crates/ash-core/src/resource.rs:972-979 | the fields are in range and recombine to the second count |
| Calendar.NextInYear | crates/ash-core/src/types.rs:665-677 | within a year the dates follow the repository's own month lengths and leap rule |
| Timestamps.PushDigits | crates/ash-core/src/types.rs:172-176 | the loop over places appends the zero-padded digits |
| Timestamps.FormatInstant | crates/ash-core/src/types.rs:136-168 | the loop over parts writes the fixed-width form for the years 0 to 9999, and other years take the date library's |
| Timestamps.FormatReadsBack | crates/ash-core/src/types.rs:136-176 | read back at its fixed places, the stored text says the instant's date, clock and microseconds, with the separators and the closing Z |
| Timestamps.FourDigitYears | crates/ash-core/src/types.rs:140-142 | the instants of the fixed-width form are exactly those of the years 0 to 9999 |
| Timestamps.DigitsOrder | crates/ash-core/src/types.rs:171-176 | zero-padded digits compare as text as the numbers do |
| Timestamps.TextOrderIsTimeOrder | crates/ash-core/src/types.rs:121-168 | at either precision stored texts compare exactly as the truncated instants do, and are equal only for equal ones |
| Decimals.DecimalsAreTheNumeralsTexts | crates/ash-core/src/types.rs:790-807 | the texts taken for decimals are exactly an optional sign, digits, and optionally a point with digits after it |
| Decimals.ComparesTheNumbers | crates/ash-core/src/types.rs:718-748 | two decimals of any length compare as the real numbers they denote: signs, surplus zeros, negative zero, missing whole part |
| Decimals.NegativeMeansBelowZero | crates/ash-core/src/types.rs:725-730 | the code's negative numbers are those below zero |
| Decimals.AnswersExactlyForDecimals | crates/ash-core/src/types.rs:718-734 | there is no answer exactly when an argument is not a decimal |
| Decimals.IsATotalPreorder | crates/ash-core/src/types.rs:718-748 | reflexive, reversed by swapping, and transitive on decimal texts |
| EditDistance.Levenshtein | crates/ash-macros/src/ast_helpers.rs:184-209 | the table's last cell is the distance the recurrence defines |
| EditDistance.DistanceIsTheLeastNumberOfEdits | crates/ash-macros/src/ast_helpers.rs:184-209 | some run of that many single-character edits turns one text into the other, and none shorter does |
| EditDistance.ZeroOnlyBetweenEquals | crates/ash-macros/src/ast_helpers.rs:184-209 | zero exactly between equal texts |
| EditDistance.Symmetric | crates/ash-macros/src/ast_helpers.rs:184-209 | the same both ways |
| EditDistance.Triangle | crates/ash-macros/src/ast_helpers.rs:184-209 | the triangle inequality |
| EditDistance.FindClosestMatch | crates/ash-macros/src/ast_helpers.rs:211-230 | the earliest candidate of least distance among those within their allowance, and none exactly when there is no such candidate |
| EditDistance.AllowanceGrowsWithTheLonger | crates/ash-macros/src/ast_helpers.rs:211-230 | the allowance is two, or half the bytes of either text if that is more |
| EditDistance.BytesPerCharacter | crates/ash-macros/src/ast_helpers.rs:211-230 | a text's bytes are its characters and one more for each that is beyond each limit of UTF-8 |
| EditDistance.CaseAloneIsAlwaysNear | crates/ash-macros/src/ast_helpers.rs:211-230 | a candidate that differs in case alone is always near, and only another such can be preferred to it |
| Tokens.TokenStore.StoreToken | crates/ash-authentication/src/token_store.rs:68-88 | adds one unrevoked row |
| Tokens.TokenStore.GetValidToken | crates/ash-authentication/src/token_store.rs:91-109 | the first row with the id and purpose that is neither revoked nor expired |
| Tokens.FirstUsableIsUsable | crates/ash-authentication/src/token_store.rs:91-109 | what is found is usable, and nothing is found exactly when no row is |
| Tokens.TokenStore.RevokeToken | crates/ash-authentication/src/token_store.rs:127-156 | the loop flags every row of the id, or a tombstone is stored where there is none |
| Tokens.TokenStore.RevokeAllForSubject | crates/ash-authentication/src/token_store.rs:158-175 | the loop flags every active row of the subject and counts them |
| Tokens.TokenStore.PruneExpired | crates/ash-authentication/src/token_store.rs:177-194 | the loop leaves exactly the rows not yet expired, in order |
| Tokens.RevokingEach | crates/ash-authentication/src/token_store.rs:127-175 | revoking each row a query found by its key is revoking all the query's rows |
| Authentication.AuthStrategy.SignInWithTokenPair | crates/ash-authentication/src/strategy.rs:208-246 | checks the password and stores the refresh token |
| Authentication.SignInNeedsThePassword | crates/ash-authentication/src/strategy.rs:144-179 | signing in succeeds exactly with the password of a user who is confirmed where required, and stores that user's refresh token; otherwise nothing changes, with each error's exact case |
| Authentication.ChangeNeedsTheCurrentPassword | crates/ash-authentication/src/strategy.rs:330-395 | a change succeeds exactly for a user with the current password and twice a new one that can be hashed, with each error's exact case |
| Authentication.ResetNeedsAToken | crates/ash-authentication/src/strategy.rs:456-519 | a reset succeeds exactly with a usable reset token, twice a new password that can be hashed, and a user who is there, with each error's exact case |
| Authentication.NewPasswordIsTheOneThatVerifies | crates/ash-authentication/src/strategy.rs:330-519 | where hashes identify passwords, after a change or reset exactly the new one verifies, and nothing else of any user has changed |
| Authentication.AuthStrategy.RotateRefreshToken | crates/ash-authentication/src/strategy.rs:249-300 | revokes the old token, reads the user, stores the new token, in that order |
| Authentication.AuthStrategy.RevokeToken | crates/ash-authentication/src/strategy.rs:302-328 | revokes the id in the store |
| Authentication.AuthStrategy.ChangeUsersPassword | crates/ash-authentication/src/strategy.rs:330-395 | the checks in their order, then the new hash, then every token of the user revoked |
| Authentication.AuthStrategy.RequestPasswordReset | crates/ash-authentication/src/strategy.rs:398-454 | stores a reset token for a known user, whether or not it can be sent |
| Authentication.AuthStrategy.ResetPasswordWithToken | crates/ash-authentication/src/strategy.rs:456-519 | the checks in their order, then the new hash, the token spent and every token of the user revoked |
| Sessions.StepRefines | crates/ash-authentication/src/strategy.rs:208-519 | each flow does to the tokens that stand what a plain ledger of them does, with the same answer |
| Sessions.RunRefines | crates/ash-authentication/src/strategy.rs:208-519 | so does every run |
| Sessions.ValidMeansGranted | crates/ash-authentication/src/token_store.rs:91-109 | a token is valid exactly when it stands on the ledger |
| Sessions.OneValidRefreshTokenPerSignIn | crates/ash-authentication/src/strategy.rs:208-300 | in every reachable state a sign-in has at most one valid refresh token, however often rotated |
| Sessions.EveryRefreshTokenBeganWithAPassword | crates/ash-authentication/src/strategy.rs:144-300 | in every reachable state a valid refresh token descends from a sign-in of the run whose password verified against its user's hash as it then was |
| Sessions.EndedNeverValidAgain | crates/ash-authentication/src/strategy.rs:249-519 | an id rotated away, revoked, spent on a reset or ended with a password is valid in no later state |
| Sessions.ResetCompletesOnce | crates/ash-authentication/src/strategy.rs:456-519 | a reset token completes at most one reset |
| Sessions.NewPasswordEndsEveryToken | crates/ash-authentication/src/strategy.rs:330-519 | after a password is changed or reset its user has no valid token from before |
| Sessions.PruningIsInvisible | crates/ash-authentication/src/token_store.rs:177-194 | pruning, however often and whenever, changes no flow's answer in the rest of a run and no token's validity at its end |
| Sessions.StepKeeps | crates/ash-authentication/src/strategy.rs:208-519 | every flow keeps the invariant behind these |
| Sessions.TombstoneBlocksNothing | crates/ash-authentication/src/token_store.rs:127-156 | a token stored under an id revoked just before is valid exactly when it has time to run |
| Sessions.RotationLeavesATokenExactlyForAUser | crates/ash-authentication/src/strategy.rs:249-300 | after a rotation with a valid token the sign-in has a valid refresh token exactly when the user is still there and the new token has time to run |
| ResourceTokens.ParseSectionList | crates/ash-macro-support/src/lib.rs:51-82 | the parser's loop gives the sections, or its first error |
| ResourceTokens.ParseOneLine | crates/ash-macro-support/src/lib.rs:122-178 | the trees a section on one line takes, form by form |
| ResourceTokens.ParseUnknown | crates/ash-macro-support/src/lib.rs:159-175 | an unknown section goes up to a semicolon, or a section's name not part of a path |
| ResourceTokens.ParseExtend | crates/ash-macro-support/src/lib.rs:137-147 | `extend` goes up to and with its braces, or up to a semicolon |
| ResourceTokens.UnknownEnds | crates/ash-macro-support/src/lib.rs:159-175 | an unknown section ends before the first semicolon or section name that is not after a colon, or at the end |
| ResourceTokens.ExtendEnds | crates/ash-macro-support/src/lib.rs:137-147 | `extend` ends with its first brace group, before a semicolon, or at the end |
| ResourceTokens.ParsingLosesNothing | crates/ash-macro-support/src/lib.rs:51-82 | the parsed sections are the trees given, in order, none left out, but for semicolons between them |
| ResourceTokens.ParsedResourceIsItsInput | crates/ash-macro-support/src/lib.rs:36-91 | a parsed resource is its attributes, flag, name and sections and nothing else |
| ResourceTokens.NoSectionTwice | crates/ash-macro-support/src/lib.rs:54-64 | no two braced sections of a resource have one name, `extensions` and `notifiers` apart |
| ResourceTokens.CallsAreWhole | crates/ash-macro-support/src/lib.rs:180-184 | the macro calls taken for an item are exactly `!`, a name or none, and a group, with a semicolon exactly after those not in braces |
| ResourceTokens.DocCommentsMoveToTheStruct | crates/ash-macro-support/src/lib.rs:187-199 | the item's doc comments come before the resource's attributes and its others stay on the call, each in order |
| ResourceTokens.LineAgain | crates/ash-macro-support/src/lib.rs:122-178 | a one-line section's trees, printed with a semicolon, are its trees again whatever follows |
| ResourceTokens.PrintedResourceParsesBack | crates/ash-macro-support/src/lib.rs:36-204 | the printed form of any parsed resource parses back to the same attributes, flag, name and ordered sections |
| ResourceTokens.SurvivesPrintingWhenWellFormed | crates/ash-macro-support/src/lib.rs:322-349 | printing and parsing gives a resource back, an edited one too, exactly when it is well formed |
| ResourceTokens.ParseActionList | crates/ash-macro-support/src/lib.rs:414-429 | the loop gives the actions, skipping separators |
| ResourceTokens.ParsingActionsLosesNothing | crates/ash-macro-support/src/lib.rs:384-429 | the parsed actions are the trees given, in order, but for separators between them |
| ResourceTokens.RenderedActionsParseBack | crates/ash-macro-support/src/lib.rs:383-444 | rendering any parsed list of actions and parsing it gives the same list |

## Left out

- Guards.GuardFindsWhatRedactionShows: for filters that cross no relationship, as one redacted record says nothing of related ones, and records that show their primary key (`HiddenKeyIsFoundBy`); `GuardFindsExactlyWhatIsSeen` has neither restriction.
- Guards.GuardFindsOnlyWhatIsVisible: for the same filters and records; `GuardFindsOnlyWhatIsSeen` has neither restriction.
- Guards.GuardTellsNothingHiddenApart: for filters that cross no relationship; `AlikeComeOutAlike` is the same with relationships. Both go one way, because a leaf that tells records apart may be masked by what is around it; on a leaf `LeafTellsApart` goes both.
- Notifications.OutermostScopeIsAllOrNothing: needs errors to propagate; what holds of work that swallows them is `FailedScopeIsSilentExactlyWhenQuiet` and `NotifiesOfWhatIsStoredWithoutOrphans`.
- Planner.PlanIsSequentialExecution: stated one way, because a comparison that answers otherwise, or a field that has moved, may be masked by what is around it; the exact conditions are those of `ComparisonPlansAlike`, `DistinctPlansAlike`, `MemberPlansAlike`, `TranslationKeepsTheValue` and `CounterAgreesWhereUnmoved`. The planner's own steps are not modelled: values known once the changes are planned are checked and cast again, conditions for policies and lock versions are added, lock versions and `updated_at` are set.
- Validations.ConditionsFailAsRecordsAreRejected: the conditions of a value the statement computes, evaluated in memory; a value known to the planner is checked as records are. Custom validations are left out.
- Atomic.WrittenIsThePlannedValue: does not model 64-bit overflow of integer expressions.
- Timestamps.TextOrderIsTimeOrder: years from 0 to 9999 and no leap seconds; beyond these the text is chrono's.
- Timestamps.FormatInstant: takes an instant's date and clock from `Calendar`; chrono computes them in the code, and writes years outside 0 to 9999.
- Values.ValueOrderIsTotal: a float is its place in the total order of floats, and rounding an integer to a float is any monotone function.
- EditDistance.FindClosestMatch: lower-casing is any function on text.
- Sessions.OneValidRefreshTokenPerSignIn: each flow is one step, ids are drawn fresh (from issued and from revoked ids), the clock does not go back and the store does not fail; interleavings inside one flow are not modelled.
- ResourceTokens.PrintedResourceParsesBack: assumes that the type of a `store` section ends where a semicolon follows it; the spacing of punctuation is carried by tokens and read by none of these parsers, and a path in a macro call is plain identifiers.
- BulkActions.Action.Run: a row's hooks write nothing themselves, a failing single create keeps its row outside a transaction, and the commit of a batch's transaction does not fail.
- The hub's bounded channel and the lag it reports, the wrap-around of its 64-bit generation counter, and executions that panic, which never run `ended`.
- `Value`'s hash: equal values are the same value, so they hash alike.
- `bulk_destroy`, which writes through the loops of the other two with cascades added.
- Errors of `check_to_filter`: its result is always Ok.
- `compare_typed` for addresses, vectors and case-insensitive text: a parameter of `Atomic`.
- In-memory revocation of signed tokens, which only makes verification fail more often; signing, hashing, API keys and senders.
- A password check that fails with an error is one that does not pass.
- Finding a user by name or e-mail address: the flows are given the user's id, known or not.
- `topic_matches` and channel delivery in ash-pubsub: segment comparisons with nothing to span.
- Storage engines, the SQL compiler, changeset internals, GraphQL schema building, HTTP and WebSocket framing.
