# Verified model of the Solace broker MCP server's core

The Solace broker MCP server lets an agent call tools that read and configure Solace event brokers
over SEMP. This project models, in Dafny 4.11, the three parts of the server that carry its hard logic,
and proves what they promise.

**The composite tool engine.** A tool is a list of steps. `Batches` and `Loader` group steps into sequential
and parallel batches and check a definition before it is accepted. `Pagination` follows the broker's page
cursors and `Scanning` says which requests it makes of any broker at all, `FanOut` makes one
bounded-concurrency call per row of an earlier step and `FanOutProgress` shows that the schedule does not
matter to a caller that stays, `Body` merges parameters into a request body and checks it, and `Owner` is
the owner check in front of a write. `Results` puts a result together and scrubs it. `Shaving`, `Valve` and
`Notes` trim a result that is too large, and `Resume` shows that a caller can still page through the whole
list. `Schema` generates the JSON Schema a tool declares, with a validator for the keywords it uses;
`Conformance` compares what each kind of step returns with it, and `Fitting` says exactly which tools always
satisfy it.

**The token exchanger.** `DedupKey` is the key under which concurrent callers share one exchange. `Gate` and
`RetryAfter` are the Retry-After gate (section 10.2.3 of RFC 9110), `Breaker` the classification of failures
and the failure streak. `Exchange` is the whole protocol as a state machine: callers, shared in-flight
exchanges, the cache, the gate and the provider, advanced one step at a time by any scheduler.
`ExchangeSafety` holds what every run of it guarantees, `Admission` when exactly an exchange reaches the
provider, `ExchangeProgress` that no caller is ever stuck, and `Freshness` which tokens can still be given
out after an invalidation.

**Indexes that must agree with a simple definition.** `Authz` is the compiled tool policy, the call check
and the tools/list filter. `Brokers` and `Pool` are the case-folded broker map and the lazily filled client
pool, which `PoolProgress` shows free of deadlock. `EnvSubst` and `EnvTree` substitute environment
references in the decoded values of a configuration file. `Text`, `Json` and `Options` are shared
vocabulary.

Conventions. A walk over a Go map is a sequence that visits each key once, in any order
(`Text.Visits`), and every result is shown not to depend on it. The broker, the identity provider, the
scheduler and the clock are parameters or labels of a run, never assumed to behave unless a lemma says
so. Code that updates state is a method or a class proved against a specification function; concurrent
code is a step function over an explicit state. Integer widths are written out where they matter: the
64-bit instants of the gate and the 32-bit failure counter.

Some claims one would expect hold only under a condition. Each comes with an input at which it fails and with
the exact condition, which can be read off before the call:

- The page cap is out of reach exactly if it is at least the row cap (`Pagination.PageCapUnreachable`); the
  shipped one is (`Pagination.ShippedCapUnreachable`).
- A token stays with its tenant exactly as far as the key encoding is injective, which needs NUL-free subjects
  and aliases (`ExchangeSafety.ServedIffSameKey`, `DedupKey.KeyCollides`).
- The comment on `Invalidate` promises that the next exchange fetches a fresh token. A later caller can be given
  a token issued before the invalidation exactly when an exchange for its key was then past the provider's
  answer and not yet finished (`Freshness.OldTokenIffInTransit`).
- Every successful run of a fan-out is complete exactly when the first row that is not skipped, if there is
  one, has no key: otherwise a caller that leaves can be told of success without answers
  (`FanOut.PartitionsExactly`, `FanOut.CutShort`). With a caller that stays it always is
  (`FanOut.SuccessPartitions`).
- Every successful call of an accepted tool returns what the tool declares, against every broker that keeps to
  its specification, exactly if the tool fits (`Fitting.ConformsIffFits`): it writes nothing, or can never
  succeed, or it shows its raw steps and none of them is a misfit. A misfit is a step with resolved response
  fields that is a list operation without followPages, or a forEach step over a list operation or with
  followPages for which some row can have a key. `Fitting.UnpagedListTool`, `Fitting.PagedFanOutTool` and
  `Fitting.SummaryOnlyTool` are accepted and do not fit.
- Every truncated resumable call offers a cursor exactly if the broker never answers with more rows than the
  call still wants (`Pagination.CursorIffCounted`). One that ignores the count can end a chain truncated and
  without a cursor, though never with a gap (`Pagination.GreedyEndsTruncated`, `Pagination.ChainExact`).
- The owner check decides by the owner that is written exactly when no parameter consulted earlier shadows it
  (`Owner.WriteCheckedIffUnshadowed`, `Owner.ShadowedOwner`).
- Scrubbed metadata is free of URIs at every depth exactly when no array in it, outside a removed key, holds
  one (`Results.ScrubUrisExact`, `Results.ScrubExact`, `Results.ArrayKeepsUri`).
- An unset variable referred to by a value is reported exactly when the raw text shows some reference; one that
  appears only after YAML unescaping is not (`EnvTree.OutcomeExact`, `EnvTree.EscapedReference`).
- The failure counter decides like the streak exactly while it has not wrapped below the threshold
  (`Breaker.WrappedTrip`, `Breaker.CounterWraps`).

Lemmas switch Dafny's automatic induction off, so every inductive argument is written out in a body.
`dafny verify dfyconfig.toml` checks the whole project.

## Model

| member | source | states |
|---|---|---|
| `Pagination.ResolveMaxResults` | internal/composite/executor.go:627-660 | the row cap of a call is between 1 and 500 and is the truncation of any request in that range |
| `Pagination.FetchPaginated` | internal/composite/executor.go:494-594 | the pagination loop computes exactly the scan `Fetch`, requests and outcome alike; `Scanning.AnyBrokerExact` says what that scan is |
| `Scanning.AnyBrokerExact` | internal/composite/executor.go:494-594 | against any broker whatsoever: each request asks for what is still wanted at the cursor the previous reply gave; all earlier replies were pages worth following; a failed request fails the whole call, and otherwise the rows are those of all pages in order, cut at the cap, with truncation, cursor and reason fixed by the last page |
| `Scanning.ScanUnique` | internal/composite/executor.go:494-594 | that description determines the scan: no other requests or outcome satisfy it |
| `Pagination.AnyBrokerBounded` | internal/composite/executor.go:529-594 | against any broker whatsoever: at most min(maxResults, maxPages) requests, a positive and strictly shrinking remainder at each, at most maxResults rows |
| `Pagination.PageCapUnreachable` | internal/composite/executor.go:529-594 | no broker can drive the scan into the page-cap branch if and only if maxPages is at least the resolved maxResults |
| `Pagination.ShippedCapUnreachable` | internal/composite/executor.go:85-112 | no broker and no request can drive the scan into the page-cap branch at the shipped cap of 1000 pages |
| `Pagination.CallExact` | internal/composite/executor.go:494-622 | against a positional broker with pages of any length, one resumable call returns a run of rows from its cursor on, all that are left unless it says truncated, and any cursor it offers points right after the last; if no page is larger than the call still wants, it offers one whenever it is truncated |
| `Pagination.PlainCallExact` | internal/composite/executor.go:494-594 | against a positional broker with pages of any length, one call of a step that cannot be resumed returns the first rows of the list, says truncated whenever it leaves any out, and offers no cursor |
| `Pagination.ChainExact` | internal/composite/executor.go:494-622 | chaining calls by nextCursor, each with its own maxResults, loses and repeats no row, whatever the length of the broker's pages; only the last call is not truncated or has no cursor; if no page is larger than the call still wants, enough calls return the whole rest of the list |
| `Pagination.CursorIffCounted` | internal/composite/executor.go:564-577 | against a positional broker every truncated call of a resumable step offers a cursor if and only if no reply is larger than its call still wants |
| `Pagination.GreedyEndsTruncated` | internal/composite/executor.go:564-577 | a positional broker that ignores count ends a chain after one call, truncated and without a cursor |
| `Pagination.Assemble` | internal/composite/executor.go:596-621 | which keys the step result carries, when, and with which values, the message that goes with each reason for truncation included |
| `Notes.CursorAdviceDropped` | internal/composite/bound.go:297-308 | a trimmed resumable step advises paging on within the kept rows and no longer advises following its cursor |
| `Notes.MaxResultsAdviceDropped` | internal/composite/bound.go:297-308 | the advice to raise maxResults does not survive a trim, of a resumable step or any other; a resumable step with rows left is told how to page on |
| `Shaving.PickIsLargest` | internal/composite/bound.go:203-216 | the array a row is taken from has the most estimated bytes of all that still have rows |
| `Shaving.Trimmer.constructor` | internal/composite/bound.go:157-182 | every candidate starts with all its rows and a byte counter equal to the sum of their sizes |
| `Shaving.Trimmer.Shave` | internal/composite/bound.go:203-216 | one row leaves the largest array, the size freed is returned, and every byte counter still equals the sum of its kept row sizes |
| `Shaving.Trimmer.ShaveExcess` | internal/composite/bound.go:233-256 | rows are dropped until their sizes cover the excess or none are left, counters kept exact |
| `Shaving.ExactPass` | internal/composite/bound.go:240-256 | the measured pass ends where repeated exact measurement says it must |
| `Shaving.Settle` | internal/composite/bound.go:201-256 | both passes together compute `Trimmed` |
| `Shaving.TrimmedBalancedAndFits` | internal/composite/bound.go:201-256 | for any measure: no array with rows left has more bytes than any trimmed array had just before its last cut; the result fits whenever the emptied one does; an oversized result really is cut |
| `Shaving.TrimmedSpare` | internal/composite/bound.go:201-256 | no row is dropped needlessly: some array lost its last row at a moment when putting that row back would still have left the shaved bytes short of the excess measured then |
| `Valve.TrimmedStepFields` | internal/composite/bound.go:277-290 | a trimmed step is a prefix of its rows, flagged, with the exact omitted count, the message that goes with the cut and no next cursor, every other field unchanged |
| `Valve.Response.Bound` | internal/composite/bound.go:142-270 | the valve's update of the result in place and its report are `BoundResponse` |
| `Valve.Trim` | internal/composite/bound.go:183-269 | the imperative valve computes its specification once candidates are known; `Valve.ValveTrims` and `Valve.TruncatesExactly` say what that is |
| `Valve.OrderIrrelevant` | internal/composite/bound.go:148-182 | the outcome does not depend on the order the result's keys are walked in |
| `Valve.UntouchedWhen` | internal/composite/bound.go:142-200 | the result is left alone if and only if it fits, has nothing to trim, or would not fit even emptied; unbounded is reported exactly in the last two cases |
| `Valve.ValveTrims` | internal/composite/bound.go:142-270 | for any measure: the trimmed result fits, each trimmed array is a proper prefix, cuts are balanced and none is needless, the report names exactly the trimmed steps in order and totals every omitted row, all else unchanged |
| `Valve.TruncatesExactly` | internal/composite/bound.go:142-231 | the valve trims if and only if the result is over the limit, some step has rows to trim, and the result with all those rows removed can be measured and fits |
| `Valve.SomeRowKept` | internal/composite/bound.go:233-256 | if the estimated row sizes are never too small and every single row would fit beside the emptied result, a trimmed result keeps at least one row |
| `Valve.CandidatesAre` | internal/composite/bound.go:148-182 | the steps that can be cut are exactly those of the result, other than its summary, that hold a non-empty list of rows whose sizes are known |
| `Valve.SummaryKept` | internal/composite/bound.go:148-182 | a postProcess summary is never touched |
| `Resume.TrimThenResume` | internal/composite/bound.go:277-308 | after the valve cuts a resumable step to its first rows and removes the cursor, repeating the call with the same cursor and any maxResults within the kept rows returns the first of exactly those rows; any cursor it offers points right after them, and it offers one if no page is larger than the call still wants |
| `Resume.FollowGapless` | internal/composite/bound.go:291-308 | paging with the valve in the way: whatever each call asks for, whatever else its result holds and wherever the valve cuts, a caller that repeats a trimmed call within the kept rows and otherwise follows nextCursor collects a gapless run of the list; when done it has the rest of it; and it is done within 500 calls per row left plus 500, unless the valve once kept no row or a page was larger than the call still wanted |
| `Body.Classify` | internal/composite/executor.go:899-907 | which parameter names are reserved for path and query, and whether the operation takes a body |
| `Body.Spread` | internal/composite/executor.go:930-938 | spreading an object succeeds if and only if no key is reserved or taken, and then adds exactly its fields, in any key order |
| `Body.MergeOne` | internal/composite/executor.go:926-944 | one parameter is merged if and only if what it offers neither leaks nor clashes |
| `Body.Merge` | internal/composite/executor.go:918-944 | for every walk of the maps, merging succeeds if and only if contributions are pairwise disjoint and leak-free, and yields their union |
| `Body.ConstructRequestBody` | internal/composite/executor.go:898-982 | acceptance and the accepted arguments are the function `Assembled`, in which no iteration order appears; `Body.SentExactly`, `Body.UnmergeableRefused` and `Body.WithoutBody` say what it is |
| `Body.AcceptedBody` | internal/composite/executor.go:898-982 | a sent body holds every field of every object parameter and every other parameter under its own name, each exactly once and nothing else; no path or query name, no listed secret in any letter case, unless the operation is named create no retargeting field and no TLS turned off in any letter case, no authenticated bridge left enabled, no undeclared field |
| `Body.SentExactly` | internal/composite/executor.go:898-982 | if contributions neither clash nor leak, their union is sent if and only if the operation is named create, update or replace where checks are configured, no check objects to it, and every field is declared; otherwise nothing is |
| `Body.UnmergeableRefused` | internal/composite/executor.go:918-944 | parameters that clash or leak are refused whatever the checks |
| `Body.WithoutBody` | internal/composite/executor.go:947-961 | an operation without a body sends its arguments as they are, and is refused if checks are configured on it |
| `Body.PassesIffNoObjection` | internal/composite/bodychecks.go:149-252 | each body check, read off the operation name, the field lists and the letter-folded body, objects exactly when the check fails |
| `Body.ModeByName` | internal/composite/bodychecks.go:61-71 | a body is checked as a create or as an update exactly by the prefix of the operation name |
| `Owner.ScanFinds` | internal/tools/owner_validation.go:411-423 | the final scan returns an owner some scanned parameter carries, and none only if none does |
| `Owner.ReadIffGiven` | internal/tools/owner_validation.go:401-424 | in every order an owner is read if and only if some parameter gives a non-empty one, by itself or inside an object, and one that is read is given |
| `Owner.OwnerNeverMissed` | internal/tools/owner_validation.go:401-424 | whatever the parameters look like, an owner that would be written never goes unnoticed |
| `Owner.SeenIffUnshadowed` | internal/tools/owner_validation.go:401-424 | for a body with owner o, every walk order reads o if and only if no earlier-consulted parameter carries another owner |
| `Owner.OwnerSeen` | internal/tools/owner_validation.go:401-424 | with scalar path and query parameters, the check reads exactly the owner that body assembly writes, whichever parameter carried it, in every order |
| `Owner.ShadowedOwner` | internal/tools/owner_validation.go:401-424 | for every operation with a path or query parameter and a body: parameters for which the body is assembled with owner o, the check reads another owner, and the write proceeds on a broker that has the VPN but no owner o |
| `Owner.Handle` | internal/tools/owner_validation.go:276-337 | the write proceeds if and only if no owner is named, the username is found, or both username and VPN are not found; each denial names its cause; the owner asked about is the one read from the parameters |
| `Owner.WriteChecked` | internal/tools/owner_validation.go:276-337 | a write that names owner o passes the check if and only if o itself was found or its VPN was not |
| `Owner.WriteCheckedIffUnshadowed` | internal/tools/owner_validation.go:276-424 | for any parameters: if nothing shadows the written owner the check decides by it, for every order and every broker; if something does, there is an order and a broker for which a write with an unknown owner proceeds |
| `Results.ScrubUrisExact` | internal/semp/sempv2/envelope.go:60-70 | no URI-bearing key is left at any depth, arrays included, if and only if no array outside a removed key held one |
| `Results.ScrubUrisByPath` | internal/semp/sempv2/envelope.go:60-70 | along any path of keys the scrubbed value is the scrubbed original, absent exactly where the path goes through a URI key; what is not an object is unchanged |
| `Results.ScrubExact` | internal/composite/executor.go:1047-1075 | scrubbing removes links from an envelope and from every row of a fan-out, and leaves their metadata without URIs at any depth if and only if no array in that metadata holds one outside a removed key |
| `Results.ArrayKeepsUri` | internal/semp/sempv2/envelope.go:60-70 | an envelope whose metadata lists a URI inside an array is returned unchanged |
| `Results.ScrubKeeps` | internal/semp/sempv2/envelope.go:46-54 | scrubbing removes only links, keeps data untouched, and keeps metadata an object |
| `Results.ApplyKeeps` | internal/composite/executor.go:1004-1035 | with omitRawSteps the result is the summary alone; otherwise it holds every step under its own ID with its own data, clean exactly when its metadata has no URI inside an array, the handler's summary, and nothing else |
| `Schema.FieldPropertiesSchema` | internal/composite/schema.go:221-234 | for any walk of the field map the item schema types exactly the declared fields and tolerates others |
| `Schema.BuildStrictOutputSchema` | internal/composite/schema.go:46-71 | the loop builds the closed step-keyed schema with one required property per step and the summary |
| `Schema.PropertyOf` | internal/composite/schema.go:50-54 | with unique IDs each step ID declares that step's own schema |
| `Schema.ItemExact` | internal/composite/schema.go:221-234 | a resource is accepted if and only if it is an object, names what it must, and its declared fields have their types; unknown fields are let in |
| `Schema.EnvelopeExact` | internal/composite/schema.go:170-180 | an envelope is accepted if and only if it holds conforming data and any metadata is an object |
| `Schema.StrictExact` | internal/composite/schema.go:46-71 | a result is accepted if and only if it holds every step and the summary, each valid for its own step, and no other key |
| `Schema.BranchesDisjoint` | internal/tools/composite_handler.go:141-172 | for every tool no value satisfies both the strict schema and the desired-state schema |
| `Schema.DeclaredAccepts` | internal/tools/composite_handler.go:141-172 | the declared oneOf accepts exactly the union of its branches, and has the desired-state branch exactly where some step creates or deletes |
| `Schema.SchemaByPrefix` | internal/tools/composite_handler.go:58-65 | a tool declares the generic schema exactly when no step is a config or action operation |
| `Schema.AnyStepsExact` | internal/tools/types.go:154-159 | the generic schema accepts exactly the objects of objects |
| `Schema.ContentIsDesired` | internal/tools/errors.go:455-497 | every desired-state report satisfies its schema |
| `Schema.DesiredExact` | internal/tools/errors.go:483-497 | the desired-state schema accepts exactly the objects with an outcome of the two, changed false, a message, possibly a verification flag, and nothing else |
| `Schema.ReportSays` | internal/tools/errors.go:375-465 | an error is a reached state exactly if a create met an existing object or a delete a missing one; the first is reported as already_exists with its verification flag, the second as already_absent, both as no change |
| `Schema.DesiredStateAdmitted` | internal/tools/errors.go:375-400 | whenever a tool's own step fails with an error classified as an already-reached state, the report satisfies that tool's declared schema |
| `Conformance.ScanProduced` | internal/composite/executor.go:494-622 | a finished scan of conforming rows is a well-shaped page, however the broker pages |
| `Conformance.PageExact` | internal/composite/schema.go:119-140 | a paginated step is accepted if and only if it is a page of valid rows with bookkeeping of the right types, a cursor only where resumable, and no other key |
| `Conformance.FanOutExact` | internal/composite/schema.go:96-118 | a fan-out step is accepted if and only if every row is a valid envelope under its key and only a skip count stands beside them |
| `Conformance.RowsAccountedFor` | internal/composite/executor.go:442-446 | the result of a fan-out whose caller stayed accounts for every row of its parent: by its answers and by the number it says it skipped, which is left out when there is none |
| `Conformance.ProducedShaped` | internal/composite/schema.go:82-151 | what a step returns against an honest broker has, once scrubbed, the shape its schema asks for, unless the schema asks for one resource where the answer is or holds a list |
| `Conformance.UnpagedListRefused` | internal/composite/schema.go:140-149 | a list operation whose pages are not followed never returns what its schema asks for |
| `Conformance.ArrayedFanOutRefused` | internal/composite/schema.go:98-118 | a fan-out over a list operation, or with followed pages, that has made a call never returns what its schema asks for |
| `Conformance.ShapedTrimmed` | internal/composite/bound.go:277-290 | trimming keeps a step's shape, and only lists of rows are ever trimmed |
| `Conformance.ResultsConform` | internal/composite/schema.go:46-151 | a result whose steps all have the shape their schemas ask for validates against the declared schema before and after trimming, for any measure, through the strict branch alone |
| `Fitting.RunIsConsistent` | internal/composite/executor.go:185-203 | every successful run leaves one result per step, each what that step returns in the light of its parent's result |
| `Fitting.ConsistentIsRun` | internal/composite/executor.go:185-203 | and all such results are left by some successful run |
| `Fitting.SuccessMeansRuns` | internal/composite/executor.go:340-356 | a tool succeeds only if every operation is in the catalog and no fan-out goes over a step that returns one resource |
| `Fitting.NoCallNoAnswers` | internal/composite/executor.go:340-447 | a fan-out whose parent lists nothing, or whose key or that of an unconditional fan-out beside it is declared not to be text, has no answers in any successful run |
| `Fitting.ReadsConform` | internal/tools/composite_handler.go:141-144 | every result of a tool without a config or action step satisfies the generic step-keyed schema, before and after trimming |
| `Fitting.OmittedNeverConforms` | internal/composite/executor.go:1014-1015 | no result of a tool that writes and omits its raw steps satisfies its declared schema |
| `Fitting.UnpagedListNeverConforms` | internal/composite/schema.go:140-149 | nor does any result of a tool that writes and has an unpaged list step |
| `Fitting.MisfitFanOut` | internal/composite/schema.go:98-118 | for every misfit fan-out of a tool that writes and can succeed, a successful execution whose result is refused |
| `Fitting.ConformsIffFits` | internal/composite/schema.go:46-151 | every successful execution of an accepted tool against every honest broker conforms, before and after trimming, if and only if the definition and the catalog fit |
| `Fitting.UnpagedListTool` | internal/composite/schema.go:140-149 | an accepted tool with an unpaged list step does not fit |
| `Fitting.PagedFanOutTool` | internal/composite/loader.go:247-273 | an accepted tool with a step that has both forEach and followPages does not fit |
| `Fitting.SummaryOnlyTool` | internal/composite/loader.go:149-165 | an accepted tool with omitRawSteps does not fit |
| `Batches.GroupStepsIntoBatches` | internal/composite/executor.go:207-232 | the grouping loop computes `Group` |
| `Batches.GroupIsProper` | internal/composite/executor.go:207-232 | batches flatten back to the declared order, sequential batches are single ordinary steps, and parallel runs are maximal |
| `Batches.GroupIsOnly` | internal/composite/executor.go:207-232 | no other grouping has those properties |
| `Batches.ExecuteBatch` | internal/composite/executor.go:731-761 | whatever order parallel steps finish in, the same results are stored |
| `Batches.Execute` | internal/composite/executor.go:185-203 | a whole run is a function of the steps, for every completion order of every batch |
| `Batches.StoredForgetsOrder` | internal/composite/executor.go:753-758 | draining the result channel in any order gives the same map |
| `Batches.SeesEarlierBatches` | internal/composite/executor.go:185-203 | in every run that gets past n batches, successful in the end or not, each step of those batches returned its result seeing exactly the results of the batches before its own, and all of these still stand |
| `Batches.ReachedSees` | internal/composite/executor.go:185-203 | whenever a batch is reached, its steps see the results of exactly the steps declared in earlier batches |
| `Loader.ValidateSteps` | internal/composite/loader.go:66-121 | the validation loop accepts exactly the loadable step lists |
| `Loader.LoadableExactly` | internal/composite/loader.go:66-273 | a step list is accepted if and only if it is not empty and each step has an ID that no earlier step has; a fan-out is not parallel, has a key, at most 32 calls at a time and an earlier parent that does not select the key away; other steps carry no fan-out settings; and at most one step is resumable, with followed pages, a positive count, no fan-out and a cursor parameter |
| `Loader.ValidateOne` | internal/composite/loader.go:220-273 | the accumulated sets decide the fan-out and resumable rules exactly as the declared steps do |
| `Loader.LoadableUnique` | internal/composite/loader.go:79-89 | accepted step IDs are unique |
| `Loader.ForEachFindsParent` | internal/composite/loader.go:247-273 | in every run of an accepted tool that reaches its batch, a forEach step finds its parent's result, whether or not the run succeeds |
| `Loader.NeverOrphaned` | internal/composite/executor.go:340-343 | the missing-parent error never occurs: if steps can fail in no other way, every prefix of the run of an accepted tool succeeds |
| `FanOut.BoundedInFlight` | internal/composite/executor.go:368-434 | in every interleaving at most the configured number of per-row calls is in flight, 8 if none is configured, and between 1 and 32 for an accepted step |
| `FanOut.SuccessPartitions` | internal/composite/executor.go:340-447 | a successful fan-out has exactly the keys of passing rows, all distinct, each with its own call's answer, and answers plus skips equal the rows, unless the caller left; and then exactly when its loop reached the end |
| `FanOut.SuccessByRow` | internal/composite/executor.go:340-447 | read off the rows themselves: a successful fan-out whose caller stayed found every row readable, has exactly the keys of the rows its predicate lets pass, no key twice, and counts exactly the rows it turned down as skipped |
| `FanOutProgress.EveryFanOutCanEnd` | internal/composite/executor.go:340-441 | no deadlock: from every state of every run the loop and all its calls can be brought to their end, whatever the broker answers and without the caller leaving |
| `FanOutProgress.SameForEverySchedule` | internal/composite/executor.go:340-447 | for any broker and any interleaving that has come to its end with the caller there, the fan-out succeeded if and only if every row is readable, every passing row has text under the key field, no text occurs twice and the broker answers each of their calls; and the answers are the broker's |
| `FanOut.NoCallAfterEnd` | internal/composite/executor.go:406-418 | once a call has failed or the caller has left, no further per-row call is ever started |
| `FanOut.CutShort` | internal/composite/executor.go:412-418 | if the first row not skipped has a key, there is a run in which the caller leaves while that row waits for its slot and is told of success with no answers |
| `FanOut.PartitionsExactly` | internal/composite/executor.go:340-447 | every successful run of a configuration, however scheduled and whoever leaves, answers or skips every row if and only if the first row not skipped, if any, is not a keyed one |
| `FanOut.NoKeyNoAnswer` | internal/composite/executor.go:392-447 | if no row has a key, a successful run has no answers |
| `FanOut.FirstRowFine` | internal/composite/executor.go:374-391 | a successful run, even one cut short, has found its first row not to be bad |
| `DedupKey.ParseKey` | internal/tokenexchange/dedup_key.go:78-86 | a key reads back as its own input if and only if subject and alias are NUL-free |
| `DedupKey.KeyInjective` | internal/tokenexchange/dedup_key.go:78-86 | equal keys mean equal inputs for NUL-free subjects and aliases |
| `DedupKey.KeyCollides` | internal/tokenexchange/dedup_key.go:78-86 | every other input shares its key with a NUL-free one |
| `Breaker.RewrapKeepsVerdict` | internal/tokenexchange/exchange.go:652-703 | rewrapping exhausted retries keeps class, status, Retry-After and verdict; a deadline counts as a failure if and only if an attempt was made |
| `Breaker.JudgedByKind` | internal/tokenexchange/circuitbreaker.go:199-250 | the verdict by kind of failure: network, 5xx and body-read failures count, cancellations, deadlines, own faults, rate limits and configuration faults do not, everything else is a success |
| `Breaker.RewrapKeepsStreak` | internal/tokenexchange/exchange.go:652-703 | over any run the streak on rewrapped errors is the streak of the errors themselves |
| `Breaker.StreakCounter.Record` | internal/tokenexchange/circuitbreaker.go:128-138 | after any history the counter is the streak modulo 2^32; excluded outcomes never reach it |
| `Breaker.StreakMeaning` | internal/tokenexchange/circuitbreaker.go:92-138 | the streak is the number of counted failures since the last counted success |
| `Breaker.OutageGrowsStreak` | internal/tokenexchange/circuitbreaker.go:92-250 | over an outage the streak grows by exactly the counted failures, however many signals without meaning come between them, and one sign of life ends it |
| `Breaker.OutageTrips` | internal/tokenexchange/circuitbreaker.go:102-250 | below the wrap, n counted failures without a sign of life between them trip a threshold of n, and fewer after one do not |
| `Breaker.ErasingExcluded` | internal/tokenexchange/circuitbreaker.go:199-227 | erasing excluded outcomes changes no streak and no decision of the consecutive rule |
| `Breaker.TripIsMonotone` | internal/tokenexchange/circuitbreaker.go:102-118 | one more failure never closes and one more success never opens the breaker |
| `Breaker.RateRule` | internal/tokenexchange/circuitbreaker.go:109-117 | the rate rule trips if and only if the sample is large enough and failures are at least the configured share of it |
| `Breaker.WrappedTrip` | internal/tokenexchange/circuitbreaker.go:102-118 | the rule decides on the true streak if and only if the counter has not wrapped below the threshold |
| `Breaker.CounterWraps` | internal/tokenexchange/circuitbreaker.go:128-138 | after 2^32 failures in a row the consecutive rule is silent |
| `RetryAfter.DelayInRange` | internal/tokenexchange/response.go:253-286 | for any header text the delay is a non-negative 64-bit duration; seconds are never wrapped, and a date gives the time left until it, none when past |
| `RetryAfter.SecondsRoundTrip` | internal/tokenexchange/response.go:253-286 | delta-seconds written in decimal with any surrounding whitespace read back exactly, and are refused exactly above a hundred years |
| `RetryAfter.PlusSeconds` | internal/tokenexchange/response.go:265 | a plus sign in front of the seconds changes nothing |
| `RetryAfter.NegativeSeconds` | internal/tokenexchange/response.go:266-268 | a negative number of seconds is no delay |
| `RetryAfter.OtherTextRefused` | internal/tokenexchange/response.go:253-286 | text that is neither a numeral nor a date gives no delay |
| `Gate.NeverDecreases` | internal/tokenexchange/retry_after_gate.go:54-68 | between any two points of any interleaving the gate never decreases |
| `Gate.EndsAtMaximum` | internal/tokenexchange/retry_after_gate.go:54-68 | once every compare-and-swap loop has returned, the gate is exactly the maximum of its start and all instants asked for |
| `Gate.WithinCeiling` | internal/tokenexchange/retry_after_gate.go:37-68 | the gate is never more than one ceiling past the clock, and no 64-bit instant wraps |
| `Gate.Undisturbed` | internal/tokenexchange/retry_after_gate.go:54-68 | a loop that nobody interferes with raises the gate to the instant asked for, cut at the ceiling, exactly if that is later |
| `Exchange.RunSound` | internal/tokenexchange/exchange.go:168-447 | the protocol invariant holds in every state of every run |
| `Exchange.SoundStep` | internal/tokenexchange/exchange.go:168-559 | every step of every caller and every flight keeps the invariant; `Admission` says which of them reach the provider |
| `ExchangeSafety.OneExchangePerKey` | internal/tokenexchange/exchange.go:223-336 | in every run at most one exchange per key is in flight, each makes at most one call of the provider client (one retry chain, which may send several HTTP attempts), and exactly one of its callers ran it |
| `ExchangeSafety.ResultsShared` | internal/tokenexchange/exchange.go:375-447 | callers that take the result of one exchange take the same result |
| `ExchangeSafety.OneVerdict` | internal/tokenexchange/exchange.go:450-480 | the breaker hears once, with the classified result, of every exchange that reached the provider, and of no other |
| `ExchangeSafety.OwnToken` | internal/tokenexchange/exchange.go:168-447 | with NUL-free inputs every token delivered or cached was issued for that caller's own subject, broker and target |
| `ExchangeSafety.ServedIffSameKey` | internal/tokenexchange/dedup_key.go:78-86 | across all runs a token issued for one input can reach a caller with another if and only if their keys are equal |
| `ExchangeSafety.InvalidateForcesExchange` | internal/tokenexchange/exchange.go:621-629 | after an invalidation every lookup of that key misses until some exchange stores a token under it, and other keys are unaffected |
| `ExchangeSafety.StoredIsServed` | internal/tokenexchange/exchange.go:186-221 | a stored token is given, without an exchange, to every later caller of its key that looks it up and stays, until it is replaced, invalidated or evicted |
| `Freshness.OldTokenIffInTransit` | internal/tokenexchange/exchange.go:617-629 | after any run and an invalidation, some continuation gives a caller not past its lookup a token the provider had issued before, if and only if an exchange for that key was then past its answer and unfinished |
| `ExchangeSafety.GoneGetsNoToken` | internal/tokenexchange/exchange.go:183-221 | a caller whose context ended before it was given a token never is |
| `ExchangeSafety.CancelUnseen` | internal/tokenexchange/exchange.go:223-254 | cancelling a caller past its entry guard, at any point of any run, changes nothing for anyone else |
| `ExchangeSafety.EarlyCancelIsAbsence` | internal/tokenexchange/exchange.go:168-185 | a caller cancelled before its entry guard takes no further part in the run |
| `ExchangeSafety.GatedMakesNoCall` | internal/tokenexchange/exchange.go:467-480 | an exchange whose gate check comes while the clock is before the instant in the gate never calls the provider and records no outcome |
| `ExchangeSafety.ThrottleHoldsEveryoneBack` | internal/tokenexchange/retry_after_gate.go:74-105 | after one exhausted rate limit, every exchange whose gate check comes before the honoured delay is over is turned away |
| `Admission.TurnedAwayExactly` | internal/tokenexchange/retry_after_gate.go:30-105 | while 64-bit instants do not wrap, a gate check turns an exchange away if and only if the delay some earlier exhausted rate limit asked for, cut at the ceiling, is not over yet; every other check lets it on |
| `Admission.GatePast` | internal/tokenexchange/retry_after_gate.go:54-105 | while 64-bit instants do not wrap, the gate lies past an instant if and only if some exhausted rate limit, honoured up to the ceiling, reached past it; nothing else moves it |
| `Admission.NoCallExactly` | internal/tokenexchange/exchange.go:467-535 | in every run a finished exchange made no call exactly if its gate check came inside the gate or the breaker refused it, and one call exactly if it was let through; each way of being turned away has its own error |
| `Admission.RefusedMakesNoCall` | internal/tokenexchange/exchange.go:467-480 | an exchange the breaker refuses is over with the circuit-open error, no call and no recorded outcome, whatever happens afterwards |
| `Admission.RefusalIsResult` | internal/tokenexchange/exchange.go:483-535 | what the provider refused is, classified, the result of that exchange for good and the one outcome recorded |
| `Admission.IssuedIsResult` | internal/tokenexchange/exchange.go:375-535 | a token the provider issued is the result of that exchange for good, and what every caller that joined it and did not leave is given |
| `Admission.WaitingMayLeave` | internal/tokenexchange/exchange.go:223-254 | a waiting caller whose context ends can leave at once, and its leaving touches no exchange and no cache entry |
| `ExchangeProgress.EveryCallerCanReturn` | internal/tokenexchange/exchange.go:168-447 | from every reachable state every caller can still return: no interleaving blocks one |
| `Brokers.CheckAliases` | internal/config/config.go:903-913 | every filled-in block learns its alias; exactly the empty blocks and invalid aliases are reported |
| `Brokers.AliasPattern` | internal/config/config.go:866-874 | an alias is valid exactly if it matches the pattern: a letter or digit, alone or followed by at most 61 letters, digits and hyphens and a last letter or digit |
| `Brokers.GroupAliases` | internal/config/config.go:915-920 | aliases are grouped by lowercase form, each once |
| `Brokers.ReportCollisions` | internal/config/config.go:921-931 | exactly one sorted collision is reported per shared lowercase form |
| `Brokers.BuildCanonical` | internal/config/config.go:944-953 | the canonical map holds exactly the filled-in, non-colliding blocks |
| `Brokers.ValidateAndCanonicalize` | internal/config/config.go:896-956 | the errors and the map are determined by the configuration, for any order of every walk |
| `Brokers.CanonicalUnique` | internal/config/config.go:896-956 | the configuration determines the canonical map |
| `Brokers.LookupExact` | internal/config/config.go:284-287 | for every accepted configuration a lookup succeeds if and only if some configured alias has the same lowercase form, and finds that broker |
| `Pool.OneClientPerBroker` | internal/semp/pool.go:183-236 | in every interleaving at most one client is ever stored per lowercase alias and all successful callers in any casing get it |
| `Pool.ClientStays` | internal/semp/pool.go:183-236 | a stored client is never replaced |
| `Pool.ReturnsClientUnlessCreateFailed` | internal/semp/pool.go:183-236 | in every run a call that returned got the stored client of its broker, except exactly those whose own creation failed |
| `PoolProgress.EveryCallCanReturn` | internal/semp/pool.go:183-236 | from every reachable state every call can still return: the locks never block it for good |
| `Authz.AddGroup` | internal/authz/authz.go:105-121 | one group's tools are added to the index, repeats ignored, nothing else changed |
| `Authz.NewPolicy` | internal/authz/authz.go:100-127 | for any walk the compiled index grants exactly what the configuration lists |
| `Authz.CompiledOnce` | internal/authz/authz.go:100-127 | every walk compiles to the same index |
| `Authz.Authorize` | internal/authz/authz.go:137-168 | allowed if and only if some caller group lists the tool; matched groups are the sorted duplicate-free set of granting groups |
| `Authz.MatchedOnce` | internal/authz/authz.go:137-168 | that description determines the matched groups |
| `Authz.Call` | internal/tools/authorization.go:108-175 | a call is dispatched if and only if the tool is exempt or a presented group lists it |
| `Authz.CallableByName` | internal/tools/authorization.go:74-76 | a tool is callable, and a registered one is listed, if and only if it is list-brokers or describe-semp-schema or a presented group lists it |
| `Authz.FilterTools` | internal/tools/listfilter.go:115-143 | the filter loop keeps exactly the callable tools, in order, and counts the policy's grants |
| `Authz.ListedIffCallable` | internal/tools/listfilter.go:115-143 | for any token a registered tool is listed if and only if a call of it would be dispatched |
| `Authz.CallableInOrder` | internal/tools/listfilter.go:115-143 | the listed tools keep the order of the registered ones |
| `Authz.ReasonMeans` | internal/tools/listfilter.go:198-209 | the recorded reason means what it says |
| `EnvSubst.TrimsOne` | internal/config/config.go:1083-1091 | at most one trailing line break, of either kind, is removed, and one is if there is one |
| `EnvSubst.RefAtExact` | internal/config/config.go:864 | a reference stands at a position exactly if a dollar sign, an opening brace, a non-empty name of capitals, digits and underscores and a closing brace do |
| `EnvSubst.ReplaceAll` | internal/config/config.go:1016-1026 | one left-to-right pass replaces every reference and lists the unset names as often and in the order they are met |
| `EnvSubst.UnsetNamesAre` | internal/config/config.go:1016-1026 | the listed names are exactly those the text refers to anywhere and the environment lacks |
| `EnvSubst.NoOverlap` | internal/config/config.go:864 | no reference starts inside another, so the pass meets them all |
| `EnvSubst.ReplacedInContext` | internal/config/config.go:1016-1026 | each reference becomes its own value in any surroundings; a value is never read again and never combines with its neighbours |
| `EnvSubst.Unreplaced` | internal/config/config.go:1011-1013 | text without references is unchanged |
| `EnvTree.Substitution.Scalar` | internal/config/config.go:1010-1041 | one scalar's rewrite and its effect on the change flag and the missing names |
| `EnvTree.Substitution.Walk` | internal/config/config.go:1042-1064 | the walk computes the rewritten tree, the unset names in walk order, and whether a value position held a reference |
| `EnvTree.UnsetBelowIs` | internal/config/config.go:1042-1064 | the names so collected are exactly those some value scalar refers to and the environment lacks |
| `EnvTree.ShapeKept` | internal/config/config.go:1042-1064 | for every tree and environment kinds, arity, keys, aliases and quoting are unchanged, and only value scalars with references differ |
| `EnvTree.NothingToDo` | internal/config/config.go:1042-1064 | a tree whose value scalars hold no reference is not rewritten |
| `EnvTree.SubstituteEnvVars` | internal/config/config.go:999-1077 | the method computes `OutcomeOf`, names in order included |
| `EnvTree.OutcomeExact` | internal/config/config.go:999-1077 | fails if and only if a reference is visible in the raw text and a value scalar refers to an unset variable, naming all of them and no other; returns the original bytes if and only if no value scalar holds a reference or none is visible in the raw text; else the rewritten tree |
| `EnvTree.EscapedReference` | internal/config/config.go:1000-1002 | a document whose only reference is written with a YAML escape is kept as it is although the variable is not set |

## Left out

- HTTP, TLS, listeners, logging, metrics, tracing spans and audit records: no effect on the results modelled.
- Template resolution of step arguments, `select`, optional arguments and their retry: a step's call is an oracle of what it sees.
- Wording of messages: texts are parameters, except where a lemma is about which advice survives.
- JSON and YAML encoding: sizes are an arbitrary measure, parsing and marshalling are function parameters.
- SHA-256: the deduplication key is identified with the bytes that are hashed.
- The internals of singleflight, gobreaker and errgroup: at most one closure per key whose result its joiners share; excluded-then-success callbacks; first error cancels. Rolling windows and half-open probing are not modelled.
- Recovered panics inside a shared exchange, and tracing identities of winners and followers.
- Token expiry and cache eviction policy: a lookup may miss, and an entry may vanish, at any time.
- `parseSuccessBody` and client-error classification of the provider's response.
- In-place update and sharing of nested maps in the scrub and of nodes in the environment walk: both are modelled on values, so two references to one map or node are not captured.
- Post-processors that rewrite the step results they read, as that of list-vpns does: the summary is an arbitrary object and the steps stay as they are.
- The individual HTTP attempts of a provider call: a retry chain is one call with one outcome and a count of attempts.
- The registry of body checks by name: a check carries its own field lists; letter case is folded one character at a time.
- Field-by-field configuration checks and defaults, post-processor registration and `optionalArgs` validation.
- The text of `forEachIf`: whether a row passes is an arbitrary function, constantly true where there is no predicate.
- Breaker.TripIsMonotone: percentages are real numbers, so floating-point rounding of the failure rate is not modelled.
- Pagination.ResolveMaxResults: a request beyond the range of a 64-bit integer is treated as the cap.
