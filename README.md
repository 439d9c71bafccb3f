# Experiments plugin: A/B-test engine, variant assignment, blocks and titles UI

This project models the core of the WordPress experiments plugin and proves
properties of that model.

- **The server-side A/B-test engine of `inc/namespace.php`.**
  - Per-post test state lives in post meta. Three modules cover it:
    - `AbTestState`: the post meta and the getters over it;
    - `AbTestAnalysis`: the analysis of the aggregated analytics;
    - `AbTestSite`: a `Site` class whose fields are the registry, the post meta, the completed records, the fired actions and the cron queue.
  - The analysis computes each variant's conversion rate. It picks a leader with a rolling maximum and a minimum-sample rule. It takes a p-value against the control from a Binomial pmf, and declares a winner below 0.01.
  - Around the analysis, the result processing keeps a monotone timestamp cursor, slots the fresh buckets by variant, and exits early for tests that are not running or ended. An unregistered test id makes `get_post_ab_test` throw a TypeError: a run then changes nothing, a cron run stops at its first post without queueing the next page, and rendering fails.
  - Also modelled: the render-time choice between the default output, the winner and the test markup (`Render` as written, `RenderCorrected` with the winner index fixed); the variants update with its results reset; the cron paging.
- **Client-side variant assignment** of the `<ab-test>` element, in both scripts:
  - `ExperimentsClient` for `src/experiments.js`;
  - `TestsClient` for the older `src/tests.js`.

  Each has a `Page` class holding localStorage's test map, the registered analytics attributes and the goal handlers. The decision they share is `VariantAssignment.Decide`. The two `Math.random()` draws are inputs in [0, 1). URL parameters can override the stored assignment.
- **The four dynamic blocks' `render_block` serialisers.** Each comes with a reader that parses the markup back (`BlockMarkup`). The personalization block keeps its static set of client ids in a `Renderer` object.
- **The editor list operations on variant blocks:**
  - `PersonalizationEditor`: ensure a fallback, prepend, copy-insert, remove, set parents;
  - `ExperienceEditor`: present a default variant, append, copy, remove, name, reselect.

  Both work on `EditorBlocks.Block` values. New client ids from `createBlock`/`cloneBlock` are inputs.
- **The titles test UI:**
  - `TitleList`: the titles list with set, append and remove at an index; seeding; the 26-title cap; the preview link;
  - `TitleResults`: the duration breakdown and the results guard;
  - `DateRange` and `LegacyDateRange`: the two date-range components;
  - `TitleSettings`: the settings helpers.

Times are integer milliseconds. Conversion rates are exact rationals (`real`). `now` is an input wherever the source calls `milliseconds()` or `Date.now()`.

## Model

| member | source | states |
|---|---|---|
| AbTestState.ArrayCast | inc/namespace.php:434-436 | the `(array)` cast of stored results is empty exactly for a stored empty array; a missing value (`''`) casts to a non-empty array |
| AbTestState.GetStartTime | inc/namespace.php:390-392 | the start time is the stored integer, or now when that is 0 or missing; the result is non-zero unless now is 0 |
| AbTestState.GetEndTime | inc/namespace.php:401-403 | the end time is the stored integer, or now + 30 days when that is 0 or missing |
| AbTestState.RunningMeans | inc/namespace.php:545-552 | running iff there are variants, it is started, the paused meta is exactly `'false'`, and start <= now < end, with the `?:` defaults spelled out |
| AbTestState.NeverPausedReadsPaused | inc/namespace.php:445-447 | a post that never stored the paused flag reads as paused, so it is not running |
| AbTestState.PausedRoundTrip | inc/namespace.php:534-536 | after writing `'true'`/`'false'`, the paused read returns the flag written; variants, results and end time are untouched |
| AbTestState.DefaultWindow | inc/namespace.php:390-403 | with no stored start or end, the window is [now, now + 30 days) |
| AbTestAnalysis.Rate | inc/namespace.php:845-847 | the rate is hits/size for a non-zero size and 0 otherwise |
| AbTestAnalysis.SampleRule | inc/namespace.php:862 | `size*rate >= 5 && size*(1-rate) >= 5` holds iff the size is non-zero with at least 5 hits and 5 misses |
| AbTestAnalysis.Stats | inc/namespace.php:844-873 | one statistics record per aggregation; its p-value is the pmf at the variant's hits, with the variant's size and the control's rate |
| AbTestAnalysis.ScanStep | inc/namespace.php:858-865 | one more variant raises `max_rate` when its rate exceeds it, and becomes `winning` only if its sample is large enough as well |
| AbTestAnalysis.ScanLeaderInRange | inc/namespace.php:858-865 | `winning` is always a valid variant index |
| AbTestAnalysis.ScanMax | inc/namespace.php:841-859 | `max_rate` is the largest rate seen, or 0 when none is positive |
| AbTestAnalysis.ScanWinning | inc/namespace.php:840-865 | `winning` is the last variant that raised the maximum with a large enough sample; it is false iff no variant did |
| AbTestAnalysis.LeaderBeatsEarlier | inc/namespace.php:858-865 | the leader's rate is positive and strictly above every earlier variant's |
| AbTestAnalysis.TiesNeverDisplace | inc/namespace.php:858 | a later variant whose rate does not exceed the leader's does not raise the maximum |
| AbTestAnalysis.NoPositiveRateNoLeader | inc/namespace.php:840-858 | with all rates zero, `winning` stays false |
| AbTestAnalysis.SmallSampleBlocksLaterVariant | inc/namespace.php:858-865 | `max_rate` is raised even when the sample check fails: a small high-rate sample keeps a later large-sample variant from leading |
| AbTestAnalysis.Analyse | inc/namespace.php:834-923 | one statistics record per aggregation; a winner equals `winning` and is a valid index |
| AbTestAnalysis.WinnerIsSignificantLeader | inc/namespace.php:858-881 | a declared winner led with at least 5 hits and 5 misses, and its pmf p-value is below 0.01 |
| AbTestAnalysis.WinnerIffSignificant | inc/namespace.php:876-922 | winner == i iff winning == i and that variant's p is present and strictly below 0.01 |
| AbTestAnalysis.ControlAgainstItself | inc/namespace.php:870-872 | the control's p-value is taken at its own rate |
| AbTestAnalysis.ScanAggregations | inc/namespace.php:839-873 | the loop builds exactly `Stats` and leaves `winning` as the scan's leader |
| AbTestSite.WithDefaults | inc/namespace.php:244-256 | each missing option takes its default (name = test id, `ab_test_<id>`, `string`, `click`, identity variant callback, the callable no-op winner callback, array filters); given options are kept |
| AbTestSite.GoalEvent | inc/namespace.php:729 | the goal's event type is the text before its first `:` |
| AbTestSite.Indices | inc/namespace.php:808 | `array_fill( 0, n, [] )` has exactly the keys 0..n-1 |
| AbTestSite.LastWithKeyFound | inc/namespace.php:809-812 | a bucket is found for key k iff some bucket has key k, and it is the last one with it |
| AbTestSite.SlottedMeans | inc/namespace.php:806-812 | there is a slot for every variant and every bucket key; a key with a bucket holds its last bucket; a variant with no bucket keeps `[]` |
| AbTestSite.SlottedDistinct | inc/namespace.php:806-812 | with distinct in-range keys, bucket key k lands in slot k and the slots are exactly 0..n-1 |
| AbTestSite.SlottedStep | inc/namespace.php:810-812 | each loop step stores the bucket at its key |
| AbTestSite.SortBuckets | inc/namespace.php:806-812 | the slotting loop computes `Slotted` |
| AbTestSite.Merged | inc/namespace.php:793-821 | the saved timestamp is max(stored or 0, latest or 0) and is one of the two, so the cursor never decreases; entries other than the known keys are kept |
| AbTestSite.WinnerStopsTest | inc/namespace.php:883-886 | after a winner the test is paused and ends now, so it is not running at any later time; its variants are kept |
| AbTestSite.EndedStaysEnded | inc/namespace.php:641-663 | once ended and paused, the test stays not running with its end passed, so every later run fires the "ended" actions again |
| AbTestSite.DefaultEndNeverEnded | inc/namespace.php:401-403 | with no stored end time the "ended" branch is never taken |
| AbTestSite.CronCoversAllPosts | inc/namespace.php:344-364 | the chain of cron pages reaches every found post and queues no page beyond the last one that holds a post |
| AbTestSite.VariantsUpdateMeans | inc/namespace.php:456-469 | the variants are stored in every case; the results reset to `{timestamp}` iff some old variant is missing from the new list (`array_diff` is one-directional) |
| AbTestSite.AddingVariantsKeepsResults | inc/namespace.php:461-462 | adding or reordering variants keeps the results |
| AbTestSite.DroppingVariantResets | inc/namespace.php:461-467 | dropping the last variant clears winner and variants from the results |
| AbTestSite.RenderMeans | inc/namespace.php:579-621 | as written: an unregistered test id throws (iff); for a registered one, winner 0 gives the default output, winner k in 1..n the callback on `variants[k - 1]`, and a winner past the variants the missing `variants[k - 1]`; with no winner, the undecided branch |
| AbTestSite.RenderUndecidedMeans | inc/namespace.php:596-621 | a test that is not running gives the default; a running one gives the markup with its id, post, traffic, goal, fallback and one rendered variant per stored variant, in order |
| AbTestSite.RenderCorrectedMeans | inc/namespace.php:579-621 | corrected: an unregistered test id still throws; winner k > 0 gives the callback on `variants[k]`, the value the analysis recorded for that winner; a winner with no such variant is missing; with no winner it agrees with the as-written rendering |
| AbTestSite.WinnerRenderOffByOne | inc/namespace.php:589-594 | as written, variants ["A","B"] with winner 1 render "A", while the analysis recorded "B" |
| AbTestSite.WinnerCallbackIffCallable | inc/namespace.php:910-912 | the winner callback is called iff a winner is declared and `winner_callback` is set and callable, and then with the winner's value |
| AbTestSite.RenderedWinnerIsRecordedValue | inc/namespace.php:589-594 | corrected, the rendered winner is the callback on the value the analysis recorded and passed to the winner callback |
| AbTestSite.Site.constructor | inc/namespace.php:241-284 | an empty registry, meta, records, events and queue |
| AbTestSite.Site.Register | inc/namespace.php:241-284 | the test is registered with its defaults applied and scheduled hourly; nothing else changes |
| AbTestSite.Site.UpdatePaused | inc/namespace.php:534-536 | stores `'true'`/`'false'` and the paused read then returns the flag; nothing else changes |
| AbTestSite.Site.UpdateEndTime | inc/namespace.php:489-491 | stores the end time; a non-zero value is read back as the end time at any now |
| AbTestSite.Site.UpdateVariants | inc/namespace.php:456-469 | the new meta is `VariantsUpdated` of the old; nothing else changes |
| AbTestSite.Site.SaveCompleted | inc/namespace.php:561-568 | appends one completed record stamped now |
| AbTestSite.Site.AnalyseResults | inc/namespace.php:834-923 | returns `Analyse`; with a winner: paused, ended now, one completed record, two winner actions, and the winner callback with the winner's value iff the test's `winner_callback` is set and callable; without one, no change |
| AbTestSite.ProcessMeans | inc/namespace.php:627-826 | the TypeError of `get_post_ab_test` iff the test is not registered, with nothing changed; not running: paused with the ended actions iff the end has passed, else untouched; when running, a query-filter exit iff it is not an array, then a goal-filter exit iff that one is not, then no-data iff the stored results are empty, and otherwise the analysis is saved (results, completed record, winner events); only an analysed run adds a record |
| AbTestSite.ProcessAnalysed | inc/namespace.php:787-825 | a run past every exit is analysed: the saved results read back with the winner of the analysis and a cursor not moved back, the variants are kept, and the completed record and winner events are those of the analysis, the callback among them only when `winner_callback` is set and callable |
| AbTestSite.ProcessGrows | inc/namespace.php:627-826 | one run keeps the completed records and events as a prefix and adds at most one record |
| AbTestSite.Site.ProcessResult | inc/namespace.php:627-826 | ends in exactly the store and outcome of `Process`; also states the exit conditions in both directions and the analysed state directly |
| AbTestSite.ProcessAllGrows | inc/namespace.php:344-364 | over a page, completed records and events only grow, by at most one record per post |
| AbTestSite.Site.HandleCron | inc/namespace.php:344-364 | ends in the store `ProcessAll` gives for the page's posts in order; aborts iff the test is unregistered and the page has a post, changing nothing; otherwise queues page + 1 iff found > page * 50 |
| AbTestSite.ProcessAllUnregistered | inc/namespace.php:344-364 | for an unregistered test a page of runs leaves the store unchanged |
| VariantAssignment.BucketInRange | src/experiments.js:215 | `floor(r * count)` lies in [0, count) for r in [0, 1) |
| VariantAssignment.DecideMeans | src/experiments.js:187-227 | a valid stored index is reused with no write; a stored false returns false with no write or attribute; otherwise a draw above the traffic percentage stores false; else a valid index is stored and returned |
| VariantAssignment.Sticky | src/experiments.js:192-203 | once written, later visits return the same value with no further write, whatever they draw |
| VariantAssignment.OutOfRangeRedrawn | src/experiments.js:196-200 | a stored index at or past the variant count is treated as no assignment |
| VariantAssignment.ShownIndex | src/experiments.js:140 | `variants[ variantId \|\| 0 ]`: the assigned index, or the control for an excluded visitor |
| VariantAssignment.ClosestList | src/experiments.js:245-250 | `closest` is kept when it is an array and wrapped otherwise |
| Common.FirstWhere | src/experiments.js:63-64 | the leftmost position in a range where a pattern matches: it matches there and at no earlier position, or nowhere in the range |
| ExperimentsClient.FirstOverride | src/experiments.js:63-64 | the leftmost position where the override pattern matches: a match there and none before it, or no match at all |
| ExperimentsClient.ShownFor | src/experiments.js:125-140 | the fallback iff one exists and the visitor is excluded; otherwise the assigned variant, or the control |
| ExperimentsClient.UrlOverrideDecides | src/experiments.js:63-67 | a URL value below the variant count is shown, with no draw and no further write |
| ExperimentsClient.Page.constructor | src/experiments.js:77-79 | the page starts from the stored test map |
| ExperimentsClient.Page.AddTestForUser | src/experiments.js:81-86 | the given keys override; all other stored keys are kept |
| ExperimentsClient.Page.GetVariantId | src/experiments.js:187-227 | returns `Decide` on the stored value, writes its write under `<test>_<post>`, and registers the attribute when assigned |
| ExperimentsClient.Page.ConnectedCallback | src/experiments.js:97-140 | a URL match is stored first; the element then shows `ShownFor` of the decision, the decision's write is stored, and the attribute is registered iff the decision registers one |
| ExperimentsClient.Page.RegisterGoal | src/experiments.js:245-250 | the handler is stored with `closest` as an array |
| TestsClient.KeyRun | src/tests.js:141 | the run of `[a-z0-9_-]` characters stays in the text and stops only at a non-key character or the end |
| TestsClient.KeyRunChars | src/tests.js:141 | every character the run covers is a key character |
| TestsClient.FirstUtm | src/tests.js:141 | the leftmost match of the campaign pattern: a match there and none before it, or no match at all |
| TestsClient.UtmKeyIsKeyChars | src/tests.js:141-144 | the captured key consists of key characters only |
| TestsClient.UtmLinkRoundTrip | src/tests.js:141-144 | `?utm_campaign=test_<key>:<n>` reads back as (key, n) for any non-empty key of key characters |
| TestsClient.Page.constructor | src/tests.js:184-186 | the page starts from the stored test map |
| TestsClient.Page.AddTestForUser | src/tests.js:188-193 | the given keys override; all other stored keys are kept |
| TestsClient.Page.GetVariantId | src/tests.js:136-182 | stores the campaign value under the captured key (any test) first, then returns `Decide` on the test's own key with its write and attribute |
| TestsClient.Page.ConnectedCallback | src/tests.js:55-89 | the shown index is `variantId \|\| 0`, so an excluded visitor sees the control; the stored tests and the registered attribute are those of `GetVariantId` |
| TestsClient.Page.RegisterGoal | src/tests.js:208-213 | the handler is stored with `closest` as an array |
| BlockMarkup.ClassNameMeans | inc/features/blocks/experience/register.php:62-68 | the default align appends `alignnone` with no separator; an empty or `'0'` align leaves the class as given; any other appends `align<a>` |
| BlockMarkup.TemplateRoundTrip | inc/features/blocks/variant/register.php:70-75 | the `<template>` markup parses back as the audience, the parent id and the inner content |
| BlockMarkup.ElementRoundTrip | inc/features/blocks/experience/register.php:75-80 | the element markup parses back as the inner content, the class and the client id |
| PersonalizationBlock.Renderer.constructor | inc/features/blocks/personalization/register.php:88 | the static client-id list starts empty and duplicate-free |
| PersonalizationBlock.Renderer.RenderBlock | inc/features/blocks/personalization/register.php:87-118 | a falsy client id gives `''` and changes nothing; a first render outputs the inner content and records the id; a repeat outputs the element alone; the list stays duplicate-free |
| PersonalizationBlock.RenderTwice | inc/features/blocks/personalization/register.php:104-117 | two renders of one id parse back as (inner, class, id) and then ("", class, id) |
| ExperienceBlock.RenderBlockMeans | inc/features/blocks/experience/register.php:60-81 | empty iff the client id is falsy; otherwise parses back as the inner content, the class with its align suffix, and the id |
| PersonalizationVariantBlock.RenderBlockMeans | inc/features/blocks/personalization-variant/register.php:67-82 | empty iff the parent id is falsy; otherwise parses back as the audience (0 when missing), the parent id and the inner content |
| VariantBlock.RenderBlockMeans | inc/features/blocks/variant/register.php:61-76 | empty iff the parent id is falsy; otherwise parses back as the audience (0 when missing), the parent id and the inner content |
| EditorBlocks.Without | inc/features/blocks/personalization/data/edit.js:119 | exactly the blocks without the id remain |
| EditorBlocks.WithoutAppend | inc/features/blocks/experience/edit.js:272 | filtering distributes over concatenation, so the kept blocks keep their order |
| EditorBlocks.WithoutAbsent | inc/features/blocks/experience/edit.js:272 | removing an id that no block carries changes nothing |
| EditorBlocks.WithParent | inc/features/blocks/experience/edit.js:60-64 | every block gets the parent id and nothing else changes |
| EditorBlocks.BlockList.constructor | inc/features/blocks/personalization/data/edit.js:31 | the list holds the editor's inner blocks |
| EditorBlocks.BlockList.Push | inc/features/blocks/personalization/data/edit.js:37 | `push` appends one block |
| PersonalizationEditor.ParentClientId | inc/features/blocks/personalization/data/edit.js:30 | the stored client id when it is not blank, else the editor's own |
| PersonalizationEditor.WithFallbackMeans | inc/features/blocks/personalization/data/edit.js:11-45 | the result always has a fallback and starts with the inner blocks; an empty list becomes one fallback block; a list without a fallback gets one appended; a list with one is unchanged; the step is idempotent |
| PersonalizationEditor.EnsureFallback | inc/features/blocks/personalization/data/edit.js:30-45 | the inner-block array becomes `WithFallback` of the old, in place |
| PersonalizationEditor.AddVariantMeans | inc/features/blocks/personalization/data/edit.js:53-74 | the new variant comes first with no audience and no fallback flag; the old list follows in order; fallback presence is unchanged; removing the returned id gives back the old list |
| PersonalizationEditor.FindIndex | inc/features/blocks/personalization/data/edit.js:92 | the first index with the id, or -1 iff there is none |
| PersonalizationEditor.SliceCut | inc/features/blocks/personalization/data/edit.js:98-102 | where `slice` cuts, counting a negative index from the end |
| PersonalizationEditor.CopyVariantInserts | inc/features/blocks/personalization/data/edit.js:84-104 | the clone is the source with a new id, no audience and no fallback flag, inserted into the otherwise unchanged list |
| PersonalizationEditor.CopyPositionMeans | inc/features/blocks/personalization/data/edit.js:92-96 | the copy goes just before a fallback source and just after any other; a source missing from the list (-1) lands before the last block or first |
| PersonalizationEditor.CopyKeepsFallback | inc/features/blocks/personalization/data/edit.js:84-104 | copying never adds or removes a fallback |
| PersonalizationEditor.RemoveVariantMeans | inc/features/blocks/personalization/data/edit.js:108-123 | nothing changes when the container's `fallback` is set; otherwise exactly the blocks with the id go, in order |
| PersonalizationEditor.FallbackRemovable | inc/features/blocks/personalization/data/edit.js:113-119 | the guard reads the container, so the fallback variant itself can be removed, and the next `withSelect` appends a fresh one |
| PersonalizationEditor.SetClientIdChangesNothing | inc/features/blocks/personalization/data/edit.js:124-129 | a write happens iff the stored id is blank, and the attribute value is the same afterwards |
| PersonalizationEditor.SetVariantParents | inc/features/blocks/personalization/data/edit.js:130-140 | updates exactly the variants whose parent id is blank or differs, in order, and gives them the container's id |
| PersonalizationEditor.ReparentedSetsAll | inc/features/blocks/personalization/data/edit.js:133-139 | updating only where needed ends with every variant carrying the container's id |
| PersonalizationEditor.SecondPassSettles | inc/features/blocks/personalization/data/edit.js:133-139 | with a non-blank container id a second pass issues no update; with a blank one every variant is updated on every pass |
| ExperienceEditor.PresentedMeans | inc/features/blocks/experience/edit.js:199-214 | an empty container is presented as one variant with no audience whose parent is the container; any other list as it is |
| ExperienceEditor.PresentVariants | inc/features/blocks/experience/edit.js:203-209 | the inner-block array becomes `Presented` of the old, in place |
| ExperienceEditor.InitParents | inc/features/blocks/experience/edit.js:58-65 | with no stored client id, the editor's own id is stored and every variant's parent is set to it; otherwise nothing is written |
| ExperienceEditor.AddVariantMeans | inc/features/blocks/experience/edit.js:218-240 | the new variant is appended with no audience and the returned id; removing that id gives back the old list |
| ExperienceEditor.CopyVariantMeans | inc/features/blocks/experience/edit.js:241-263 | the clone is appended, equal to the source apart from its id; removing it gives back the old list |
| ExperienceEditor.RemoveVariantMeans | inc/features/blocks/experience/edit.js:264-276 | exactly the blocks with the id go, and the rest keep their order |
| ExperienceEditor.VariantNameMeans | inc/features/blocks/experience/edit.js:68-81 | "Variant i+1" for a missing variant; "Fallback" with no audience; the audience title when there is one; "Variant i+1" otherwise |
| ExperienceEditor.NumberedNamesDistinct | inc/features/blocks/experience/edit.js:71-80 | two positions with numbered labels get different labels |
| ExperienceEditor.ReselectFirstKeepsRemoved | inc/features/blocks/experience/edit.js:176-177 | as written, removing the first variant selects the removed variant itself |
| ExperienceEditor.CorrectedReselectSurvives | inc/features/blocks/experience/edit.js:171-177 | corrected, the new selection is another variant, which survives the removal |
| TitleList.RemovedAtMeans | src/features/titles/field-title-text.js:67-70 | removal drops exactly the entry at the index; the others keep their order |
| TitleList.SetAtMeans | src/features/titles/field-title-text.js:72 | setting below the length replaces that entry only; at the length it appends |
| TitleList.SetTitles | src/features/titles/field-title-text.js:67-75 | a fresh array (the input is not mutated) holding the removal or the set |
| TitleList.SeededMeans | src/features/titles/field-title-text.js:63-65 | a seeded list is never empty, and only an empty list gains the post title |
| TitleList.TitlesProp.constructor | src/features/titles/field-title-text.js:58 | the prop holds the given titles |
| TitleList.TitlesProp.SeedDefault | src/features/titles/field-title-text.js:63-65 | the prop becomes `Seeded` of the old, in place |
| TitleList.TitleCapHolds | src/features/titles/field-title-text.js:137-146 | the add field appears only when editable and below 26 titles, and it only appends, so the list never exceeds 26 |
| TitleList.BackspaceKeepsText | src/features/titles/field-title-text.js:94-105 | backspace removes a title only when it is already empty, and then only that title |
| TitleList.RemoveEmptyKeepsText | src/features/titles/field-title-text.js:69-70 | removing an empty title leaves the non-empty titles and their order unchanged |
| TitleList.OverrideAfterLead | src/experiments.js:63-64 | after a lead of query characters, the first override parameter is the `set_test` one |
| TitleList.PreviewLinkShowsTitle | src/features/titles/field-title-text.js:126 | the preview link sets the post's titles test to the title's index, so below the variant count the visitor is shown that title |
| TitleResults.DurationMeans | src/features/titles/results.js:22-27 | hours in [0, 24) and minutes in [0, 60); the parts add up to the elapsed time less under a minute; the days are non-negative iff the elapsed time is |
| TitleResults.ResultRowsMeans | src/features/titles/results.js:45-80 | nothing iff there are no titles or fewer than two variants; a TypeError at the first title past the variants iff there are more titles than variants; otherwise one row per title in order, with only the winner's row highlighted and carrying its note |
| DateRange.StartChangeMeans | src/features/titles/components/field-date-range.js:30-33 | the new start is always before the end: the picked time when it is, otherwise one day before the end |
| DateRange.EndChangeMeans | src/features/titles/components/field-date-range.js:44-48 | the new end is always after the start: the picked time when it is, otherwise one day after the start |
| DateRange.RangeStaysOrdered | src/features/titles/components/field-date-range.js:17-61 | either handler keeps the range ordered; a clamped range shows the two-week recommendation; the 30-day defaults do not |
| LegacyDateRange.StartChangeMeans | src/features/titles/field-date-range.js:24-26 | the pick is passed on unparsed: a numeric pick gives min(time, end), a tie giving the end; a date-text pick compares as NaN and always gives the end |
| LegacyDateRange.EndNeverAfterStart | src/features/titles/field-date-range.js:35-37 | as written, the new end is never after the start; a numeric pick one day after the start, and any date-text pick, yields the start |
| LegacyDateRange.EndChangeMeans | src/features/titles/field-date-range.js:35-37 | corrected, on the pick parsed to milliseconds, the new end is max(time, start): never before the start, and a valid pick is kept |
| LegacyDateRange.DefaultRangeMeans | src/features/titles/field-date-range.js:10-13 | a missing start is now and a missing end is now + 30 days |
| TitleSettings.EveryIsPrefix | src/features/titles/settings.js:22 | `every` alone says only that the first list is a prefix of the second |
| TitleSettings.ArrayEqualsIff | src/features/titles/settings.js:20-22 | `arrayEquals` is list equality, and is false whenever the lengths differ |
| TitleSettings.PauseAlwaysToggles | src/features/titles/settings.js:54-86 | every click toggles the paused flag and records the titles; the dialog appears iff paused with edited titles, and its answer changes nothing |
| TitleSettings.TwoTitlesToRun | src/features/titles/settings.js:74-94 | the buttons are enabled iff there are at least two titles; a freshly seeded list cannot run |
| TitleSettings.TrafficShown | src/features/titles/settings.js:127 | the traffic shown is never 0 |
| TitleSettings.ShownDefaultsMeans | src/features/titles/settings.js:127-134 | a non-zero value is shown as stored; a missing or 0 value shows 35%, now and now + 30 days respectively, agreeing with the server's start and end getters |

## Left out

- The Binomial pmf (MathPHP) and `merge_aggregates` are foreign code. They are function parameters (`Pmf`, `Merge`), so nothing is proved about p-values beyond where they come from.
- The Elasticsearch query, the call to `query()` and the response format are reduced to a `Fetch` function. The request carries the test attribute, the timestamp cursor and the goal's event type; the rest of the query JSON is not modelled.
- WordPress glue is not modelled: REST field registration, `wp_schedule_event`, the `WP_Query` of a cron page (its result is an input), `trigger_error`, `send_post_ab_test_notification` and e-mail, and the string serialisation of post meta (meta values are typed).
- `update_ab_test_start_time_for_post`, `update_is_ab_test_started_for_post`, `update_ab_test_traffic_percentage_for_post` and `update_ab_test_results_for_post` are plain meta writes. The model writes the meta map directly where the core uses them.
- AbTestSite.Site.ProcessResult: the query and goal filters matter only through whether they are arrays, and `$data['timestamp'] ?? 0` feeds the request. How a filter's content shapes the query is not modelled.
- AbTestSite.Render: the `<ab-test>` markup is a `TestMarkup` value carrying its attributes and rendered variants, not HTML text. `esc_attr` escaping is not modelled.
- AbTestSite.Site.AnalyseResults: the winner callback is recorded as an event with its argument. The default no-op callback and any user callback's effects are not modelled. Called for an unregistered test, the source throws in `get_post_ab_test` (namespace.php:835); the model computes the analysis without the callback instead. It is only reached from `ProcessResult`, after that test has already thrown there.
- Integer and float width: PHP integers and JavaScript numbers are unbounded integers here; rates are exact rationals. Float rounding in `$hits / $size`, in `Math.floor` near 2^53 and in the percentages of the results panel is not modelled.
- The DOM and runtime parts of `src/experiments.js` and `src/tests.js` are not modelled: shadow DOM, `slotchange`, `outerHTML` replacement, the wait for all variants, the goal-handler parent walk and click binding, and `Analytics.record`. `TracksGoal` gives only the condition under which a goal handler is bound.
- `JSON.parse` of localStorage is a typed map: a stored value is `false` or an integer. Other JSON values are not modelled.
- VariantAssignment.Decide: a stored negative index counts as a valid assignment, as in the source. `Math.random()` is two input draws in [0, 1).
- Block renderers: `trigger_error` warnings are not modelled. The `%d` format is modelled for integer audiences only; PHP's integer conversion of a non-integer audience is not modelled. The readers require the client id, parent id and class to contain no double quote, as the markup cannot then be split unambiguously.
- Editor operations: `createBlock`/`cloneBlock` client ids are inputs, and inner blocks and other attributes are carried as opaque `content`. `cloneBlock` re-cloning inner blocks with fresh ids is not modelled. `replaceInnerBlocks` and `updateBlockAttributes` are the returned lists; React re-rendering and the block-editor store are not modelled.
- ExperienceEditor.VariantName: the audience title lookup (`getAudience`) is a function parameter.
- TitleList.SetTitles: requires `index <= titles.Length`, the only indices its callers pass. Holes from assignment past the end, and negative `splice` indices, are not modelled.
- LegacyDateRange: the handlers pass the picker value on unparsed. A date-text pick is taken to be a non-numeric string, so its comparison with a number is false; a numeric string pick and stored string times compared as text are not modelled. A date-text pick is never handed on itself: both handlers then pass the other time, a number.
- Date pickers: times are millisecond integers. The `TimePicker` string value, `new Date( time )` parsing and the ISO formatting of `currentTime` are not modelled.
- ExperimentsClient.OverrideAt: the test id is matched literally. A regular-expression metacharacter in a test id changes what the source's pattern matches, and that is not modelled.
- Common.Lower: folds ASCII letters only. The `i` flag's case folding of non-ASCII letters is not modelled, so `OverrideAt`, `UtmAt` and the title-test URL matches compare non-ASCII letters exactly.
- The `Merge` parameter: the result of `merge_aggregates` is taken to return a list indexed from 0 to n - 1 in slot order. Its actual key layout is foreign code and not modelled.
- TitleResults.ResultRows: the TypeError raised for a title with no variant is the `NoVariantFor` value. What React does after the throw is not modelled.
- TitleSettings.ShownDefaultsMeans: the source calls `Date.now()` separately for the start and the end default; the model reads the clock once, so the exact 30-day gap between two missing times holds only in the model.
- TitleResults.DurationString: the string is formed with the modelled integer formatting. Nothing is proved about it beyond `DurationOf`.
- The React components and hooks that only render or look up store data are not modelled.

## Findings

| source | as written | input that shows it | evidently intended | confidence | as-written member | corrected member |
|---|---|---|---|---|---|---|
| inc/namespace.php:590 | the winner is rendered from `$variants[ $results['winner'] - 1 ]` | variants ["A", "B"] and a recorded winner 1 render "A", while the analysis recorded "B" as the winner's value | render `$variants[ $results['winner'] ]`, the variant the analysis picked and passed to the winner callback | not executed | AbTestSite.WinnerRenderOffByOne | AbTestSite.RenderCorrectedMeans |
| src/features/titles/field-date-range.js:35-37 | the end handler passes `time < startTime ? time : startTime`, so an end can never be after the start | picking an end of start + 86400000 yields the start itself, and so does any date-text pick | the mirror of the start handler on the parsed pick, max(new Date( time ).getTime(), start), so a picked end after the start is kept | not executed | LegacyDateRange.EndNeverAfterStart | LegacyDateRange.EndChangeMeans |
| inc/features/blocks/experience/edit.js:176 | after a removal, `variants[ Math.max( 0, activeVariantIndex - 1 ) ]` is selected | removing the first of two variants (active index 0) selects variant 0, the one being removed | select the next variant when the first is removed, as the personalization block's editor does (inc/features/blocks/personalization/edit.js:72-79) | not executed | ExperienceEditor.ReselectFirstKeepsRemoved | ExperienceEditor.CorrectedReselectSurvives |
