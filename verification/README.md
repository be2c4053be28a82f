# Verified models of the reporting fork's algorithms and protocols

This project models the self-contained algorithms and protocols of a Redash fork and proves what they are for. Each
module follows one source file or one component of it. Code that changes things step by step is a method or a class
proved against a specification function; the theorems are lemmas about those functions, over all inputs, all runs or
all reachable states.

* `RedisStore`, `RateLimit`, `RateLimitSharpness`: the per-user rate limiter as a concurrent protocol (read the clock,
  INCR, EXPIRE) whose steps interleave with those of any number of other calls, with time and with expiring keys.
* `ExplainPayload`, `PayloadValues`, `ExplainEndpoint`, `ExplainQuota`, `ExplainAnswers`, `ExplainCache`: the
  normalisation of a request body, the text of a model response, the endpoint that puts rate limit, cache lookup, model
  call and cache store in order, what it answers, and the cache as a concurrent protocol of lookups, model replies and
  stores.
* `Statistics`, `Anomalies`, `AnomalyScale`, `AnomalyOrder`, `AnomalyWindow`: the rolling-window anomaly detector over
  the reals.
* `WidgetLayout`, `LayoutOptimality`: the packer of the dashboard seeder.
* `TemplateSubstitution`, `TemplateNames`: the three-pass substitution of the Teams destination.
* `DashboardLock`, `DashboardPolicy`: saving a dashboard under the version counter, and the version to send with a save.
* `FolderTree`, `FolderFields`, `FolderSlugs`, `FolderStore`, `FolderAnswers`, `FolderRuns`, `FolderSaves`: the report
  category endpoints and their folder rules, for requests one after another and at the same time.
* `Grouping`, `AbcAnalysis`, `AbcReports`, `ArAging`: two families of report queries whose results must agree.
* `Pagination`, `ParamRepair`, `Migration`: paged lists, parameter repair, and the script that walks all pages.
* `Nesting`, `NestingRoundTrip`: the data dictionary.
* `Arithmetic`, `Options`, `Permutations`, `Sequences`, `Text`: shared vocabulary.

`dafny verify dfyconfig.toml` checks everything.

## Where the code and its description part

The models follow the code. These are the places where a description or an expected property says something else.

* `redash/explain.py:16` calls the rate limit a sliding window. It is a fixed one-hour bucket: twice the limit can go
  through within a second (`RateLimitSharpness.TwiceTheLimitIsReached`), and no more than that in any hour
  (`RateLimit.SlidingWindowBound`). The promise is kept exactly for the hours that begin on a full hour
  (`RateLimitSharpness.WindowKeptIff`).
* `normalise_payload` checks the label for blankness before it truncates it to 200 characters, so that a normalised
  payload can be refused when it is normalised again. `ExplainPayload.NormaliseTwice` says for which bodies, and
  `ExplainPayload.AcceptedOnce` gives one.
* The detector's description says that points with |z| >= threshold are flagged (`redash/handlers/queries.py:625`).
  A point off a window without spread has an infinite score and is not flagged (`Anomalies.FlatWindowFlagsNothing`);
  `Anomalies.FlaggedExactly` says which points are.
* `json_string_substitute` is not the plain scan for `{name}` when the template contains `$`: `$$` becomes `$`, `${`
  becomes `{` and `$name` is replaced. `TemplateSubstitution.IntendedScanIffNoDollarToken` gives the exact templates
  for which it is.
* A cache keyed by the payload does not join requests at the same time: all that look up before the first text is
  stored call the model (`ExplainCache.SimultaneousMisses`). `ExplainCache.CachedIffFresh` says which do not.
* A dashboard save without a version overwrites what its editor has not seen (`DashboardLock.SecondSaver`). It never
  does exactly if it sends a version that is not ahead of the one seen (`DashboardPolicy.NeverOverwritesIff`). A body
  without any field writes nothing and is answered with success.
* A category request saves a list made from the one it read, so that another save in between can be lost although it
  was answered with success (`FolderSaves.FirstCreateIsLost`). The folder rules hold all the same
  (`FolderSaves.InterleavedRunsKeep`), and `FolderSaves.ActsAloneIff` says exactly which changes in between matter.
* The overdue amount of the aging key figures is not the total without the current bucket when an open invoice has no
  due date: such an invoice is in the 90+ bucket but not overdue (`ArAging.OverdueIsNotCurrent`, and one such invoice
  in `ArAging.UndatedIsNeither`).
* The migration ends in an uncaught 400 answer, after all its work but before its summary, whenever the number of
  queries is a positive multiple of 50 (`Migration.Server.Walk`, and a list of such a length in
  `Migration.WalkFullPages`). A query it changes loses its options other than the parameters (`Migration.MigrateTwice`,
  and such a query in `Migration.OptionLost`).

## Model

| member | source | states |
|---|---|---|
| RateLimit.TimelyRunsKeepInv | redash/explain.py:174-181 | in every interleaving of timely calls each live counter equals the number of INCRs on its key and outlives the key's hour |
| RateLimit.NoEarlyExpiry | redash/explain.py:170-185 | if every INCR comes within 100 s of its clock read, the n-th INCR of a user's bucket returns n: the key never expires early |
| RateLimit.ExactlyLimitAllowed | redash/explain.py:170-185 | once all calls of any timely run are answered, exactly min(counted calls, limit) of a user's bucket were allowed, plus those whose INCR failed and those beyond the limit whose INCR reply was lost (fail open) |
| RateLimit.SlidingWindowBound | redash/explain.py:170-185 | in any state of any timely run at most twice the limit was allowed to one user in any half-open hour, besides calls whose INCR raised |
| RateLimit.OneCall | redash/explain.py:170-185 | a call that nothing interrupts extends any run by its steps, with the counter and the reply of the sequential function, for every fault of Redis |
| RateLimitSharpness.SlackIsSharp | redash/explain.py:178-181 | 100 s is the most a call may take: any larger allowance has a run in which a limit of one lets two counted calls of one bucket through |
| RateLimitSharpness.TwiceTheLimitIsReached | redash/explain.py:170-185 | for every limit some timely run of one second lets twice the limit through |
| RateLimitSharpness.WindowKeptIff | redash/explain.py:170-185 | no timely run lets more than the limit of a user through in an hour iff that hour begins on a full hour; in every other hour, and for every user, some timely run lets exactly twice the limit through |
| ExplainEndpoint.ExplainService.CheckRateLimit | redash/explain.py:170-185 | the counters and the reply after a call, for every fault of Redis and every limit |
| ExplainEndpoint.ExplainService.StoreCached | redash/explain.py:161-167 | stores under the payload with the time-to-live, or nothing when it is not positive or Redis fails |
| ExplainEndpoint.ExplainService.PostNormalised | redash/handlers/explain.py:59-124 | the whole effect of a request on clock, counters, cache and log, and its answer, branch by branch |
| ExplainEndpoint.ExplainService.Post | redash/handlers/explain.py:59-124 | the same from the raw body, where a false one stands for the empty object; it is normalised before the rate limit is touched |
| ExplainEndpoint.ModelTextNotEmpty | redash/handlers/explain.py:87-116 | no model call yields an empty text, so the truthiness test never mistakes a cached answer for a miss |
| ExplainEndpoint.RunsAreCoherent | redash/handlers/explain.py:87-116 | after every run the cache holds exactly the last kept text of each payload with its deadline, and every logged event agreed with it |
| ExplainEndpoint.CachedAnswersAreFresh | redash/handlers/explain.py:85-95 | in every run a cached answer is the text of the latest kept model call for an equal payload, stored less than the time-to-live ago |
| ExplainEndpoint.OneModelCallPerTtl | redash/handlers/explain.py:85-116 | in every run two model calls for equal payloads are at least a time-to-live apart unless Redis failed to store or to look up |
| ExplainQuota.RunsSimulate | redash/handlers/explain.py:71-83 | every sequential run of the endpoint is a timely run of the limiter protocol with the same counters and the same INCR errors |
| ExplainQuota.ExplanationsPerHour | redash/handlers/explain.py:71-124 | at most twice the limit of explanations, cached ones included, and one for each INCR that raised, go to one user in any hour |
| ExplainAnswers.AnswerIsDue | redash/handlers/explain.py:59-124 | in every sequential run a well-formed request of an enabled service is limited iff the limit is positive, its INCR does not raise and as many requests of its user were counted in its full hour as the limit allows; otherwise it gets the fresh text stored for its payload, or what the model says; only a model call takes time |
| ExplainAnswers.CacheIsLatestKept | redash/explain.py:161-167 | the cache entry of a payload is the last text that was answered to it as the model's own and could be stored, with its deadline |
| ExplainAnswers.LogRecordsAnswers | redash/handlers/explain.py:85-124 | exactly the explanations sent out are recorded, each as it was sent |
| ExplainCache.CachedIffFresh | redash/handlers/explain.py:85-116 | in every interleaving a request is answered from the cache iff its lookup worked and the last text stored before for an equal payload is younger than the time-to-live; the answer is that text, which another request got from the model |
| ExplainCache.MissesAreOld | redash/handlers/explain.py:85-116 | in every interleaving a request that looks up and calls the model finds every text stored before for an equal payload at least a time-to-live old |
| ExplainCache.SimultaneousMisses | redash/handlers/explain.py:85-116 | two requests that look up before either text is stored both call the model, for every payload and reply |
| ExplainCache.OneExplanation | redash/handlers/explain.py:85-124 | a request that nothing interrupts extends any run by its steps, with the cache and the answer of the sequential function |
| ExplainCache.RunsMatch | redash/handlers/explain.py:59-124 | every sequential run of the endpoint is a run of the cache protocol with the same cache |
| ExplainPayload.NormalisePayload | redash/explain.py:80-130 | the accepted fields or the error of any body, as the specification function gives them |
| ExplainPayload.KeepAllowed | redash/explain.py:88-91 | keeps exactly the whitelisted members that are not null |
| ExplainPayload.CoerceNumbers | redash/explain.py:99-104 | numbers coerced in order, or the first that cannot be |
| ExplainPayload.CleanContributors | redash/explain.py:112-122 | the non-empty whitelisted parts of the dict entries, in order |
| ExplainPayload.ShortenTexts | redash/explain.py:124-128 | text members cut to 200 characters, nothing else changed |
| ExplainPayload.NormaliseShape | redash/explain.py:80-130 | an accepted payload has only whitelisted keys, numbers where numbers belong, no null, short texts and at most ten clean contributors |
| PayloadValues.NormaliseIs | redash/explain.py:80-130 | which body is refused, and for which first fault; and of an accepted one each known member that is given, with its number as read, its text cut to 200 characters, its contributors cleaned, or as it is |
| PayloadValues.ResponseIs | redash/explain.py:300-319 | the text of a response: the texts of its text blocks, in order and one a line, trimmed; an error if they are blank |
| PayloadValues.NoContent | redash/explain.py:300-309 | a response without content, with content of another kind, or that is no object |
| ExplainPayload.NormaliseTwice | redash/explain.py:93-128 | normalising an accepted payload again changes nothing, or refuses it exactly when the body's label is a text of more than 200 characters of which the first 200 are blank |
| ExplainPayload.AcceptedOnce | redash/explain.py:93-128 | a body that is accepted once and refused the second time |
| ExplainPayload.BodyErrors | redash/handlers/explain.py:66-68 | a false body of any kind lacks its label, and only a true one that is not an object is refused as such |
| ExplainPayload.ExtractText | redash/explain.py:300-319 | the stripped lines of the text blocks, or the error |
| ExplainPayload.TextWhenNotBlank | redash/explain.py:307-319 | a list of blocks yields text exactly when a text block is not blank, and the text is never empty |
| Statistics.Samuelson | redash/handlers/queries.py:654-656 | no value is more than sqrt(n - 1) population standard deviations from the mean of its n values |
| Anomalies.ComputeAnomalies | redash/handlers/queries.py:619-692 | the report of the filter, the stable sort and the scan |
| Anomalies.Scan | redash/handlers/queries.py:644-679 | one bound per sample and the flagged points in order |
| Anomalies.FlaggedExactly | redash/handlers/queries.py:650-669 | a point is flagged iff it has three history values, their spread is positive and it lies on or beyond a bound; the direction tells which |
| Anomalies.FlatWindowFlagsNothing | redash/handlers/queries.py:662-667 | four rows, three equal and any other value, with an infinite score and no flagged point |
| AnomalyWindow.SeriesIs | redash/handlers/queries.py:632-640 | the rows with a number are measured, once each and in order |
| AnomalyWindow.HistoryIsWindow | redash/handlers/queries.py:647-648 | the history of a sample is the last `window` values before it, or all while there are fewer |
| AnomalyWindow.ReportIs | redash/handlers/queries.py:642-681 | the whole report, without the functions that compute it: sorted stably by key; each bound the threshold times the standard deviation of the window around its mean, from three values on; and one point, with these figures, for each sample that deviates |
| Anomalies.WithinRangeNeverFlagged | redash/handlers/queries.py:647-667 | a value between two of its n window values is never flagged when threshold squared exceeds n - 1 |
| Anomalies.RangeBoundIsSharp | redash/handlers/queries.py:647-667 | for every smaller threshold some window of n values has its own largest value flagged |
| Anomalies.Clamped | redash/handlers/queries.py:746-747 | window and threshold go to the nearer end of 3..1000 and 0.5..10 from outside and are left alone inside |
| AnomalyScale.DetectScales | redash/handlers/queries.py:644-679 | replacing every y by a*y + b (a not 0) flags the same rows, transforms means and bounds, and exchanges upper and lower and flips directions exactly for negative a |
| AnomalyOrder.SortIsStable | redash/handlers/queries.py:642 | the sort is a stable permutation |
| AnomalyOrder.IndexPointsToItsRow | redash/handlers/queries.py:632-681 | each reported index is that of an input row with the reported x and y |
| AnomalyOrder.OrderIndependent | redash/handlers/queries.py:632-681 | with distinct sort keys, permuting the rows leaves the bounds and the flagged points as they are |
| WidgetLayout.Packer.constructor | seed/jrny_reports.py:5103-5105 | the cursor starts in the top left corner |
| WidgetLayout.Packer.NextPosition | seed/jrny_reports.py:5107-5128 | the position given out and the cursor left behind: two of twelve columns for each authored width from 1 to 6, rows of three |
| WidgetLayout.FillsRow | seed/jrny_reports.py:5085-5128 | positive widths that add up to at most six stand side by side in one row, each at twice the sum of those before it; if they add up to six they fill the row |
| WidgetLayout.CreatedAre | seed/jrny_reports.py:5314-5340 | the created widgets are those whose query exists and has the visualization, in order |
| WidgetLayout.AddWidgets | seed/jrny_reports.py:5314-5340 | the created widgets are laid out as their widths alone: a skipped widget leaves no hole, and one without a width is a full row |
| WidgetLayout.LayoutIsSafe | seed/jrny_reports.py:5107-5128 | for all widths, negative and oversized too, positions are inside the grid, do not overlap and come in reading order |
| LayoutOptimality.GreedyIsLowestInOrder | seed/jrny_reports.py:5107-5128 | the layout keeps the widgets in order inside the grid without overlap, and no arrangement that does is lower |
| LayoutOptimality.NoEmptyRow | seed/jrny_reports.py:5107-5128 | every row down to the height holds a widget |
| LayoutOptimality.GreedyWithinTwice | seed/jrny_reports.py:5107-5128 | against arrangements in any order the height is at most twice the least |
| LayoutOptimality.GreedyWithinFactor | seed/jrny_reports.py:5107-5128 | and the number of rows, but for one row, at most 24/13 of the least |
| LayoutOptimality.FactorIsReached | seed/jrny_reports.py:5107-5128 | the factor 24/13 is reached: for every k some widths take 24k rows, and 13k in another arrangement |
| TemplateSubstitution.PipelineIsDollarScan | redash/destinations/microsoft_teams_webhook.py:19-22 | for every template and all values without `$`, escaping, safe_substitute and unescaping are one left-to-right scan |
| TemplateSubstitution.SubstituteIsDollarScan | redash/destinations/microsoft_teams_webhook.py:10-25 | the function is that scan, or the template itself for an empty context |
| TemplateSubstitution.IntendedScanIffNoDollarToken | redash/destinations/microsoft_teams_webhook.py:10-25 | it is the plain scan that replaces known `{name}` and copies the rest iff the context is empty or the template has no `$$`, no `${` and no known `$name` |
| TemplateSubstitution.DollarFreeTemplate | redash/destinations/microsoft_teams_webhook.py:10-25 | in particular for every template without `$`, with nested and unbalanced braces |
| TemplateNames.FillsTemplate | redash/destinations/microsoft_teams_webhook.py:19-22 | in any text without `$`, braces of JSON around it included, exactly the known names in braces are replaced: a letter or an underscore followed by letters, digits and underscores |
| TemplateSubstitution.DollarSwallowsReference | redash/destinations/microsoft_teams_webhook.py:19-22 | the counterexample `${a}`, which becomes `{a}` |
| DashboardLock.Session.UpdateModel | redash/handlers/base.py:44-47 | the loop of setattr calls gives each named field the value it is given last, leaves the others, and marks the object as touched |
| DashboardLock.CollectedOverwrites | redash/handlers/base.py:44-47 | overwriting fields with the collected updates gives each named field the value it is given last, and leaves the others |
| DashboardLock.Table.Flush | redash/models/__init__.py:1134-1135 | a touched object is written iff the stored version is the loaded one, and then the version grows by one |
| DashboardLock.Table.Post | redash/handlers/dashboards.py:216-249 | the row and the status of a save, for any row stored since the load: when it conflicts, and after a save each field that was sent with the value sent last, and the others as they were |
| DashboardLock.Table.Delete | redash/handlers/dashboards.py:258-270 | archiving is a write of one field under the same version rule, whose stale row is a server error |
| DashboardLock.NoLostUpdate | redash/handlers/dashboards.py:236-249 | in every interleaving a successful save that carries a version replaces the state with that version, and exactly the state its editor read if the version is that state's |
| DashboardLock.OneChainOfWrites | redash/handlers/dashboards.py:236-249 | in every run the writes form one chain from the first to the stored row and versions strictly increase |
| DashboardLock.OneWritePerSave | redash/handlers/dashboards.py:244-249 | each successful save with something to write made exactly one write, and nothing else wrote |
| DashboardLock.NothingElseChangesTheRow | redash/handlers/dashboards.py:242-249 | the stored fields are the first ones with every successful save applied in order |
| DashboardLock.FailureLeavesRow | redash/handlers/dashboards.py:239-249 | a conflict or error leaves the row as it is |
| DashboardLock.CheckedIffUnchanged | redash/handlers/dashboards.py:239-240 | the version check turns a save away iff the loaded row is not the one its editor read |
| DashboardLock.SavedIffUnchanged | redash/handlers/dashboards.py:246-249 | the commit turns it away iff the stored row is not the one its editor read |
| DashboardPolicy.NeverOverwritesIff | redash/handlers/dashboards.py:236-249 | whatever the first state, saves that send a given version replace exactly what their editors saw, in every run, iff they send one that is not ahead of the version seen |
| DashboardLock.SecondSaver | redash/handlers/dashboards.py:239-249 | of two editors of the same state the second overwrites the first without versions and is turned away with them |
| FolderTree.TreeError | redash/utils/report_category_tree.py:25-46 | reports nothing iff every parent is stored and following parents reaches the top within six levels, and otherwise a fault that is really there |
| FolderTree.ForestIffPaths | redash/utils/report_category_tree.py:28-45 | a forest: every parent is stored, and going up from a folder meets at most six |
| FolderTree.Climb | redash/utils/report_category_tree.py:36-45 | the climb from one folder ends at the top within the levels, or names a cycle or the depth |
| FolderTree.FaultIsNoForest | redash/utils/report_category_tree.py:28-45 | each fault excludes a forest |
| FolderTree.ForestHasNoCycle | redash/utils/report_category_tree.py:36-45 | in a forest no folder is inside itself |
| FolderTree.ChildIdsInOrder | redash/utils/report_category_tree.py:49-51 | the ids of exactly the categories with this parent, in list order |
| FolderFields.Validate | redash/handlers/jrny_report_categories.py:68-112 | accepts iff no field is wrong; otherwise lists exactly the wrong ones |
| FolderFields.DerivedIdIsSlug | redash/handlers/jrny_report_categories.py:79-83 | the id derived from a name is a valid slug unless the name has no letter or digit for it |
| FolderSlugs.DerivedIdJoinsWords | redash/handlers/jrny_report_categories.py:79-83 | the id derived from a name is its words, in lower case and joined by single dashes, cut to 63 characters |
| FolderFields.AcceptedIsTidy | redash/handlers/jrny_report_categories.py:68-112 | an accepted category has a slug, a trimmed name and description within their lengths, a hex colour and a normalised parent |
| FolderFields.TidyRoundTrip | redash/handlers/jrny_report_categories.py:68-112 | sending a stored category back is accepted and changes nothing |
| FolderStore.CleanList | redash/handlers/jrny_report_categories.py:156-163 | the cleaned list iff every category is acceptable beside those before it |
| FolderStore.Store.Post | redash/handlers/jrny_report_categories.py:127-147 | status and stored list after a create |
| FolderStore.Store.PutAll | redash/handlers/jrny_report_categories.py:150-176 | status and stored list after a bulk replace |
| FolderStore.Store.PutOne | redash/handlers/jrny_report_categories.py:186-219 | status and stored list after an update |
| FolderStore.Store.Delete | redash/handlers/jrny_report_categories.py:222-240 | status and stored list after a delete, with the sub-folder guard before the lookup |
| FolderAnswers.CreatedIff | redash/handlers/jrny_report_categories.py:68-147 | a create is accepted iff its fields and id are right, the id is new and its parent is none or a stored folder with at most five folders up to the top; it appends a category with the given fields, trimmed or defaulted |
| FolderAnswers.ReplacedIff | redash/handlers/jrny_report_categories.py:150-176 | a bulk replace is accepted iff all fields and ids are right, the ids differ and the folders are a forest; it stores the given list |
| FolderAnswers.UpdatedIff | redash/handlers/jrny_report_categories.py:186-210 | an update finds nothing iff the id is not stored, and else is accepted iff the fields are right and the folders stay a forest |
| FolderAnswers.UpdatedFields | redash/handlers/jrny_report_categories.py:186-215 | an accepted update takes each field from the member of its name, and the parent too if the body names one |
| FolderAnswers.DeletedIff | redash/handlers/jrny_report_categories.py:222-240 | a delete is refused iff there is a sub-folder, finds nothing iff there is neither, and else leaves exactly the other categories in order |
| FolderStore.RequestKeeps | redash/handlers/jrny_report_categories.py:127-240 | every request keeps ids distinct, fields tidy and the folders a forest |
| FolderStore.DeleteKeeps | redash/handlers/jrny_report_categories.py:222-232 | the sub-folder guard alone keeps the forest, without a call of the tree check |
| FolderRuns.RunKeeps | redash/handlers/jrny_report_categories.py:127-240 | the same after every sequence of requests |
| FolderRuns.DefaultsAreValid | redash/settings/organization.py:75-111 | the default categories satisfy the invariant, so that every reachable list does |
| FolderRuns.AnyOrderIsAccepted | redash/handlers/jrny_report_categories.py:150-176 | sending the stored categories back in any order is accepted and stores them in that order |
| FolderRuns.CreateThenDelete | redash/handlers/jrny_report_categories.py:127-240 | deleting a folder just created is accepted and restores the list |
| FolderRuns.CanBeTakenDown | redash/handlers/jrny_report_categories.py:222-240 | a valid tree can always be deleted folder by folder, each deletion accepted |
| FolderRuns.UpdateInPlace | redash/handlers/jrny_report_categories.py:186-219 | an update changes one category in place, keeps its id, and keeps its parent when the body names none |
| FolderSaves.InterleavedRunsKeep | redash/handlers/jrny_report_categories.py:127-240 | however reads and saves of any requests interleave, the stored list and every list read keep ids distinct, fields tidy and the folders a forest |
| FolderSaves.ActsAloneIff | redash/handlers/jrny_report_categories.py:127-240 | a save does to the stored list what its request would have done alone iff that list differs from the one read at most in what the request replaces: nothing for a create, the one category for an update or a delete, anything for a bulk replace |
| FolderSaves.InterleavedIsSerial | redash/handlers/jrny_report_categories.py:127-240 | if that holds for every save, the interleaved requests have done what they do one after the other in the order of their saves |
| FolderSaves.FirstCreateIsLost | redash/handlers/jrny_report_categories.py:127-147 | of two creates that read the same list the first is lost |
| AbcAnalysis.ContiguousClasses | seed/jrny_reports.py:538-552 | in rank order come the As, then the Bs, then the Cs, whatever the signs of the revenues and of their total |
| AbcAnalysis.ClassByPercent | seed/jrny_reports.py:538-552 | seen through ROUND(x, 2), class A is a cumulative share below 80.005 % and B below 95.005 % |
| AbcReports.SaleAdds | seed/jrny_reports.py:521-592 | a sale adds its line total to the one row of its product, and to the one row of its id |
| AbcReports.TieIndependence | seed/jrny_reports.py:533-552 | however equal revenues are ordered, every rank has the same class and every class the same count and revenue |
| AbcReports.ReportsAgree | seed/jrny_reports.py:521-624 | detail and summary agree on every class when the product id determines the other grouping columns |
| AbcReports.SameCountIff | seed/jrny_reports.py:521-592 | the two have the same number of items iff it does |
| AbcReports.ParetoClass | seed/jrny_reports.py:533-552 | class A is the longest run of top products below 80.005 % of the revenue |
| AbcReports.SummaryIsComplete | seed/jrny_reports.py:585-624 | the three classes hold every product once and all the revenue |
| ArAging.OpenNext | seed/create_ar_aging_report.py:61-63 | only invoices with a positive balance and a status other than paid count |
| ArAging.InvoiceAdds | seed/create_ar_aging_report.py:54-79 | an open invoice adds its balance to its customer's total and to the one column for the days it is overdue: none, 1 to 30, 31 to 60, 61 to 90, more or undated |
| ArAging.InvoiceAddsToKpis | seed/create_ar_aging_report.py:171-180 | and to the key figures, overdue if its due date is before the date |
| ArAging.BucketsAddUp | seed/create_ar_aging_report.py:65-79 | the five buckets of a customer row add up to its total |
| ArAging.DetailMatchesSummary | seed/create_ar_aging_report.py:43-151 | each bucket summed over the customer rows is the summary's bucket total |
| ArAging.OverdueIsNotCurrent | seed/create_ar_aging_report.py:171-180 | the overdue amount is the total without the current bucket iff every open invoice has a due date |
| ArAging.TotalsAgree | seed/create_ar_aging_report.py:65-180 | the summary's buckets, and the total column of the detail rows, add up to the total of the key figures |
| ArAging.UndatedIsNeither | seed/create_ar_aging_report.py:54-60 | one open invoice without a due date: overdue 0, current 0, and the whole total in the 90+ bucket |
| ArAging.JoinKeepsRows | seed/create_ar_aging_report.py:80-104 | the payment join keeps every customer row once and in its place |
| ArAging.JoinShowsLastPayment | seed/create_ar_aging_report.py:80-104 | a row shows a latest payment of its customer up to the date, and none iff there is none |
| Pagination.AcceptedPages | redash/handlers/base.py:80-100 | for a non-empty result the accepted requests are sizes 1 to 250 and pages 1 to count/size rounded up |
| Pagination.Refused | redash/handlers/base.py:80-100 | the error of each request that is not accepted |
| Pagination.EmptyResult | redash/handlers/base.py:80-100 | an empty result has page 1 only, which is empty, and each other request its error |
| Pagination.PagesPartition | redash/handlers/base.py:80-100 | the pages concatenate to the whole result and only the last may be short |
| ParamRepair.ResolveAll | seed/jrny_reports.py:5226-5238 | the resolving loop assigns each definition its resolved or text form |
| ParamRepair.ResolveIs | seed/jrny_reports.py:5226-5238 | a query parameter that names a lookup gets its query, or becomes a text; anything else stays |
| ParamRepair.UpdatesAre | seed/update_param_types.py:61-76 | the names that are repaired, and to which lookup or enumeration |
| ParamRepair.RepairIs | seed/update_param_types.py:79-122 | what becomes of a text parameter: the dates of four titles, the names of the table, and nothing else |
| ParamRepair.RepairParams | seed/update_param_types.py:90-122 | the new parameters, and changed iff they differ |
| ParamRepair.CheckNeedsUpdate | seed/update_param_types.py:181-192 | the pre-filter finds whether a parameter is suspect |
| ParamRepair.FilterNeverSkips | seed/update_param_types.py:85-192 | a query that the repair changes passes the pre-filter, and what passes in vain lacks a lookup |
| ParamRepair.RepairKeepsNames | seed/update_param_types.py:93-122 | names, titles and their order stay |
| ParamRepair.RepairIsIdempotent | seed/update_param_types.py:85-134 | a second repair changes nothing and finds nothing to do |
| ParamRepair.RepairAllTwice | seed/update_param_types.py:85-134 | repairing with some lookups and later with more is repairing with the later ones |
| ParamRepair.SeedThenRepair | seed/update_param_types.py:85-134 | seeding with lookups L1 and repairing with L2 gives what seeding with L2 gives iff every definition is confluent |
| ParamRepair.MatchingDefinitionsAreConfluent | seed/update_param_types.py:61-76 | definitions whose references match PARAM_UPDATES, with nothing else to repair, are |
| Migration.Server.Walk | seed/update_param_types.py:164-200 | every query is repaired once, the counts are right, and the walk ends on an error answer iff the count is a positive multiple of 50 |
| Migration.Server.Deal | seed/update_param_types.py:174-196 | one query is repaired unless the server refuses it, and counted |
| Migration.Server.UpdateQueryParams | seed/update_param_types.py:85-134 | posts the new parameters if they differ; a refused post counts as a change |
| Migration.Server.Migrate | seed/update_param_types.py:155-202 | without lookup queries nothing is done |
| Migration.CountsAre | seed/update_param_types.py:174-196 | the counts are of the queries with parameters and of those that the repair changes |
| Migration.MigratedIs | seed/update_param_types.py:124-134 | a query that is repaired, and not refused, has the repaired parameters as its only options; another is left alone |
| Migration.MigrateTwice | seed/update_param_types.py:124-134 | running again settles on the same parameters; other options are lost iff a change is made and there are some |
| Migration.WalkFullPages | seed/update_param_types.py:168-200 | a list of full pages only, such as fifty queries, on which the walk ends in the error answer |
| Migration.OptionLost | seed/update_param_types.py:124-134 | a query that is repaired and loses an option |
| Nesting.BuildNestedResponse | redash/handlers/jrny_data_dictionary.py:133-185 | the one-pass construction |
| Nesting.ColumnIs | redash/handlers/jrny_data_dictionary.py:163-173 | a column keeps the members of its row and refers to what its foreign key leads to |
| Nesting.BuiltIsNested | redash/handlers/jrny_data_dictionary.py:133-185 | each schema and each table in it comes once, where it first appears, described by its first row, with the columns of its rows in row order |
| NestingRoundTrip.NothingLost | redash/handlers/jrny_data_dictionary.py:163-173 | there are as many columns as rows, and they are the rows' columns |
| NestingRoundTrip.RoundTripIff | redash/handlers/jrny_data_dictionary.py:111-185 | flattening gives the rows back in order iff the rows of each schema and table stand together |
| NestingRoundTrip.OrderedRoundTrip | redash/handlers/jrny_data_dictionary.py:94-107 | as they do in the order of the query |

## Left out

- HTTP, Flask, the Redis and SQLAlchemy clients, sessions and permissions: calls into them are parameters, answers or steps.
- Cache keys: SHA-256 over canonical JSON is taken to be injective, so that the cache is keyed by the normalised payload. Integers and floats are different values, as they are different texts; the sign of a zero float is not modelled.
- A request body that is not JSON is refused before the handler sees it.
- Clocks: all web workers read one clock, which does not run backwards.
- A limit that is not positive switches the limiter off, so that its theorems are about positive limits; and they need every INCR within 100 s of its clock read, which `RateLimitSharpness.SlackIsSharp` shows cannot be dropped.
- The limiter and the cache are two protocols: what interleaves in both at once is not modelled, and neither reads what the other writes.
- Floating point: numbers are reals, `float()` overflow, NaN and `round(z, 2)` are not modelled, the square root is any function that squares back.
- `_sort_key_for_x` parses dates; a row carries its key, and keys that Python cannot compare with each other are excluded.
- The template context holds texts; `str` of other values is taken to have been applied.
- Column autodetection, `build_user_prompt` and `_fmt_number`: display only.
- `str.lower` is modelled on ASCII; other letters, some of which lower-case to ASCII, are left alone.
- FolderFields.Validate: members other than the parent are text, null or missing; for other JSON values, and for list entries that are not objects, the code fails with an attribute error.
- The other organisation settings, which a category save writes back with the list it read.
- The cleaning of column comments and the merge of foreign key maps: the first is a parameter, the second a map.
- NULL line totals in the ABC queries, the stock columns and the rounded percentage columns beside the cumulative one.
- Distinct invoice and customer counts of the aging queries.
- `find_lookup_ids`, the order of the query list and the second commit of a query save: the list keeps its order during the walk.
- Report texts, visualization options and the other seed scripts: data.
