# Education dashboard core, modelled in Dafny

This project models the in-memory core of a Streamlit dashboard for Brazilian
education indicators. It covers these parts:

- the TTL query cache;
- the lazy data loader and its page arithmetic;
- the bounded query history;
- the registries of saved queries, comments and chart annotations;
- threshold alerts;
- the report scheduler;
- the SQL editor's guard and the LIMIT line it appends;
- the CSV date normaliser;
- the query builder;
- the filter panel and `apply_filters`;
- the data table's paging;
- the performance monitor and the integer-width choice of `optimize_dataframe`;
- the authenticator's decisions;
- the national benchmarks.

Each source file is one Dafny module. A few helper modules support them:

| module | what it holds |
|---|---|
| `Base` | the optional value |
| `Text` | ASCII case mapping, strip, join, decimal text, Python's string order |
| `Seqs` | order-keeping filters, counts, Python slices, sums |
| `Sorting` | a stable insertion sort, which gives the order of Python's `sorted` |
| `Dict` | a Python `dict` as its insertion-ordered items |
| `Pagination` | the page arithmetic shared by the loader and the table |

**Stateful parts.** Objects whose fields the program updates are Dafny classes:
`CacheManager`, `LazyDataLoader`, `QueryHistory`, `SavedQueryManager`, `CommentManager`, `AnnotationManager`, `AlertManager`, `ReportScheduler` and `PerformanceMonitor`.
- Each method states its new state as a pure function of the old one.
- The properties are proved as lemmas about those functions.
- Where the source mutates a record that a list holds (alerts, reports), the model replaces the record by its updated value in the list.

**Values passed in.** The model does not read a clock, a file or the network. Instead:
- The clock is a `now` parameter.
- Generated ids and timestamps are given values.
- A loader or executor that may raise is a parameter saying what it does.
- The password digest is a function parameter.

## Model

| member | source | states |
|---|---|---|
| Cache.GenerateKey | src/core/cache_manager.py:30-33 | the key keeps the query and the parameter items (as a multiset); no parameters gives the bare query key |
| Cache.GenerateKeySame | src/core/cache_manager.py:30-33 | two calls share a key exactly when they pass the same query and the same parameter items, in any dict order |
| Cache.RawKeyCollides | src/core/cache_manager.py:32 | the raw text hashed as written is the same for a query without parameters and a different query with parameters |
| Cache.EffectiveTtl | src/core/cache_manager.py:57 | a missing or zero TTL becomes the default; any other TTL is kept as given |
| Cache.OldestIndex | src/core/cache_manager.py:65-70 | picks an entry with the smallest `created_at`, the first such in dict order |
| Cache.OldestIndexUnique | src/core/cache_manager.py:68-70 | that entry is the only one with both properties |
| Cache.Stored | src/core/cache_manager.py:60-62 | after the (possibly evicting) write, the key reads back the new entry |
| Cache.Lookup | src/core/cache_manager.py:35-45 | a value is returned only from a live entry stored under the key; an absent key gives nothing; the live entry found under the key gives its value |
| Cache.LookupFindsLiveEntry | src/core/cache_manager.py:35-45 | with one entry per key, any live entry is what `get` returns for its key |
| Cache.EvictedSpec | src/core/cache_manager.py:65-72 | eviction removes exactly the oldest entry, keeps every other one and keeps keys unique |
| Cache.SetThenGet | src/core/cache_manager.py:35-63 | a `get` within the TTL after a `set` returns the value and changes nothing |
| Cache.ExpiredIsDropped | src/core/cache_manager.py:16-17 | expiry is strict; an expired entry is not returned and `get` deletes it |
| Cache.StoredWithinCapacity | src/core/cache_manager.py:60-62 | a `set` keeps the cache within `max_entries` and the keys unique |
| Cache.OverwriteOfFullCacheShrinks | src/core/cache_manager.py:60-62 | overwriting a key of a full cache still evicts another entry, leaving one fewer |
| Cache.ThirdWriteEvictsFirst | tests/test_components.py:31-36 | with capacity 2 the third write evicts the first key |
| Cache.ExpiredCount | src/core/cache_manager.py:93 | the expired count never exceeds the number of entries |
| Cache.CacheManager.Get | src/core/cache_manager.py:35-47 | returns the lookup of the key, deletes only an expired entry; a miss changes nothing |
| Cache.CacheManager.Set | src/core/cache_manager.py:49-63 | the new cache is the evict-then-write store, with the effective TTL |
| Cache.CacheManager.EvictOldest | src/core/cache_manager.py:65-72 | the loop finds the first oldest entry and deletes it |
| Cache.CacheManager.Invalidate | src/core/cache_manager.py:74-79 | deletes the key's entry, if any |
| Cache.CacheManager.Clear | src/core/cache_manager.py:81-85 | empties the cache |
| Cache.CacheManager.Stats | src/core/cache_manager.py:91-99 | total, expired and active counts, with active = total - expired |
| LazyLoader.LoadState.Value | src/core/lazy_loader.py:11-15 | each state's string value |
| LazyLoader.LoadStateValueInjective | src/core/lazy_loader.py:11-15 | distinct states have distinct string values |
| LazyLoader.AllStates | src/core/lazy_loader.py:71-72 | one entry per key with a state, holding the state's string value |
| LazyLoader.RegisterKeepsValid | src/core/lazy_loader.py:27-30 | `register` keeps the registry invariant and marks the key PENDING |
| LazyLoader.ReRegisterServesOldData | src/core/lazy_loader.py:27-34 | after re-registering a loaded key, `get` returns the old data without calling the new loader |
| LazyLoader.GetMemoised | src/core/lazy_loader.py:32-34 | memoised data is returned without calling a loader or changing state |
| LazyLoader.GetUnknown | src/core/lazy_loader.py:36-38 | a key with neither data nor loader gives nothing and changes nothing |
| LazyLoader.GetLoads | src/core/lazy_loader.py:42-53 | a returning load memoises the value as LOADED; a raising one marks ERROR, stores nothing and returns None |
| LazyLoader.GetKeepsValid | src/core/lazy_loader.py:32-53 | every `get` keeps the invariant |
| LazyLoader.InvalidateThenGet | src/core/lazy_loader.py:62-66 | `invalidate` leaves the key PENDING without data, even for an unknown key; the next `get` reloads a registered key |
| LazyLoader.PreloadReports | src/core/lazy_loader.py:55-60 | `preload` equals `get` on each key in turn and reports each key's final state, ERROR when it has none |
| LazyLoader.PreloadUnknownKey | src/core/lazy_loader.py:59 | for an unknown key `preload` reports ERROR, while `get_state` says PENDING (line 69) |
| LazyLoader.LoadedCountBound | src/core/lazy_loader.py:74-80 | loaded ≤ memoised ≤ registered |
| LazyLoader.LazyDataLoader.Register | src/core/lazy_loader.py:27-30 | the new state is the registry after `register` |
| LazyLoader.LazyDataLoader.Get | src/core/lazy_loader.py:32-40 | state and result are those of the pure `get` |
| LazyLoader.LazyDataLoader.Load | src/core/lazy_loader.py:42-53 | state and result are those of one load with the loader's outcome |
| LazyLoader.LazyDataLoader.Preload | src/core/lazy_loader.py:55-60 | the loop gives the state and report of the pure `preload` |
| LazyLoader.LazyDataLoader.Invalidate | src/core/lazy_loader.py:62-66 | the new state is the registry after `invalidate` |
| LazyLoader.LazyDataLoader.LoadedCount | src/core/lazy_loader.py:74-76 | the counting loop returns the number of LOADED keys |
| LazyLoader.CreatePaginatedLoader | src/core/lazy_loader.py:83-97 | `total_pages` ≥ 1 and equals ceil(n / page_size) for n ≥ 1; `total_rows` = n |
| Pagination.TotalPages | src/core/lazy_loader.py:88 | at least 1; 1 for no rows; otherwise the ceiling of n / page_size |
| Pagination.PageRowsSpec | src/core/lazy_loader.py:90-93 | page p is rows [(p-1)·size, p·size) clipped to the list, at most `size` rows |
| Pagination.PagesNonEmpty | src/components/tables.py:71-86 | every page from 1 to `total_pages` of a non-empty list has a row |
| Pagination.PagesCover | src/components/tables.py:84-86 | pages 1 to `total_pages` laid end to end are the whole list, once and in order |
| History.Added | src/core/query_history.py:35-38 | the record goes last, then only the last `max_entries` are kept; `max_entries` 0 keeps all (`[-0:]`) |
| History.Recent | src/core/query_history.py:44-45 | the last `count` records, newest first; `count` 0 gives all of them |
| History.ByUser | src/core/query_history.py:47-48 | the records of that user, in order |
| History.Failed | src/core/query_history.py:22-24 | the records whose status is not "success", in order (lines 50-51) |
| History.Search | src/core/query_history.py:53-55 | the records whose query contains the term, ignoring case, in order |
| History.SearchIgnoresCase | src/core/query_history.py:54-55 | an upper-cased term finds the same records |
| History.SearchEmptyTerm | src/core/query_history.py:53-55 | the empty term finds every record |
| History.Stats | src/core/query_history.py:62-80 | zeros when empty; otherwise the size, the row total, the average of the execution times and the percentage of records that did not fail, which is 100 iff nothing failed and 0 iff everything failed |
| History.Percentage | src/core/query_history.py:70-76 | the share in [0, 100] whose product with the record count is a hundred times the successes; 100 iff all succeed, 0 iff none |
| History.Mean | src/core/query_history.py:71-77 | the value whose product with the record count is the total time |
| History.RateBounds | src/core/query_history.py:77 | k / n · 100 lies in [0, 100], equals 100 iff k = n and equals 0 iff k = 0 |
| History.QueryHistory.Add | src/core/query_history.py:35-38 | the new history is the truncated append |
| History.QueryHistory.Clear | src/core/query_history.py:57-60 | the history is empty |
| SavedQueries.SaveThenGet | src/core/saved_queries.py:58-67 | after a save the name finds the query, with `updated_at` refreshed on overwrite; other names are unchanged; the count grows only for a new name |
| SavedQueries.DeleteKeepsWellFormed | src/core/saved_queries.py:69-75 | deleting keeps names unique and each query under its own name |
| SavedQueries.ListQueries | src/core/saved_queries.py:77-81 | a permutation of the stored queries (one category when it is non-empty), sorted newest `updated_at` first |
| SavedQueries.Search | src/core/saved_queries.py:83-90 | the queries whose name, description or text contains the term, ignoring case, in dict order |
| SavedQueries.Categories | src/core/saved_queries.py:92-93 | strictly increasing, and exactly the stored categories |
| SavedQueries.SavedQueryManager.SaveQuery | src/core/saved_queries.py:58-64 | always succeeds; the store becomes the saved store |
| SavedQueries.SavedQueryManager.DeleteQuery | src/core/saved_queries.py:69-75 | succeeds iff the name is stored, and then removes exactly it |
| QueryBuilder.Builder.FullTable | src/core/query_builder.py:13-14 | project, dataset and table joined by dots inside backquotes |
| QueryBuilder.Builder.BuildSelect | src/core/query_builder.py:16-35 | the query starts with `SELECT cols FROM table`, and is exactly that when no clause is given |
| QueryBuilder.Builder.BuildAggregation | src/core/query_builder.py:37-57 | the select list is the group columns then the metrics; WHERE follows FROM; the query ends with GROUP BY, then HAVING when given |
| QueryBuilder.Builder.BuildKpiQuery | src/core/query_builder.py:86-99 | `SELECT agg(col) AS valor FROM table`, then exactly ` WHERE cond` when given and nothing otherwise |
| QueryBuilder.Builder.BuildDateRangeFilter | src/core/query_builder.py:59-65 | the filter is `col BETWEEN '`, the start date, then `' AND 'end'`, with nothing else in between |
| QueryBuilder.DateRangeFilterInjective | src/core/query_builder.py:59-65 | when the dates hold no single quote, the column and both dates are determined by the filter text |
| QueryBuilder.Builder.BuildPanoramaQuery | src/core/query_builder.py:67-84 | every column of the table is selected and the query ends ordering by year, newest first |
| QueryBuilder.SelectWhereFirst | src/core/query_builder.py:16-35 | in `build_select`, WHERE comes right after the head when given |
| QueryBuilder.SelectOrderFirst | src/core/query_builder.py:16-35 | without WHERE, ORDER BY comes right after the head |
| QueryBuilder.SelectOrderBetween | src/core/query_builder.py:16-35 | with WHERE and ORDER BY given, ORDER BY comes right after the WHERE condition (and a LIMIT after that, by SelectLimitLast) |
| QueryBuilder.SelectBare | src/core/query_builder.py:16-35 | with no clause given, the head is the whole query |
| QueryBuilder.SelectLimitLast | src/core/query_builder.py:33-34 | LIMIT, when given, ends the query |
| QueryBuilder.SelectOrderLast | src/core/query_builder.py:16-35 | without LIMIT, ORDER BY ends the query |
| QueryBuilder.SelectWhereLast | src/core/query_builder.py:16-35 | without LIMIT and ORDER BY, WHERE ends the query |
| QueryBuilder.PanoramaConditions | src/core/query_builder.py:74-80 | one condition per given argument, in the order state (`sigla_uf = '..'`), first year (`ano >= ..`), last year (`ano <= ..`), each at its position |
| QueryBuilder.PanoramaQueryShape | src/core/query_builder.py:81-84 | WHERE exactly when a condition is given, conditions joined by AND, always ending ORDER BY ano DESC |
| QueryBuilder.BuildPanoramaQueryShape | src/core/query_builder.py:67-84 | the same for the query `build_panorama_query` returns |
| QueryBuilder.OrderedByYear | src/core/query_builder.py:81-84 | the panorama query ends with ORDER BY ano DESC, with or without WHERE |
| QueryBuilder.GroupColumnsFirst | src/core/query_builder.py:48-49 | the grouping columns lead the select list |
| QueryBuilder.FalsyArgumentsIgnored | src/core/query_builder.py:27-34 | `where=""` and `limit=0` give the same query as leaving them out |
| SqlEditor.FirstBlocked | src/components/sql_editor.py:11-14 | the first keyword in list order that occurs as a whole word, or none |
| SqlEditor.Validate | src/components/sql_editor.py:41-58 | a blank query is refused as empty before any other check; an accepted query gets the success message |
| SqlEditor.ValidateMessages | src/components/sql_editor.py:44-55 | after the blank test the checks run in order (SELECT prefix, first blocked word in list order, parentheses) and the first failing one gives its message |
| SqlEditor.ValidateAcceptable | src/components/sql_editor.py:41-58 | a query is accepted iff it is non-blank, starts with SELECT once upper-cased and stripped, contains no blocked word and has balanced parentheses |
| SqlEditor.UpperKeepsBlank | src/components/sql_editor.py:43-46 | upper-casing keeps a blank query blank and a non-blank one non-blank |
| SqlEditor.ValidateDependsOnNormalized | src/components/sql_editor.py:41-58 | the verdict depends only on blankness and the upper-cased, stripped text |
| SqlEditor.ValidateIgnoresCase | src/components/sql_editor.py:41-58 | an upper-cased query gets the same verdict and message |
| SqlEditor.LimitedQuery | src/components/sql_editor.py:104 | the LIMIT line follows the query with its trailing whitespace stripped once and then every trailing `;`; the kept text ends where a run of `;` ends at the last non-blank character |
| SqlEditor.LimitedQuerySplit | src/components/sql_editor.py:104 | any split of the query into kept text, `;` run and blank tail gives that LIMIT query, so the split is unique |
| SqlEditor.LimitedQueryStripsOnce | src/components/sql_editor.py:104 | `SELECT 1; ;` keeps `SELECT 1; ` and `x ;` keeps `x `: whitespace is stripped only before the `;` |
| SqlEditor.LimitedQueryKeepsCleanQuery | src/components/sql_editor.py:104 | a query ending in another character is kept whole before the LIMIT line |
| CsvProcessor.FormatDate | src/core/csv_processor.py:23-41 | the empty string and the placeholders come back unchanged; anything else comes back stripped or as a DD/MM/YYYY date |
| CsvProcessor.YearMonthRearranged | src/core/csv_processor.py:29-32 | `YYYYMM` becomes `01/MM/YYYY` with the same digits |
| CsvProcessor.IsoDateRoundTrip | src/core/csv_processor.py:34-36 | `YYYY-MM-DD` becomes `DD/MM/YYYY`, and reading it back gives the input |
| CsvProcessor.FromIsoRoundTrip | src/core/csv_processor.py:34-36 | the reordered parts of an ISO date read back to that date |
| CsvProcessor.DisplayRoundTrip | src/core/csv_processor.py:34-36 | every `DD/MM/YYYY` comes back from its ISO spelling |
| CsvProcessor.YearPadded | src/core/csv_processor.py:38-39 | `YYYY` becomes `01/01/YYYY` |
| CsvProcessor.OtherStripped | src/core/csv_processor.py:41 | any other text is only stripped |
| CsvProcessor.DisplayIsFinal | src/core/csv_processor.py:23-41 | an output date matches none of the input patterns |
| CsvProcessor.FormatDateIdempotent | src/core/csv_processor.py:23-41 | normalising twice is normalising once |
| CsvProcessor.IsoParts | src/core/csv_processor.py:34-36 | an ISO date built from year, month and day digits becomes day/month/year |
| CsvProcessor.IsoExample | tests/test_components.py:106-107 | "2023-01-15" becomes "15/01/2023" |
| CsvProcessor.YearMonthExample | tests/test_components.py:109-110 | "202301" becomes "01/01/2023" |
| CsvProcessor.YearExample | tests/test_components.py:112-113 | "2023" becomes "01/01/2023" |
| Alerts.Alert.Deviation | src/analytics/alerts.py:27-33 | 0 for a zero threshold; otherwise 0 iff the value equals the threshold, with the sign of the relative distance |
| Alerts.Evaluate | src/analytics/alerts.py:53-77 | an alert exactly when the condition holds, carrying the rule's level, metric and threshold and the value |
| Alerts.TriggerSides | src/analytics/alerts.py:56-61 | only the three named conditions trigger, each on its own side of the threshold |
| Alerts.Fired | src/analytics/alerts.py:93-106 | the alerts raised by one evaluation, at most one per rule |
| Alerts.FiredSound | src/analytics/alerts.py:93-106 | every alert raised comes from a rule whose metric is present and whose evaluation gives that alert |
| Alerts.FiredComplete | src/analytics/alerts.py:95-100 | every such rule contributes its alert |
| Alerts.FiredAppend | src/analytics/alerts.py:95-100 | a rule added last can only add its own alert last |
| Alerts.FiredStep | src/analytics/alerts.py:95-101 | one more rule in the loop adds exactly the alert its evaluation raises, if any |
| Alerts.RemoveFirst | src/analytics/alerts.py:111-112 | removes the first equal element, or nothing when there is none |
| Alerts.LevelCountsBound | src/analytics/alerts.py:114-119 | the three level counts add up to at most the number of alerts |
| Alerts.DefaultRulesTrigger | src/analytics/alerts.py:121-131 | each default rule's metric is present in the scenario metrics and its condition holds there |
| Alerts.DefaultRulesScenario | tests/test_e2e.py:69-92 | on the scenario metrics all three default rules fire, two of them critical |
| Alerts.AcknowledgeScenario | tests/test_e2e.py:85-92 | acknowledging the one alert raised leaves no active alert |
| Alerts.AlertManager.AddRule | src/analytics/alerts.py:89-91 | the rule is appended and nothing else changes |
| Alerts.AlertManager.EvaluateAll | src/analytics/alerts.py:93-106 | returns the fired alerts and appends them to the active ones |
| Alerts.AlertManager.Acknowledge | src/analytics/alerts.py:108-112 | the acknowledged alert joins the history, and the first equal active alert goes |
| Alerts.AlertManager.GetActiveCount | src/analytics/alerts.py:114-119 | the counting loop gives each known level's count; other levels are not counted |
| Alerts.AlertManager.SetupDefaultRules | src/analytics/alerts.py:121-131 | the three default rules are appended in order |
| Scheduler.Frequency.Interval | src/analytics/scheduler.py:35-41 | each interval is a whole number of days, at least one |
| Scheduler.Frequency.Value | src/analytics/scheduler.py:11-15 | each member's value reads back to that member |
| Scheduler.ShouldRun | src/analytics/scheduler.py:44-49 | only an enabled report is due, and an enabled report without a next run always is |
| Scheduler.CalculateNextRun | src/analytics/scheduler.py:33-42 | the next run is one interval after the last run, or after now; nothing else changes |
| Scheduler.DueAfterCalculation | src/analytics/scheduler.py:44-49 | a scheduled report is due iff it is enabled and a full interval has passed since its base |
| Scheduler.FreshReportNotDue | src/analytics/scheduler.py:59-61 | a report that never ran is not due when it is added |
| Scheduler.Pending | src/analytics/scheduler.py:74-75 | the due reports, in list order |
| Scheduler.Execute | src/analytics/scheduler.py:77-97 | success iff the executor does not raise; success stamps the run and moves the next run one interval on; failure changes nothing |
| Scheduler.ExecutedNotDue | src/analytics/scheduler.py:88-89 | a report just run is not due again at the same instant |
| Scheduler.FirstNamed | src/analytics/scheduler.py:67-68 | the position of the first report with that name, or none |
| Scheduler.RunAll | src/analytics/scheduler.py:99-106 | the run keeps one report per input report, in place |
| Scheduler.RunAllClearsPending | src/analytics/scheduler.py:99-104 | after `run_pending` a report is due iff it was due and its executor raised; reports not due are untouched |
| Scheduler.RunAllCountsSuccesses | src/analytics/scheduler.py:99-106 | the returned number counts the due reports whose executor did not raise |
| Scheduler.ReportScheduler.AddReport | src/analytics/scheduler.py:59-61 | the report is appended with its next run computed |
| Scheduler.ReportScheduler.RemoveReport | src/analytics/scheduler.py:66-72 | removes the first report with the name, and reports whether there was one |
| Scheduler.ReportScheduler.ExecuteReport | src/analytics/scheduler.py:77-97 | the report at the position becomes its executed value; the rest of the list is unchanged |
| Scheduler.Status | src/analytics/scheduler.py:108-119 | one row per report, in order, with its name, enabled flag, a frequency value that reads back to its frequency, and the placeholders for missing times |
| Scheduler.StatusPlaceholders | src/analytics/scheduler.py:112-113 | when no written time is a placeholder, "Nunca" and "Pendente" appear exactly for the missing times |
| Scheduler.StatusAfterExecute | src/analytics/scheduler.py:108-119 | after a successful run the row shows the run time and the next run one interval later |
| Scheduler.ReportScheduler.RunPending | src/analytics/scheduler.py:99-106 | the loop gives the list and count of the pure run; the count is the number of successes among the pending reports |
| Comments.WithDefaultId | src/collaboration/comments.py:24-27 | a comment without an id gets `cmt_` and its timestamp; nothing else changes |
| Comments.AddThenGet | src/collaboration/comments.py:37-43 | the id finds the comment afterwards; other ids are unchanged; the count grows only for a new id |
| Comments.OnTargetList | src/collaboration/comments.py:45-55 | the comments on the target, resolved ones only when asked for |
| Comments.GetComments | src/collaboration/comments.py:45-57 | the same comments, oldest first |
| Comments.ResolveSpec | src/collaboration/comments.py:59-66 | only that comment is marked resolved and stamped; an unknown id changes nothing |
| Comments.ResolveTwice | src/collaboration/comments.py:59-66 | resolving twice equals resolving once at the later time |
| Comments.Thread | src/collaboration/comments.py:75-83 | nothing for an unknown parent; else the parent, then its direct replies oldest first |
| Comments.UnresolvedCount | src/collaboration/comments.py:85-86 | at most the number of comments |
| Comments.UnresolvedPlusResolved | src/collaboration/comments.py:85-90 | unresolved plus resolved equals the total |
| Comments.CommentManager.AddComment | src/collaboration/comments.py:37-43 | returns the comment's id; the store becomes the added store |
| Comments.CommentManager.ResolveComment | src/collaboration/comments.py:59-66 | succeeds iff the id is stored; the store becomes the resolved store |
| Comments.CommentManager.DeleteComment | src/collaboration/comments.py:68-73 | succeeds iff the id is stored, and then removes exactly it |
| Annotations.WithDefaultId | src/collaboration/annotations.py:26-29 | an annotation without an id gets `ann_` and its timestamp |
| Annotations.AddThenGet | src/collaboration/annotations.py:47-52 | the id finds the annotation afterwards; other ids are unchanged; the count grows only for a new id |
| Annotations.GetAnnotations | src/collaboration/annotations.py:54-59 | the visible annotations of the chart, a permutation sorted oldest first |
| Annotations.ChangedSpec | src/collaboration/annotations.py:61-81 | an in-place field change touches only that annotation and keeps ids; an unknown id changes nothing |
| Annotations.UpdateChangesOnlyText | src/collaboration/annotations.py:61-67 | `update_annotation` changes that annotation's text and nothing else |
| Annotations.ToggleTwice | src/collaboration/annotations.py:76-81 | toggling visibility twice restores the store |
| Annotations.ByAuthor | src/collaboration/annotations.py:83-84 | exactly that author's annotations, in dict order |
| Annotations.AnnotationManager.AddAnnotation | src/collaboration/annotations.py:47-52 | returns the id; the store becomes the added store |
| Annotations.AnnotationManager.UpdateAnnotation | src/collaboration/annotations.py:61-67 | succeeds iff the id is stored; the store becomes the updated store |
| Annotations.AnnotationManager.DeleteAnnotation | src/collaboration/annotations.py:69-74 | succeeds iff the id is stored, and then removes exactly it |
| Annotations.AnnotationManager.ToggleVisibility | src/collaboration/annotations.py:76-81 | succeeds iff the id is stored; the store becomes the toggled store |
| Filters.RegionsWithinStates | src/components/filters.py:9-21 | every region lists only states |
| Filters.StatesWithinRegions | src/components/filters.py:9-21 | there are 27 states, each in some region |
| Filters.RegionsDisjoint | src/components/filters.py:15-21 | no two regions share a state |
| Filters.RegionsPartitionStates | tests/test_components.py:154-157 | a code is a state iff some region lists it, and no two regions do |
| Filters.ToDict | src/components/filters.py:43-51 | the keys are the six filter fields, in order |
| Filters.ToDictRoundTrip | src/components/filters.py:43-51 | the filter state can be read back from the dict |
| Filters.ApplyFilters | src/components/filters.py:96-114 | the columns are kept and only rows of the input remain |
| Filters.ApplyFiltersIsFilter | src/components/filters.py:96-114 | the five steps together are one order-keeping filter by all active conditions |
| Filters.ApplyFiltersKeeps | src/components/filters.py:96-114 | the rows kept are input rows in order; a row is kept iff every active filter accepts it |
| Filters.DefaultFiltersKeepAll | src/components/filters.py:35-41 | with nothing selected the frame is unchanged |
| Filters.ApplyFiltersIgnoresRegions | src/components/filters.py:96-114 | the selected regions do not affect the result |
| Tables.NewTableConfig | src/components/tables.py:16-28 | the page size is the requested one capped at 100; the other settings are kept |
| Tables.DefaultConfig | src/components/tables.py:9-10 | page size 25, sortable, filterable, resizable, no selection |
| Tables.PageView | src/components/tables.py:71-86 | page 1 when there is one page, else the chosen one; the rows are that page's stretch, at most a page size |
| Tables.TotalPagesIsCeiling | src/components/tables.py:71 | 1 page for no rows, else ceil(n / page size) |
| Tables.ShownPageContents | src/components/tables.py:73-86 | with one page all rows are shown; a non-empty table always shows a row |
| Performance.ChooseIntType | src/core/performance.py:58-74 | an empty column stays int64; a narrower dtype is chosen only when it holds every value |
| Performance.ChosenTypeHoldsColumn | src/core/performance.py:58-74 | every value of an int64 column fits the chosen dtype |
| Performance.UnsignedChoice | src/core/performance.py:61-67 | a column without negatives becomes unsigned iff its maximum fits 32 bits, taking the narrowest unsigned dtype |
| Performance.SignedChoice | src/core/performance.py:68-74 | a column with a negative becomes narrower iff both bounds fit 32 bits, taking the narrowest signed dtype |
| Performance.StatsOf | src/core/performance.py:108-113 | count is the list length; min and max are list elements bounding every timing; avg times count is the sum |
| Performance.MinAvgMax | src/core/performance.py:110-112 | before rounding, min ≤ avg ≤ max |
| Performance.Recorded | src/core/performance.py:100-103 | the timing is appended to its operation's list, created empty on first use; other operations are unchanged |
| Performance.ReplayKeepsEveryTiming | src/core/performance.py:100-103 | after a series of calls, exactly the recorded operations have timings, each in call order |
| Performance.CountIsCalls | src/core/performance.py:105-110 | each operation's `count` is its number of `record` calls |
| Performance.PerformanceMonitor.Record | src/core/performance.py:100-103 | the timings become the recorded timings |
| Performance.PerformanceMonitor.GetStats | src/core/performance.py:105-114 | the loop gives one summary per recorded operation, computed from its timings |
| Auth.VerifyCredentials | src/auth/authenticator.py:29-48 | open with no credentials; otherwise a success means a known user whose password digests to the stored value |
| Auth.NoCredentialsOpen | src/auth/authenticator.py:31-33 | with no credentials configured, every login succeeds |
| Auth.AcceptedPairs | src/auth/authenticator.py:29-48 | a login succeeds iff no credentials are configured or (user, digest of password) is a configured entry |
| Auth.OpenExactlyWithoutCredentials | src/auth/authenticator.py:29-38 | every login succeeds exactly when no credentials are configured; otherwise an unknown name is refused |
| Auth.OtherUsersIrrelevant | src/auth/authenticator.py:35-41 | a login depends only on the user's own entry |
| Auth.AcceptedPasswordsShareDigest | src/auth/authenticator.py:17-19 | two accepted passwords have the same digest, so with an injective digest they are equal |
| Auth.RequireAuth | src/auth/authenticator.py:72-76 | a session marked authenticated always passes; the gate can only be closed when credentials are configured |
| Auth.RequireAuthOpenExactlyWithoutCredentials | src/auth/authenticator.py:72-76 | every session passes exactly when no credentials are configured |
| Auth.GatesAgree | src/auth/authenticator.py:72-76 | a never-marked session passes `require_auth` exactly when `verify_credentials` admits every login |
| Auth.LoginOpensGate | src/auth/authenticator.py:63-64 | a session marked only on a successful login passes `require_auth` exactly when that login succeeded |
| Benchmarks.Classify | src/analytics/benchmarks.py:22-28 | the first match among ≥ top_10, ≥ meta_pne, ≥ media_nacional, else below |
| Benchmarks.CalculateBenchmarkPosition | src/analytics/benchmarks.py:18-36 | the position above; the gap to the target and the distance to the average add up to target - average, with signs telling which side the value is on |
| Benchmarks.PositionMonotone | src/analytics/benchmarks.py:22-28 | when top_10 ≥ meta_pne ≥ media_nacional, a larger value never gets a worse position |
| Benchmarks.PositionBands | src/analytics/benchmarks.py:22-28 | under that order each position is a band of values |
| Benchmarks.BenchmarkDirections | src/analytics/benchmarks.py:10-15 | approval rate and IDEB marks run upwards; failure and dropout marks run downwards |
| Benchmarks.FailureRateMisclassified | src/analytics/benchmarks.py:12 | a 10% failure rate, above the 4.1% average, is ranked top 10% |
| Benchmarks.LowerIsBetterInverted | src/analytics/benchmarks.py:23-24 | on a downward benchmark every value worse than the average is ranked top 10% |
| Benchmarks.DirectedPosition | src/analytics/benchmarks.py:22-28 | an upward benchmark is classified as written; on a downward one each of the four positions is exactly its band, reached at or below each mark |
| Benchmarks.CalculateMetricPosition | src/analytics/benchmarks.py:18-36 | an upward metric gets exactly `calculate_benchmark_position`; a downward one its directed position; the two gaps add up to target - average, with signs telling which side of each mark the value is on |
| Benchmarks.DirectedPositionMonotone | src/analytics/benchmarks.py:22-28 | on a downward benchmark a smaller value never gets a worse position |
| Benchmarks.NationalBenchmarksDirected | src/analytics/benchmarks.py:10-15 | every national benchmark ranks values the right way round; the 10% failure rate is below the average |

## Left out

- User interface: every Streamlit widget, page and rendering function, the session-state writes of the login form and `logout`.
- I/O: the BigQuery client, the exporters, CSV reading and writing, the JSON file of saved queries, secrets loading (the credentials are a parameter, the empty map when none can be read), logging.
- Concurrency: the cache's lock, because every operation runs under it.
- SHA-256: the cache key is the (query, sorted items) pair the digest stands for; the password digest is a function parameter.
- The pandas and NumPy analytics outside the core (forecasting, anomaly detection, quality, lineage, period comparison) and the float32 and category conversions of `optimize_dataframe`.
- Floating point: timings, rates and thresholds are exact reals, and NaN is not modelled.
- Alerts.Alert.Deviation: not rounded to two decimals, because rounding reals is not modelled.
- History.Stats: the average time and success rate are not rounded to one decimal.
- Performance.StatsOf: avg, min and max are not rounded to one decimal.
- Benchmarks.CalculateBenchmarkPosition: the two gaps are not rounded to two decimals.
- Alerts.Evaluate: the alert message (the template or the default text) is not modelled.
- Text.Upper: case mapping is ASCII only; whitespace and word characters are those of the first 256 code points; `\d` matches ASCII digits only.
- Pagination.TotalPages: requires a page size of at least 1. For 0 the program raises ZeroDivisionError; a negative size, which `max(1, …)` at src/core/lazy_loader.py:88 and src/components/tables.py:71 accepts silently, is not modelled either.
- LazyLoader.CreatePaginatedLoader: requires a page size of at least 1, so the negative sizes the program accepts are not modelled.
- Tables.PageView: requires a page size of at least 1 (neither 0 nor a negative size is modelled). The requested page comes from the page picker, which keeps it between 1 and the last page.
- LazyLoader.AllStates: `get_all_states` is a map, so the dict order is not kept.
- Performance.PerformanceMonitor.GetStats: the result is a map, so the insertion order of the stats dict is not kept.
- LazyLoader.LazyDataLoader.Preload: the result is a map, so the key order of the results dict (the order of the requested keys, first occurrence first) is not kept.
- Auth.VerifyCredentials: `hmac.compare_digest` raises TypeError when the stored digest is not a string (a number in the secrets file, say) or is a string with non-ASCII characters; the model has string digests only and compares them by equality, so for such a misconfigured entry it answers `false` where the program raises.
- Aliasing and object identity:
  - `save_query` also changes the caller's object;
  - `add_report` computes the next run on the caller's report object (src/analytics/scheduler.py:60), so the caller sees the new `next_run`; the model appends an updated copy;
  - the stores keep the objects given to `add_comment` and `add_annotation`, so `resolve_comment`, `update_annotation` and `toggle_visibility` also change the object the caller still holds; the model changes only the stored copy;
  - alerts are found by value in `acknowledge`, not by identity;
  - the same report object listed twice is executed once per listing.
- Scheduler.Status: the ISO text `isoformat` writes for a time is a parameter, not modelled.
- Scheduler.ReportScheduler.RunPending: the whole run uses one clock reading `now`, where the program reads the clock per report.
- Scheduler.ReportScheduler.ExecuteReport: it runs a report at a position in the list. For a report outside the list, see Scheduler.Execute.
- The `size` and `count` properties and the other getters are modelled as plain functions without contracts, because they only read a field.

Two behaviours worth knowing:
- The cache evicts whenever it is full, even when the key being written is already present.
- Re-registering a loader keeps the memoised data, so the key's state reads PENDING while `get` still returns the old value.

## Findings

| source | as written | input that shows it | evidently intended | confidence | as-written member | corrected member |
|---|---|---|---|---|---|---|
| src/analytics/benchmarks.py:12-13 | lower-is-better rates (failure, dropout) are ranked with `>=` like the others, so any value at or above the top-10% mark is top 10% | `taxa_reprovacao` of 10.0 against marks 1.5 / 2.0 / 4.1 gives `top_10` | for those two rates a value must be at or below a mark to reach it, so 10.0 is below the average | not executed; high | Benchmarks.FailureRateMisclassified | Benchmarks.NationalBenchmarksDirected |
| src/core/cache_manager.py:32 | the hashed text is the query with the parameter repr appended, so a query and its parameters are not separated | `get("q[('a', 'b')]")` and `get("q", {"a": "b"})` hash the same text and share one entry | distinct (query, parameters) pairs use distinct entries | not executed; low | Cache.RawKeyCollides | Cache.GenerateKeySame |
