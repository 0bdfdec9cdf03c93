# A verified model of the fuling prediction and catalog core

This project models, in Dafny, the logic at the centre of a Flask
application for a herbal compound database. The application lists
compounds of three classes (挥发油, 三萜, 甾醇), lists and details the
protein targets predicted for them, and runs drug–target prediction jobs
in the background. Stripped of Flask, pandas I/O, RDKit and the neural
network, what remains is the following:

- **Prediction jobs** (`PredictionJobs`, `JobRegistry`; api/prediction.py).
  - `PredictionJob` is a class whose status and counters its single and batch runs update unit by unit.
  - Its status moves `queued → running → completed | failed | cancelled`.
  - A cancellation is observed before every compound and before every protein.
  - Three maps hold the jobs: active jobs, finished jobs and their results. The status route moves finished jobs between them, the cancel route cancels only active jobs, and two cleanups trim them.
- **Target aliases and aggregation** (`TargetNames`, `TargetAggregate`, `TargetQueries`, `TargetModel`; models/target.py).
  - The alias map sends every name in `gene_names_full` to its row's `gene_symbol`.
  - The compound-file naming rule is `<prefix><id>.xlsx`.
  - The aggregation groups predictions by symbol. It computes counts, distinct files, compound classes, the first `From`, and the min, mean and max score, then merges in the reference table and adds defaults.
  - Lookup by gene name, and the search for every compound predicted for a target.
- **Catalog filtering, search, sorting and pagination.**
  - `CompoundModel` (models/compound.py) and `CompoundService` (services/compound_service.py).
  - `TargetService` (services/target_service.py) and `Pagination` (utils/pagination.py).
  - The route-level parameter handling in `CompoundsApi` (api/compounds.py), `TargetsApi` (api/targets.py) and `CompoundsViews` (views/compounds.py).
- **Dataset and batch accounting** (`DataProcessing`, api/process.py; `Predictor`, api/predictor.py).
  - Building one dataset per compound against the protein panel.
  - Scoring dataset files.
  - Per-row and per-file success and failure counts.

The pandas operations the code relies on are modelled once, generically, in
`Frames`:

- A cell is `NaN`, `None`, a number, a string, or a set of names.
- A row maps column names to cells, and a frame is its column list plus its rows.
- A dict built by `to_dict()` is a record: key/value pairs in insertion order.

Python's own semantics are written out where the code depends on them. This covers floor division, slicing with negative bounds, `str.split()` on Python's whitespace characters, `str.replace`, `int()` of a signed decimal string, and the truthiness tests of `if x`. All of these live in `PyOps`, `Text` and `Frames`.

Whatever the code gets from outside is a parameter:

- the model's score for a SMILES and a sequence (`Predictor.Scorer`: a score or an exception message);
- whether RDKit parses a SMILES (`Validity`, `SmilesParser`);
- `float()` of a string (`FloatParser`);
- `round(x, n)` (`Rounder`);
- the contents of files and directory listings (tables and listings passed in);
- the current time (an integer number of seconds);
- the point at which another request cancels a running job.

## Model

| member | source | states |
|---|---|---|
| PredictionJobs.PredictionJob.constructor | api/prediction.py:39-54 | A new job is queued, every counter is 0, and it has no start or end time, error or results. |
| PredictionJobs.PredictionJob.Start | api/prediction.py:56-71 | Without a predictor the job fails with "Prediction service not available" and gets no start time. Otherwise it is running from `now`. No counter changes. |
| PredictionJobs.PredictionJob.Cancel | api/prediction.py:261-264 | Whatever the status, the job becomes cancelled with its end time set; nothing else changes. |
| PredictionJobs.PredictionJob.Fail | api/prediction.py:136-139 | The outer `except`: failed, the exception's message, the end time; counters and results untouched. |
| PredictionJobs.PredictionJob.RunSingle | api/prediction.py:73-139 | An exception before the loop fails the job and leaves everything else. Otherwise `total` is the panel size and the counters are those of the single-loop specification. A loop that ran to the end completes with its results; a cancelled one keeps the old results. |
| PredictionJobs.PredictionJob.SingleLoop | api/prediction.py:88-134 | The protein loop, with a cancellation check before each protein, ends in the state the single-loop specification `SinglePrefix` gives. |
| PredictionJobs.PredictionJob.RunBatch | api/prediction.py:141-235 | An exception before the loop (predictor, uploaded table, panel) fails the job and changes nothing else. Otherwise `total = rows × panel` and the counters follow the batch specification. The loop ends completed with results, cancelled with the old results, or failed with the error of a missing column. |
| PredictionJobs.PredictionJob.BatchLoop | api/prediction.py:160-230 | The compound loop ends in the state `BatchPrefix` gives. That covers invalid SMILES rows, the per-compound protein loops, a missing SMILES or id column, and cancellation. |
| PredictionJobs.PredictionJob.CompoundLoop | api/prediction.py:176-213 | The protein loop of one compound continues the counters as `CompoundPrefix` says. It returns the compound's interactions, or reports the cancellation it met. |
| PredictionJobs.PredictionJob.ProteinStep | api/prediction.py:178-211 | One protein either meets the cancellation or applies its unit. A unit is a score, a filtered score or a scorer exception. |
| PredictionJobs.PredictionJob.Count | api/prediction.py:182-207 | The counter updates of one unit. A score adds to success and processed, and an exception to failed and processed. A filtered score adds to processed only in batch mode. |
| PredictionJobs.PredictionJob.StatusOf | api/prediction.py:266-286 | The status report carries an ETA exactly when the job is running with something processed. It copies the id, status, counters and error. |
| PredictionJobs.UnitOf | api/prediction.py:94-115 | A unit is unscored iff the scorer raises. It is filtered iff the option is on and the score is below 0.95. Otherwise it is the interaction with that score, the panel entry's fields and its id. |
| PredictionJobs.Apply | api/prediction.py:182-207 | Per unit: processed grows by 1, except for a filtered single-mode unit. Success and the interaction list grow together, by 1 for a score. Failed grows by 1 for an exception. |
| PredictionJobs.CountHigh | api/prediction.py:129 | The high-confidence count never exceeds the number of interactions. |
| PredictionJobs.CountHighAll | api/prediction.py:129 | When every interaction scores at least 0.95, the high-confidence count is all of them. |
| PredictionJobs.SinglePrefixStays | api/prediction.py:91-92 | Once the single loop has returned on a cancellation, later proteins change nothing. |
| PredictionJobs.SingleCounts | api/prediction.py:90-121 | After `m` proteins from zero counters, successes equal the interactions and successes plus failures equal processed. Processed is at most `m`, and exactly `m` when the loop goes on without the high-confidence option. With that option every interaction scores at least 0.95. |
| PredictionJobs.SingleIds | api/prediction.py:101-106 | Every single-mode interaction has the id `job_id_idx` and the sequence of panel entry `idx`. |
| PredictionJobs.SingleSummarySound | api/prediction.py:123-131 | The summary of a finished single run counts its interactions as successes. With the option on, it counts all of them as high-confidence. |
| PredictionJobs.CompoundIdOf | api/prediction.py:168 | Without an id column the compound id is `compound_<row>`. With one, it is that cell, or the KeyError of a missing column. |
| PredictionJobs.CompoundPrefixStays | api/prediction.py:179-180 | A cancelled protein loop stays as it returned. |
| PredictionJobs.BatchPrefixStays | api/prediction.py:164-165 | A batch that returned or raised stays as it was. |
| PredictionJobs.RowSkipped | api/prediction.py:171-174 | A row with an invalid SMILES adds the panel size to both failed and processed and adds no interaction. |
| PredictionJobs.RowScored | api/prediction.py:176-213 | A valid row appends the interactions of its protein loop when that loop runs to the end. A cancelled loop is the batch's final state. |
| PredictionJobs.RowGoing | api/prediction.py:163-214 | A batch still going after row `n` passed its cancellation check, found its SMILES and id cells, and extended the earlier interactions. |
| PredictionJobs.CompoundCounts | api/prediction.py:178-211 | A compound's protein loop adds 1 to processed per protein reached, filtered ones included. Its successes are its interactions, and without filtering successes plus failures equal the proteins reached. |
| PredictionJobs.BatchCounts | api/prediction.py:158-214 | From zero, processed never exceeds `n × panel` and equals it when the loop ran to the end. Successes plus failures never exceed processed. At the end, successes equal the interactions, and with the option every interaction scores at least 0.95. |
| PredictionJobs.CompoundIds | api/prediction.py:190-199 | Each interaction of a compound's loop carries that compound's id and the id `job_id_row_j` of one of its proteins. |
| PredictionJobs.BatchIds | api/prediction.py:163-213 | Each batch interaction has the id `job_id_i_j` of a row `i` and a protein `j`. Without an id column its compound id is `compound_<i>` of that row. |
| PredictionJobs.PrefixKept | api/prediction.py:213 | `all_results.extend` only appends: earlier interactions keep their positions. |
| PredictionJobs.RowIds | api/prediction.py:190-192 | An interaction gathered at row `n-1` carries that row's ids. |
| PredictionJobs.BatchSummarySound | api/prediction.py:216-227 | In the summary of a finished batch, the interactions are the successes and the processed compounds are at most the rows. With the option on, every interaction is high-confidence. |
| PredictionJobs.EtaTextReadsBack | api/prediction.py:274 | The ETA text is the minutes, a colon and exactly two digits of seconds, and it reads back to the estimate. |
| JobRegistry.SingleRequestError | api/prediction.py:293-304 | A job is created iff a non-empty SMILES parses. A missing or empty SMILES is "SMILES string required"; anything else is "Invalid SMILES string". |
| JobRegistry.IsCsvNameSuffix | api/prediction.py:339 | The upload check looks only at the last four characters, in any case. |
| JobRegistry.BatchRequestError | api/prediction.py:332-365 | A batch job is created iff the file is there and named `*.csv`, the SMILES column is given and present in the readable table, and a given id column is present. The 400 messages come in the order the route checks them. |
| JobRegistry.KeepLatestSound | api/prediction.py:611-618 | Out of distinct ids, the `n` kept are `n` of them, and each ends no earlier than any id left out; a missing end time is the oldest. |
| JobRegistry.SortLatestOrdered | api/prediction.py:611-615 | The stable sort by end time, latest first, is a permutation in that order. |
| JobRegistry.SortLatestStable | api/prediction.py:611-615 | The sort is stable: the ids sharing any one end time come out in the order they went in. |
| JobRegistry.SortLatestTied | api/prediction.py:611-618 | When all end times are equal the sort changes nothing, so the ids kept are the first `n` finished. |
| JobRegistry.Registry.constructor | api/prediction.py:32-34 | All three maps start empty. |
| JobRegistry.Registry.SubmitSingle | api/prediction.py:289-323 | A rejected request changes nothing. An accepted one adds exactly one fresh job under its id, holding the SMILES and the option, running or failed as the predictor allows. |
| JobRegistry.Registry.SubmitBatch | api/prediction.py:329-392 | The same for a batch. The job holds the table and its columns, and its option is on only for the form value `'true'`. |
| JobRegistry.Registry.Poll | api/prediction.py:394-424 | An unknown id is "Job not found". An active job reports its status; a terminal one moves to the finished jobs with its results copied, and they are attached when it completed. A finished job reports its stored results. Results are kept only for finished jobs. |
| JobRegistry.Registry.CancelPrediction | api/prediction.py:429-438 | Only an id among the active jobs is cancelled, even one that already finished but was not polled yet. It becomes cancelled at `now`, and its counts, start time, error and results are unchanged. Any other id gets "Job not found or already completed". |
| JobRegistry.Registry.Cleanup | api/prediction.py:604-630 | With at most 10 finished jobs nothing changes. Otherwise exactly 10 stay: unchanged, and ending no earlier than any removed job. They are the first 10 of the finished ids in the order they finished, stably sorted by end time, so ties go to the earlier finished. The removed jobs lose their results, and the active jobs never change. |
| JobRegistry.Registry.TrimFinished | api/prediction.py:611-624 | The trimming step keeps exactly the ids that sort picks and deletes the rest from the finished jobs, the results and the finishing order. |
| JobRegistry.Registry.CleanupOld | api/prediction.py:641-656 | Exactly the finished jobs whose end time is set and earlier than a day before `now` leave both the finished jobs and the results. The count removed is reported, and active jobs are unchanged. |
| JobRegistry.Registry.LatestFinished | api/prediction.py:611-618 | Picks the first `n` ids of the stable sort of the finished ids in finishing order: `n` finished ids, each ending no earlier than any finished job left out. |
| JobRegistry.Registry.RemoveFinished | api/prediction.py:621-624 | The deletion loop removes the ids from the finished jobs, from the results and from the finishing order, and from nothing else. |
| Pagination.Window | utils/pagination.py:28-47 | The page reports the total, the page and page size asked for. `has_prev` holds iff page > 1, and `has_next` iff page < total_pages. |
| Pagination.WindowSlice | utils/pagination.py:28-36 | For positive arguments, total_pages is the ceiling of total / size. The items are the contiguous window `[(page-1)·size, page·size)`, at most `size` of them, and none past the last page. |
| Pagination.WindowItem | utils/pagination.py:32-36 | Item `i` of a page is element `(page-1)·size + i` of the data. |
| Pagination.Paginate | utils/pagination.py:25-48 | The page is clamped to at least 1 and the size into `[1, max_page_size]`; a size already in range is kept. The page holds at most a page of items. |
| Pagination.PaginateFrame | utils/pagination.py:58-75 | No clamping; it fails exactly for a page size of 0 (the division by zero). |
| Pagination.PaginateIsClampedFrame | utils/pagination.py:25-26 | `paginate` is `paginate_dataframe` applied to the clamped arguments. |
| Pagination.PagesCoverData | utils/pagination.py:32-36 | Reading pages 1 to total_pages in order gives back the whole input. |
| TargetNames.AddTokens | models/target.py:38-39 | Every token is mapped to the symbol, and no other key changes. |
| TargetNames.AliasMapMeaning | models/target.py:26-39 | Without both columns the map is empty. Otherwise its keys are exactly the whitespace-separated tokens of `gene_names_full`, and each maps to the `gene_symbol` of the last row listing it. |
| TargetNames.AliasesFromLast | models/target.py:29-39 | Last writer wins: the last row listing a name decides its symbol. |
| TargetNames.AliasMapValues | models/target.py:30-39 | Every symbol the map yields is some reference row's `gene_symbol`. |
| TargetNames.AliasMapKeysAreTokens | models/target.py:35 | The empty name, and a name containing whitespace, are never keys. |
| TargetNames.Resolve | models/target.py:41-43 | The lookup finds exactly the string names that are keys, and returns their symbol; anything else gives None. |
| TargetNames.ResolvedCell | models/target.py:293 | The `gene_symbol` cell is None exactly when the lookup finds nothing, and otherwise the symbol found. |
| TargetNames.SymbolFor | models/target.py:231-234 | The mapped symbol, or the name itself when the lookup is falsy. |
| TargetNames.DirName | models/target.py:47-55 | Exactly the three classes have a file prefix: `huifayou`, `santie`, `zaichun`. |
| TargetNames.FileNameRoundTrip | models/target.py:58 | For a non-negative id, stripping the prefix and `.xlsx` from `<prefix><id>.xlsx` (line 248) and parsing gives back the id. |
| TargetModel.Target.constructor | models/target.py:10-24 | The reference is the targets file's table, or an empty frame when there is none. The alias map is the one built from it. |
| TargetModel.Target.BuildGeneNameMapping | models/target.py:26-39 | The nested loop leaves the alias map that the row-by-row, token-by-token specification `AliasesFrom` gives, and only when both columns exist. |
| TargetModel.Target.GeneSymbolFromName | models/target.py:41-43 | Found iff the name is a string key of the map, with its symbol. |
| TargetModel.Target.GetAllUniqueTargets | models/target.py:278-366 | The directory and file loops collect exactly the files `Scanned` describes and return their aggregate. |
| TargetModel.Target.GetCompoundsByTarget | models/target.py:227-276 | The directory and file loops return exactly the entries `CompoundsByTarget` describes, or its KeyError. |
| TargetModel.Target.CollectDirectory | models/target.py:285-302 | The file loop of one directory keeps exactly its readable, non-empty `.xlsx` tables that have a `From` column. |
| TargetModel.Target.ScanDirectory | models/target.py:245-274 | The file loop over one directory yields that directory's entries. |
| TargetModel.Target.ScanFile | models/target.py:250-274 | One file yields the entries of its matching rows, up to the first score that `float()` rejects. |
| TargetAggregate.RowPredictions | models/target.py:293-308 | Each kept row becomes one prediction tagged with its file, whose `From` resolves to its gene symbol; there are never more predictions than rows. Every row whose `From` resolves to a string symbol yields its prediction: file tags, `From`, symbol and numeric score. |
| TargetAggregate.RowPredictionsAppend | models/target.py:293-308 | Rows are read in order: the predictions of two row runs are those of the first followed by those of the second. |
| TargetAggregate.ScanFilesFrom | models/target.py:283-302 | Each collected file is a taken file of its class's directory, read as listed. |
| TargetAggregate.ScanFilesAll | models/target.py:285-299 | Every taken file of an existing directory is collected. |
| TargetAggregate.ScannedFrom | models/target.py:283-302 | The collection is exactly the concatenation of what each existing directory contributes. |
| TargetAggregate.Numeric | models/target.py:297 | `to_numeric(coerce)`: a number stays, a parseable string becomes its number, and anything else is NaN. |
| TargetAggregate.Valid | models/target.py:308 | Only rows whose `From` maps to a symbol enter the aggregate. |
| TargetAggregate.SymbolsSorted | models/target.py:314 | The group keys are the distinct symbols, each once, strictly ascending. |
| TargetAggregate.StatsOfMeaning | models/target.py:314-331 | A group has `min ≤ avg ≤ max`, and all of them are 0 when none of its scores is numeric. `prediction_count` is the number of its predictions with a numeric score, and it is 0 exactly when none has one. Every numeric score lies in `[min, max]`. Its classes are its predictions' source types. `compound_count` is the number of distinct source files among its predictions, between 1 and the member count. `from_name` is the first `From`. |
| TargetAggregate.MembersCounts | models/target.py:314 | A `groupby` group holds each prediction of its symbol exactly as often as the valid predictions do, and no prediction of another symbol. |
| TargetAggregate.ScoredCounts | models/target.py:315 | The scores `count` counts are the group's predictions whose coerced score is numeric, each as often as in the group. |
| TargetAggregate.StatsFrame | models/target.py:314-326 | After `reset_index()` there is one row per symbol, in ascending symbol order, and row `i` is the statistics row of the `i`-th symbol. |
| TargetAggregate.MeanOfScores | models/target.py:315 | A mean lies between the minimum and the maximum. |
| TargetAggregate.SetSizeBound | models/target.py:317 | The number of distinct files is at most the number of predictions. |
| TargetAggregate.WithReference | models/target.py:333-347 | Fails exactly when a non-empty reference lacks `gene_symbol`. Without a reference, `gene_name` is each row's symbol and every other cell is unchanged. With one, the columns are the left merge's, where shared columns other than `gene_symbol` get the `_x`/`_y` suffixes. A missing `gene_name` is filled from the row's symbol, and every other cell is the merge's. |
| TargetAggregate.Aggregate | models/target.py:304-366 | No collected rows, or no valid ones, give an empty frame. It fails exactly when valid rows exist but no file has a score column, or the reference lacks `gene_symbol`. |
| TargetAggregate.DefaultsKeeps | models/target.py:349-362 | The defaults only add missing columns: every existing cell keeps its value. |
| TargetAggregate.AggregateSymbols | models/target.py:304-366 | A non-empty aggregate has the required columns, and every row names a symbol some valid prediction maps to. |
| TargetAggregate.AggregateOneRowPerTarget | models/target.py:314-340 | With a reference listing each symbol at most once: exactly one row per distinct symbol, in strictly ascending order. |
| TargetAggregate.AggregateWithoutReference | models/target.py:345-351 | Without a reference table, `gene_name` repeats the symbol and `species` is "Homo sapiens". |
| TargetQueries.CompoundTargets | models/target.py:45-70 | An unknown class is None. A class with no configured directory is a KeyError. A missing directory or file is None. |
| TargetQueries.CompoundTargetsFound | models/target.py:45-70 | A frame exists iff the class is known and configured and the directory holds `<prefix><id>.xlsx`. It is that table, unchanged without a reference or a `From` column. |
| TargetQueries.Enriched | models/target.py:72-87 | Without a symbol column the frame is unchanged. Otherwise it is the left merge on `gene_symbol` with suffixes `''` and `'_from_targets'`. |
| TargetQueries.EnrichedOneToOne | models/target.py:64-87 | With a reference listing each symbol at most once, enrichment keeps one row per prediction, in order, each with the standard symbol of its `From`. |
| TargetQueries.TargetByGeneName | models/target.py:199-225 | First the reference row for the mapped symbol, annotated with the query and the symbol; else the first aggregate row; else None. |
| TargetQueries.Annotated | models/target.py:212-215 | The returned dict records the queried name and the symbol it was mapped to. |
| TargetQueries.FallbackNeverFinds | models/target.py:218-223 | With the alias map built from the reference, the aggregate fallback never finds a row that the reference lookup missed. |
| TargetQueries.ReferenceHasSymbol | models/target.py:30-39 | Any symbol the alias map yields for a name is carried by some reference row. |
| TargetQueries.RowHitsMeaning | models/target.py:263-271 | Entry `k` is matching row `k`'s: its `From`, its `Gene Name` and its converted score. The entries stop exactly at the first score that does not convert. |
| TargetQueries.RowHits | models/target.py:263-271 | A file gives at most one entry per row. |
| TargetQueries.FileHitsMeaning | models/target.py:245-274 | A file contributes only if it is a readable, non-empty `.xlsx` with a `From` column and an integer id in its name. Each entry carries the file's class, name and id, and comes from a row matching the query or its symbol. |
| TargetQueries.DirHits | models/target.py:236-243 | An existing directory of a class without a file prefix raises KeyError. |
| TargetQueries.DirsHitsFailure | models/target.py:236-243 | The scan fails exactly when some existing directory belongs to a class without a prefix. |
| TargetQueries.CompoundsByTarget | models/target.py:227-276 | Fails exactly when an existing directory belongs to a class with no file prefix. |
| TargetQueries.DirsHitsSound | models/target.py:236-271 | Every entry comes from an existing directory of its class, from a readable `.xlsx` whose name carries the entry's id, and from a row whose `From` is the query or maps to its symbol. |
| TargetQueries.HitsCarryFileId | models/target.py:248 | A file named by the compound-file rule yields entries for that compound id. |
| TargetQueries.FileHitsComplete | models/target.py:257-271 | A well-formed file whose scores all convert gives one entry per matching row, in row order. |
| TargetService.Converted | services/target_service.py:32-38 | A present, truthy entry is replaced by its conversion (or the conversion's error); every other entry stays. |
| TargetService.FormatAllMeaning | services/target_service.py:32-38 | The formatting loop succeeds iff every dict converts, and then dict `i` is dict `i` converted. Otherwise the error is the first failing dict's. |
| TargetService.FormatEach | services/target_service.py:123-129 | The in-place loop ends as `FormatAll` says. |
| TargetService.TargetsOfCompound | services/target_service.py:16-42 | A class without a prefix gives no targets and total 0. Otherwise the total is the number of target dicts. |
| TargetService.GetCompoundTargets | services/target_service.py:16-53 | The method, with its formatting loop, returns what `TargetsOfCompound` describes. |
| TargetService.TargetsOfCompoundRows | services/target_service.py:20-42 | A non-empty prediction file gives one dict per row, in order. Its keys are the columns, and every entry other than score and the counts holds the row's value, with "" for missing. |
| TargetService.ListOfTargets | services/target_service.py:64-134 | An empty aggregate is no items with the page size asked for. Otherwise a page size of 0 raises. |
| TargetService.ListOfTargetsItems | services/target_service.py:77-134 | Total is the number of search matches, with at most a page of items. Item `i` is row `(page-1)·size + i` of the sorted matches, cut to the present display columns. |
| TargetService.GetTargetsList | services/target_service.py:55-134 | The method, with its formatting loop, returns what `TargetsList` describes. |
| TargetService.AssociateAllSound | services/target_service.py:150-163 | Every kept prediction is an input one whose compound is in the table, carrying that compound's global id. |
| TargetService.AssociateAllComplete | services/target_service.py:150-163 | A prediction whose compound is in the table is kept. |
| TargetService.AssociateAllSucceeds | services/target_service.py:172-179 | With the class, id and global-id columns present, the enrichment never raises. |
| TargetService.CompoundInfo | services/target_service.py:172-179 | Raises KeyError exactly without the class or id column. Otherwise a compound is found exactly when a row of that class carries that per-class id. |
| TargetService.EnrichCompounds | services/target_service.py:150-163 | The appending loop returns what `AssociateAll` describes. |
| TargetService.TargetDetailOf | services/target_service.py:136-170 | The detail's count is the number of associated compounds, and no value of the target is NaN. |
| TargetService.GetTargetDetail | services/target_service.py:136-170 | The method, with its NaN loop, returns what `TargetDetailOf` describes. |
| TargetService.TargetDetailFound | services/target_service.py:136-170 | With the alias map from the reference, a detail exists iff a reference row carries the query's symbol. It records the query, and each compound is a prediction for it that is found in the compound table. |
| TargetService.TopTargets | services/target_service.py:200-203 | Fails with KeyError exactly when one of the four columns is missing. |
| TargetService.StatisticsOf | services/target_service.py:181-209 | An empty aggregate gives zeros. Otherwise `total_targets` is the row count, and the species counts hold exactly the non-missing species present, each with its number of rows. A failure comes only from a missing top column. |
| TargetService.TopTargetsLargest | services/target_service.py:197-203 | At most 10 rows, in descending `prediction_count`. No row left out has a larger count than one reported. |
| CompoundModel.ApplyFilters | models/compound.py:43-48 | Only a `compound_type` entry that is present, not None and not 'all' filters; other keys are ignored. |
| CompoundModel.ApplyFiltersMembers | models/compound.py:43-48 | The filter loop gives exactly `Filtered`: the rows satisfying every acting entry, in table order. |
| CompoundModel.Filtered | models/compound.py:43-48 | The rows kept are the table rows that satisfy every acting filter entry. |
| CompoundModel.FilteredCounts | models/compound.py:43-48 | A kept row occurs as often as in the table; a row failing an entry does not occur. |
| CompoundModel.GetAll | models/compound.py:23-65 | Fails exactly when searching a table with none of the search fields. Otherwise columns are unchanged, and rows are sorted when the sort column exists, ascending iff 'asc'. |
| CompoundModel.GetAllMembers | models/compound.py:40-65 | A row passing the filters and the search occurs in the result exactly as often as in the table; any other row does not occur. |
| CompoundModel.GetAllSortIsPermutation | models/compound.py:60-63 | Sorting only reorders. |
| CompoundModel.Count | models/compound.py:90-93 | Fails exactly as `get_all` does. |
| CompoundModel.CountAgreesWithGetAll | models/compound.py:90-93 | The count is the number of rows `get_all` returns under any sort, that is, the number of matches. |
| CompoundModel.RenameEffect | models/compound.py:75-84 | The hyphenated keys are gone, their values sit under the underscored keys, `Rotatable_Bond_Count` keeps its value, and no other key changes. |
| CompoundModel.RenameKeepsOthers | models/compound.py:82-84 | A key outside the renaming keeps its value. |
| CompoundModel.ById | models/compound.py:67-88 | Fails exactly when the table has no `global_id` column. |
| CompoundModel.ByIdFound | models/compound.py:69-70 | A compound is found exactly when some row carries the id. |
| CompoundModel.GetById | models/compound.py:67-88 | The renaming loop returns what `ById` describes. |
| CompoundModel.GetStatistics | models/compound.py:95-102 | Total is the row count. `by_type` holds exactly the non-missing types present, with their counts. The SMILES and PubChem counts are the numbers of rows whose cell is not missing (each at most the total), and 0 without the column. |
| CompoundService.BuildFiltersMeaning | services/compound_service.py:25-27 | A row is kept exactly when no type is asked for, the table has no type column, or the row has that type. |
| CompoundService.DisplayRecordAt | services/compound_service.py:48-51 | A display dict's keys are the present display columns, each with the row's value, "" for missing. |
| CompoundService.FormatWeight | services/compound_service.py:54-59 | A number, or a non-empty string that parses as a float, is replaced by its rounded value. A falsy weight, and one that does not convert, is left as it is; the other keys never change. |
| CompoundService.FormatWeights | services/compound_service.py:54-59 | The in-place loop formats every item and only that. |
| CompoundService.GetCompoundsList | services/compound_service.py:14-64 | The method returns what `CompoundsList` describes. |
| CompoundService.CompoundsListItems | services/compound_service.py:29-64 | Total is the number of matching compounds, with at most a page of items. Item `i` is row `(page-1)·size + i` of the sorted matches, with the display keys. |
| CompoundService.GetCompoundDetail | services/compound_service.py:66-75 | The method, with its NaN loop, returns what `CompoundDetail` describes. |
| CompoundService.CompoundDetailFound | services/compound_service.py:66-75 | A detail exists exactly for an id some row carries. It holds that id, and no value in it is NaN. |
| CompoundService.ByIdCarriesId | services/compound_service.py:66-75 | A found compound dict carries its `global_id`. |
| CompoundService.SearchCompounds | services/compound_service.py:77-97 | At most 100 results. |
| CompoundService.SearchCompoundsMatch | services/compound_service.py:88-97 | There are `min(100, n)` results for a full result of `n` rows sorted by `global_id`. Result `i` is row `i` of it: a matching row whose present search-display keys hold its cells, with missing values as "". |
| CompoundService.SearchTypeIgnored | services/compound_service.py:79-88 | The search type never changes the result. |
| CompoundService.CountCompounds | services/compound_service.py:103-114 | The service count fails exactly as `get_all` does; otherwise it is the number of matching compounds. |
| CompoundsApi.ClampPage | api/compounds.py:31 | The page is at least 1 and unchanged when already so. |
| CompoundsApi.ClampPageSize | api/compounds.py:32 | The page size is in `[1, 100]`, unchanged when already there and 100 above it. |
| CompoundsApi.GetCompounds | api/compounds.py:21-47 | Fails exactly when searching a table without search fields. |
| CompoundsApi.GetCompoundsClamped | api/compounds.py:31-42 | Whatever the request, the list has page `max(1, page)` and a clamped size, holds at most that many items, and totals all matches. |
| CompoundsApi.InlinePage | api/compounds.py:148-162 | Fails exactly for a page size of 0. The total, page and size are as asked, `has_next` holds iff page < total_pages, and `has_prev` iff page > 1. |
| CompoundsApi.InlinePageIsWindow | api/compounds.py:148-162 | For a positive size the route pages exactly as `Paginator` does, with total_pages the ceiling of total / size. |
| CompoundsApi.CompoundTargetsRoute | api/compounds.py:121-172 | "Compound not found" exactly when the detail is None; a reply carries that detail. |
| CompoundsApi.TargetsOfCells | api/compounds.py:139-142 | A class cell that is not a string, or names a class without a prediction directory, gives no targets and total 0. A string class with a directory and a whole-number id gives the targets of that compound's file; any other id gives none. |
| CompoundsApi.CompoundTargetsNotFound | api/compounds.py:129-136 | An id no row carries is "Compound not found" whatever the prediction files hold. |
| CompoundsApi.CompoundTargetsPaged | api/compounds.py:138-162 | For a positive size, a reply holds the `Paginator` window of all the compound's targets, reports them all as the total, and has at most a page of them. |
| TargetsApi.GetTargetsClamped | api/targets.py:31-42 | A page has page ≥ 1, a page size in `[1, 100]` and at most that many items. The empty answer carries the clamped size. |
| TargetsApi.GeneFamilyIgnored | api/targets.py:25-42 | The gene family never changes the list. |
| TargetsApi.SortByScore | api/targets.py:99 | The in-place sort leaves the compounds in descending score order, missing scores last, as a permutation. It is stable: compounds with equal scores keep their order. |
| TargetsApi.GetTargetCompounds | api/targets.py:84-112 | The route answers "Target not found" or fails exactly as the detail does. Otherwise it returns the detail's compounds, sorted by score descending as a stable permutation, with `total` their number. |
| TargetsApi.SearchOver | api/targets.py:128-139 | `total` is the number of items. |
| TargetsApi.SearchOverMatch | api/targets.py:128-139 | At most 100 items. Each is an aggregate row containing the query in a search field, with that row's display values. |
| TargetsApi.SearchTypeIgnored | api/targets.py:126 | The search type never changes the result. |
| CompoundsViews.FinalSearch | views/compounds.py:111 | The custom search wins over the DataTables search, and an empty final search is None. |
| CompoundsViews.TypeArg | views/compounds.py:126-128 | A type of 'all' or empty becomes None; anything else is passed on. |
| CompoundsViews.TypeArgRedundant | views/compounds.py:126-128 | The view's own normalisation builds the same filters the service would. |
| CompoundsViews.SortKey | views/compounds.py:121-123 | Fails exactly for a non-integer index or one below -7. Otherwise the key is one of the columns. |
| CompoundsViews.SortKeyOfIndex | views/compounds.py:121-123 | Indices 0–5 select that column and ≥ 6 select `global_id`. Indices -7…-1 count from the end, and only -1 reaches 'actions'. |
| CompoundsViews.PageOf | views/compounds.py:114 | Fails exactly for a length of 0. |
| CompoundsViews.PageContainsStart | views/compounds.py:114 | For a row offset and a positive length, the page is the one whose window contains row `start`. |
| CompoundsViews.ApiList | views/compounds.py:97-162 | The reply keeps `draw`. An error reply has zero totals and no data. |
| CompoundsViews.ApiListFails | views/compounds.py:97-162 | The reply is an error exactly for length 0, an unusable column index, or a search over a table without search fields. |
| CompoundsViews.ApiListTotals | views/compounds.py:130-153 | `recordsTotal` is every compound, and `recordsFiltered` the matches of the type and search. There are at most `length` rows. |
| CompoundsViews.CompareCompounds | views/compounds.py:83-94 | The loop returns the details of the first five ids that name a compound, in order. |
| CompoundsViews.ComparedMeaning | views/compounds.py:89-92 | Over a table with `global_id`, the comparison never fails and holds at most 5 compounds. Any of the first five ids that a row carries contributes its compound. |
| CompoundsViews.ComparedSound | views/compounds.py:89-92 | Every compared compound is the detail of one of the first five ids. |
| CompoundsViews.DetailsOfComplete | views/compounds.py:89-92 | Every id that names a compound contributes that compound to the comparison. |
| CompoundsViews.TypePageOf | views/compounds.py:42-56 | 404 exactly for a type outside the three classes. Otherwise it is the page of that type with statistics over all compounds. |
| CompoundsViews.TypePageAllowed | views/compounds.py:45-46 | The page accepts exactly the classes that have a prediction directory. |
| DataProcessing.ValidateSmiles | api/process.py:43-49 | Valid iff the parser gives a molecule, and then with no message. None gives "无效的SMILES字符串"; an exception gives its message after "SMILES验证出错: ". |
| DataProcessing.Dataset | api/process.py:69-74 | Fails, with the KeyError of the first missing panel column, exactly when a panel column is missing. |
| DataProcessing.DatasetShape | api/process.py:69-74 | A dataset has the four dataset columns and one row per protein. Each row has the same SMILES and that protein's sequence, gene and name. |
| DataProcessing.BuildDataset | api/process.py:51-87 | Saved iff the SMILES is valid and the panel has its columns. An invalid SMILES is rejected with the validation message before anything is built. A saved dataset goes to `save_path`, with one row per protein. |
| DataProcessing.BuildPrefixCounts | api/process.py:123-165 | After `n` rows, success + failed = `n` and total = all rows. There is one failure entry per failure and one written file per success. |
| DataProcessing.BuildPrefixWritten | api/process.py:145-158 | Every file written is `<id>.csv` of a row with a valid SMILES, holding that row's dataset. |
| DataProcessing.BuildPrefixFailed | api/process.py:136-165 | Every failure entry carries a row's id and the validation message, or the error of building that row's dataset. |
| DataProcessing.BuildRow | api/process.py:131-165 | The loop body does what `BuildStep` describes. |
| DataProcessing.BuildBatchDatasets | api/process.py:89-170 | The extension is checked first, then reading, the id column and the SMILES column, each with its own message. Otherwise rows without a SMILES are dropped and the row loop's stats and files are returned. |
| DataProcessing.BatchAccounting | api/process.py:115-167 | Each remaining row is counted exactly once: success + failed = total, with one entry per failure and one file per success. The rows counted are exactly those with a SMILES. |
| Predictor.FirstMissing | api/predictor.py:126-129 | None iff every name is a column; otherwise a missing one from the list. |
| Predictor.ScanRows | api/predictor.py:135-143 | At most `m` results, and exactly `m` when no exception occurred. |
| Predictor.ScanRowsInOrder | api/predictor.py:135-143 | Without an exception, result `i` is row `i`'s score with row `i`'s fixed columns, and those columns were present. |
| Predictor.ScanRowsStops | api/predictor.py:135-143 | The first exception ends the loop. |
| Predictor.PredictFile | api/predictor.py:100-158 | True iff the file reads, the four named columns exist and every row scores. Then one result per row, in order, is written to the output file; otherwise nothing is written. |
| Predictor.FixedColumnsMatter | api/predictor.py:139-142 | A non-empty file without a `Gene` column never succeeds, whatever column names were passed. |
| Predictor.Stem | api/predictor.py:227 | `Path.stem` of a `*.csv` name restores the name with `.csv`. |
| Predictor.FilesPrefixCounts | api/predictor.py:193-238 | Each file is processed or failed, and processed files are exactly the files written, each a `<stem>_prediction.csv`. Processed compounds never exceed total compounds. |
| Predictor.PredictBatchDatasets | api/predictor.py:160-243 | A missing directory or one without CSV files is an error with empty stats. Otherwise the stats and outputs are those of the file loop. |
| Predictor.ScoreFile | api/predictor.py:214-224 | The row loop of one file returns the rows scored before the first exception, and that exception. |

## Left out

- Flask routing, request parsing, JSON and HTTP status shaping, templates and error handlers. Only the route logic listed above is modelled. app.py, views/pages.py, views/targets.py and views/prediction.py are not part of this model.
- Threads, `time.sleep` and concurrency. A run is one sequential call. A cancellation from another request is modelled as the check point at which the run first sees it. The race between `cancel` and a finishing loop is therefore not modelled; only its outcomes are.
- `datetime.now()`: times are integer seconds passed in. `periodic_cleanup` is modelled as one pass of its loop body (`CleanupOld`), without the hourly sleep.
- PredictionJobs.PredictionJob.StatusOf: the progress percentage and the rate division of the ETA are floating point. The ETA text is modelled from a whole number of seconds passed in.
- Floating point generally. Scores and means are exact reals. `round(x, n)` is a parameter (`Rounder`). The score standard deviation (`score_std`) is not computed. The score mean and range of `get_compound_targets` are not returned by `TargetsOfCompound`.
- The neural network (`predict_single`, model loading, graph building) is the `Scorer` parameter. RDKit parsing is a parameter, in three forms: `Validity` for the job loop, `SmilesParser` for `DataProcessor` and a predicate for the submit check. The Lipinski and property routes (`/validate/smiles`, `/properties`) are not modelled.
- File and directory I/O. File contents are tables passed in, directory listings are sequences passed in, and writes are returned values. The `main()` drivers of api/process.py and api/predictor.py, `_load_protein_data`, and the `DataProcessor` constructor's existence checks are left out.
- The download, results and job-list routes (`download_results`, `get_results`, `list_jobs`) only format stored data. They are not modelled.
- The first definition of `get_all_unique_targets` (models/target.py:89-197) is overridden by the second and never runs, so it is not modelled. The same goes for the empty `find_target` route.
- pandas `str.contains` treats the search term as a regular expression. The model matches it as a literal substring, case-insensitively; only ASCII letters are folded.
- Text of numbers (`astype(str)`): a number cell is one `Num` of an exact real, so an integer column and a float column are not told apart. A whole number reads as its integer digits (`5`) and any other number as the empty string. pandas writes a float column's values as `5.0` and `5.5`. So a search term such as `.0` or `5.5`, and an alias token taken from a float cell, can match in pandas but not in the model; integer cells match the same way in both.
- CompoundsApi.TargetsOfCells: the prediction file name is `f'{dir_name}{compound_id}.xlsx'` of models/target.py:58. The model builds it only from a whole-number id, as its integer digits. A float id `5.0` names `<prefix>5.0.xlsx` in Python, which the model looks up as `<prefix>5.xlsx`. A string id such as `"5"` names `<prefix>5.xlsx` in Python and can find the file, while the model answers no targets for it.
- TargetAggregate.RowPredictions: `gene_symbol` is kept when the alias lookup gives any non-missing value. The model keeps a row only when that value is a string; an alias table whose symbol column holds numbers loses those rows here.
- The prediction panel is assumed to have `protein`, `gene` and `sequence` columns. Without one of them, the single-compound loop raises KeyError inside its inner `try` (api/prediction.py:94-112), so every unit counts as failed. Without `protein`, the batch loop raises again from its `except` handler (api/prediction.py:206), which the outer handler turns into a failed job. These missing-column outcomes are not modelled.
- CompoundModel.GetAll: `sort_values` on a column that mixes strings with numbers raises TypeError in pandas. The model sorts such a column instead: numbers, then strings, then lists of names, with all lists tied, whereas Python compares two sets by inclusion. So "fails exactly when" does not include the TypeError of a mixed sort column, such as a `Molecular_Weight` holding both `5` and `"n/a"`. The same holds for `TargetService.ListOfTargets` (services/target_service.py:101-103).
- CompoundsApi.GetCompounds: inherits the mixed-kind sort column gap of `CompoundModel.GetAll`; such a request fails in pandas but succeeds in the model.
- CompoundsViews.ApiListFails: inherits the mixed-kind sort column gap of `CompoundModel.GetAll`; the reply for such a column is an error in pandas and a table in the model.
- TargetsApi.SortByScore: Python's `list.sort` with a NaN key leaves NaN where its `<` comparisons (all false) happen to put it. Keys `[1.0, nan, 2.0]` with `reverse=True` come back unchanged. The model always puts missing scores last, giving `[2.0, 1.0, nan]`. `TargetsApi.GetTargetCompounds` inherits this.
- TargetService.TargetsOfCompound: `targets_df['score'].mean()` (services/target_service.py:44-48) raises TypeError when the score column holds strings, and `min()`/`max()` raise when strings mix with numbers. The model does not compute these statistics, so it returns the targets where Python fails.
- pandas `sort_values` is not stable by default. The model sorts stably, with NaN last, so the order among equal keys may differ.
- `nlargest` order among equal counts is the model's own.
- `int()` of a string accepts an optional `+` or `-` sign and ASCII digits. Surrounding whitespace, underscores between digits and non-ASCII digits are rejected here, although Python accepts them.
- TargetsApi.GetTargetCompounds: the route sorts Python dicts by `x.get('score', 0)`. The model sorts on the entry's score cell with the same comparison the table sort uses; every entry has a score, so the default 0 never applies.
- config.py only supplies constants: `MAX_PAGE_SIZE = 100` and the three prediction directories, which are parameters here.
