# Omniperf counter planning, pass joining and kernel-name shortening in Dafny

Omniperf profiles a GPU workload by running it several times, each run ("pass") sampling
a batch of hardware performance counters. A hardware block can sample only a few counters
at once. This project models the parts of omniperf that plan the passes and merge their
results, and proves what they guarantee.

- **Capacity table** (`perfmon_config`). For each SoC it gives how many counters each hardware
  block samples per pass, and how many TCC (L2) channels there are. Module `Capacity`.
- **Bucket table and classifier** (`pmc_list`, `update_pmc_bucket`). A counter goes to the
  bucket of its block: the upper-cased text before its first `_`, with SQC counted as SQ. A TCC
  counter with an `[n]` suffix goes to channel `n`. Buckets keep first-seen order and never
  hold a counter twice. The table is a class, `Buckets.PmcList`, updated in place. Its
  methods are tied to the value-level functions `Add`, `AddAll` and `SortChannels`.
- **Coalescing** (`perfmon_coalesce`). Every `pmc:` line of every input file is fed to the
  classifier, after cutting comments and stripping blanks. Level lines produce a level file.
  The channel lists are sorted at the end. Module `Coalesce`.
- **Pass planner** (`perfmon_emit`, the branch that returns the batches). The number of
  passes is the ceiling formula. Each pass takes window `p` of every ordinary bucket. Its TCC
  part is either the aggregate window or, once the aggregate bucket is used up, the next
  window of every channel. Module `Planner` holds the loops and their specification. Module
  `PlannerProofs` proves:
  - the capacity bounds;
  - that aggregate and per-channel TCC counters never share a pass;
  - that every counter is sampled in exactly one pass;
  - the block order inside a pass;
  - that no pass is empty;
  - that the pass count is zero exactly for an empty table;
  - that no schedule meeting the same capacity and separation rules needs fewer passes.
- **File selection** (the allowlist part of `perfmon_filter`). The allowlist is lower-cased
  in place. A file is kept when the block name in its file name is on the list. Module
  `Selector`.
- **Pass joining** (`join_prof`). Module `Joiner`:
  - each pass gets a key, the kernel name plus an occurrence ordinal (and the grid size in
    `grid` mode);
  - the passes are inner-joined on that key, left to right.

  Module `PostJoin`:
  - the duplicated dispatch columns are compared and the result logged;
  - merged copies and unwanted columns are dropped;
  - the Kernel_Name copies are checked and all but the first dropped;
  - the timestamp columns are replaced by BeginNs/EndNs;
  - the key is dropped.
- **Kernel-name shortener** (`shorten_file` in `kernel_name_shortener`). A demangled name
  arrives as (name, punctuation, `::`) tokens. The walk over them tracks template depth and
  keeps only what lies above a depth cutoff. Results are memoised in a cache, modelled as
  class `Shortener.NameCache`. The demangler and the tokenizer are function parameters of
  that class.

The planner lemmas are stated for any classification `dest` that puts every counter in its own
list (`PlannerProofs.Placed`). `PlannerProofs.WellPlacedIsPlaced` shows that the real
classifier does so for every well-formed table, and `Coalesce.CoalescedSorted` shows that
coalescing yields a well-formed table.

## Model

| member | source | states |
|---|---|---|
| Capacity.SocNamed | src/utils/perfagg.py:35-101 | the capacity table has a row for exactly vega10, mi50, mi100, mi200 and mi300; any other SoC name is a failed lookup |
| Capacity.Cap | src/utils/perfagg.py:35-101 | every block of every SoC samples at least one counter per pass, so the ceiling divisions of the planner are defined |
| Capacity.BlockNamed | src/utils/perfagg.py:303-319 | a bucket key names exactly one block, and every block is found under its own key |
| Capacity.Rank | src/utils/perfagg.py:475-486 | the ordinary blocks are visited in the bucket table's insertion order (each at its own index), and TCC comes after all of them |
| Buckets.ChannelOf | src/utils/perfagg.py:353-361 | the channel of a TCC counter is the digit group of a `[digits]` suffix, the last such group because the leading `[\s\S]+` is greedy; there is no channel exactly when no such group follows the first character |
| Buckets.ClassifyCounter | src/utils/perfagg.py:340-370 | a counter goes to the bucket named by the upper-cased text before its first `_` (SQC counts as SQ); a TCC counter goes to channel k exactly when its suffix is `[k]` and to the aggregate TCC bucket when it has none; every other prefix raises |
| Buckets.LevelCounter | src/utils/perfagg.py:325-326 | the level counter is the token just before the first sentinel, or the last token when the sentinel comes first (Python's index -1) |
| Buckets.Empty | src/utils/perfagg.py:303-321 | the starting table has every list empty, and holds all ten buckets and channels "0" .. str(TCC_channels-1) |
| Buckets.AddEffect | src/utils/perfagg.py:340-370 | classifying one counter fails exactly when its prefix selects no bucket; otherwise only its destination list changes, it grows by that counter only when the counter was absent, a counter already present changes nothing, and a channel key is created only for the counter's own channel |
| Buckets.AddWellFormed | src/utils/perfagg.py:346-370 | one classification keeps every list free of duplicates, every counter in the list its name selects, and every bucket and planned channel present |
| Buckets.AddAllStops | src/utils/perfagg.py:340-370 | once a token has raised, the rest of the token list is never looked at |
| Buckets.AddAllWellFormed | src/utils/perfagg.py:340-370 | classifying a whole token list keeps the table well formed, even when a token raises |
| Buckets.AddAllKeeps | src/utils/perfagg.py:340-370 | nothing already in any list is lost by classification |
| Buckets.AddAllCovers | src/utils/perfagg.py:340-370 | when no token raises, every token ends up in the list its name selects |
| Buckets.AddAllOnly | src/utils/perfagg.py:340-370 | afterwards each list holds only what it held before and tokens of the line |
| Buckets.SortChannels | src/utils/perfagg.py:372-375 | the closing sort leaves the ordinary buckets alone and, on a table that has channels 0 .. n-1, creates no channel key |
| Buckets.SortChannelsFrame | src/utils/perfagg.py:372-375 | every list other than channels 0 .. n-1 is untouched by the sort |
| Buckets.SortChannelsEffect | src/utils/perfagg.py:372-375 | after the sort each of channels 0 .. n-1 holds the sorted version of its old list |
| Buckets.SortChannelsMembers | src/utils/perfagg.py:372-375 | the sort moves counters only within their own list |
| Buckets.SortChannelsWellFormed | src/utils/perfagg.py:372-375 | the sort keeps the table well formed |
| Strings.SortSpec | src/utils/perfagg.py:375 | `list.sort()` on strings gives an ordered permutation of its input |
| Buckets.PmcList.constructor | src/utils/perfagg.py:303-321 | a fresh bucket table is the empty table of its SoC |
| Buckets.PmcList.UpdateBucket | src/utils/perfagg.py:292-371 | with save_file and a missing stext or directory, ValueError and no change; with the level sentinel among the tokens, the table is unchanged and (when saving) the level file named after the level counter holds the line; otherwise the table becomes the classification fold of the tokens, with the first error reported |
| Buckets.PmcList.Classify | src/utils/perfagg.py:340-370 | one loop iteration changes the table exactly as `Add` says, and nothing on an error |
| Buckets.PmcList.ClassifyAll | src/utils/perfagg.py:340-370 | the classification loop leaves the table and the first error that `AddAll` specifies |
| Buckets.PmcList.SortChannelLists | src/utils/perfagg.py:372-375 | the closing loop leaves the table `SortChannels` specifies for channels 0 .. TCC_channels-1 |
| Buckets.UpdateBucketExternal | src/utils/perfagg.py:292-376 | the external call fails on missing context or on the first token that raises; otherwise it returns a fresh well-formed table, classified from empty with its channels sorted |
| Coalesce.ParseLineRules | src/utils/perfagg.py:406-418 | a line is bucketed exactly when its text before any `#`, stripped, is non-empty and starts with `pmc:`; its tokens are then the whitespace-separated words after `pmc:` |
| Coalesce.CountersOfLine | src/utils/perfagg.py:413-418 | the tokens of a `pmc:` line are exactly its non-blank characters after the prefix, in order, and none holds a `#` |
| Coalesce.SkippedLines | src/utils/perfagg.py:407-415 | blank lines, comment-only lines and lines not starting with `pmc:` are skipped |
| Coalesce.ScanStops | src/utils/perfagg.py:403-424 | once a line raises, no later line of any file is looked at |
| Coalesce.ScanWellFormed | src/utils/perfagg.py:403-424 | coalescing keeps the bucket table well formed |
| Coalesce.ScanKeeps | src/utils/perfagg.py:403-424 | no counter already in the table is ever lost, even when a line raises |
| Coalesce.ScanCovers | src/utils/perfagg.py:403-424 | when no line raises, every token of every ordinary `pmc:` line is in the list its name selects |
| Coalesce.ScanOnly | src/utils/perfagg.py:403-424 | every counter in the table afterwards was there before or is a token of an ordinary `pmc:` line |
| Coalesce.CoalescedSorted | src/utils/perfagg.py:434-438 | the coalesced table is well formed and channels 0 .. TCC_channels-1 are sorted |
| Coalesce.CoalescedContents | src/utils/perfagg.py:379-438 | when no line raises, the coalesced table holds exactly the tokens of the ordinary `pmc:` lines, each in its own list |
| Coalesce.CoalescedWords | src/utils/perfagg.py:418 | every counter of the coalesced table is a non-empty token without whitespace |
| Coalesce.CoalesceLine | src/utils/perfagg.py:406-424 | one line updates the table and the written files as the line step of the scan says |
| Coalesce.CoalesceLines | src/utils/perfagg.py:404-424 | the lines of one file continue the scan of the files before it |
| Coalesce.CoalesceFiles | src/utils/perfagg.py:399-424 | the file loop over a fresh table computes the scan of all lines of all files in order |
| Coalesce.Coalesce | src/utils/perfagg.py:379-438 | perfmon_coalesce returns the first error raised (with the files written up to it), or the coalesced table with its channels sorted, the level files, and the timestamps file last |
| Planner.CeilDivBound | src/utils/perfagg.py:460 | pass p comes before ceil(a / n) exactly when p full windows of n leave some of a counters over |
| Planner.WindowRules | src/utils/perfagg.py:478 | the slice of pass p holds at most n counters, is empty exactly from pass ceil(len / n) on, and holds the list's counters p*n onwards, in order |
| Planner.BlockLineTokens | src/utils/perfagg.py:472-480 | splitting the blocks' part of a `pmc:` line gives the prefix token and then the tokens of the joined windows |
| Planner.PassLineTokens | src/utils/perfagg.py:472-502 | the batch of a pass is its `pmc:` line split on whitespace with the prefix removed |
| Planner.Emit | src/utils/perfagg.py:441-510 | perfmon_emit without a workload directory returns one batch per pass, NumPasses of them, each the batch its pass specifies; the bucket table is not modified |
| Planner.EmitPass | src/utils/perfagg.py:470-502 | one iteration builds the batch of its pass and advances the channel pass index exactly when the aggregate TCC window was empty |
| Planner.EmitBlocks | src/utils/perfagg.py:472-480 | the line gets the window of every ordinary block, in the table's block order |
| Planner.EmitChannels | src/utils/perfagg.py:486-491 | the per-channel TCC counters of a channel pass are window j of every channel 0 .. TCC_channels-1, in channel order |
| PlannerProofs.WellPlacedIsPlaced | src/utils/perfagg.py:340-370 | in a well-formed table every counter sits in the list the classifier picks for it |
| PlannerProofs.PassSelect | src/utils/perfagg.py:470-496 | restricted to one destination, a pass holds exactly that destination's window for the pass |
| PlannerProofs.PassCapacity | src/utils/perfagg.py:476-491 | a pass holds at most cap counters of each ordinary block, at most cap_TCC aggregate TCC counters and at most cap_TCC counters of each channel |
| PlannerProofs.AggregateApart | src/utils/perfagg.py:483-493 | a pass that samples an aggregate TCC counter samples no per-channel counter |
| PlannerProofs.ChannelIndexAdvances | src/utils/perfagg.py:484-493 | the aggregate window is empty exactly from pass ceil(len(TCC)/cap_TCC) on, and the channel pass index advances by one exactly in those passes |
| PlannerProofs.PassOnly | src/utils/perfagg.py:474-496 | every counter of a pass comes from a bucket or a visited channel, from the list it belongs to |
| PlannerProofs.UnvisitedChannelDropped | src/utils/perfagg.py:488-491 | counters of channels the planner does not visit (keys such as "05", or numbers at or past TCC_channels) appear in no pass |
| PlannerProofs.ExactlyOnce | src/utils/perfagg.py:460-496 | every counter of every visited list is sampled in exactly one pass, PassOf, which is below the pass count |
| PlannerProofs.BucketOnce | src/utils/perfagg.py:474-480 | the counter at index i of a bucket is in the bucket's share of pass p exactly when p is its pass |
| PlannerProofs.ChannelOnce | src/utils/perfagg.py:486-493 | the counter at index i of a visited channel is in the channel's share of pass p exactly when p is its pass, which is below the pass count |
| PlannerProofs.PassOrderedDistinct | src/utils/perfagg.py:474-496 | inside a pass the counters come in block order SQ, GRBM, TCP, TA, TD, SPI, CPC, CPF, GDS, then TCC and its channels, and no counter appears twice |
| PlannerProofs.NoPassesIffEmpty | src/utils/perfagg.py:444-470 | the pass count is zero, and the batch list empty, exactly when every bucket and every visited channel is empty |
| PlannerProofs.PassNonEmpty | src/utils/perfagg.py:460-496 | each of the NumPasses passes samples at least one counter |
| PlannerProofs.PlanIsPasses | src/utils/perfagg.py:496-502 | for a coalesced table the batches are exactly the counters of the passes, one batch per pass |
| PlannerProofs.NoFewerPasses | src/utils/perfagg.py:441-460 | the pass count is a minimum: every schedule that holds each counter the planner reads, fits each pass into the per-block capacities and keeps aggregate and per-channel TCC counters in different passes has at least NumPasses passes |
| PlannerProofs.PlanFeasible | src/utils/perfagg.py:441-510 | the returned batches are such a schedule, with exactly NumPasses passes |
| PlannerProofs.PlanExactlyOnce | src/utils/perfagg.py:441-510 | in the returned batches every counter of every visited list appears in exactly one batch |
| Selector.Basename | src/utils/perfagg.py:537 | the base name is the text after the last `/` |
| Selector.StemRules | src/utils/perfagg.py:537 | the stem is the whole name, or the name cut just before its last dot when something other than dots precedes that dot |
| Selector.BlockOfStem | src/utils/perfagg.py:533-538 | the block name is the longest word-character group after `pmc_` that is followed by `_per`; none exactly when the pattern cannot match |
| Selector.LowerInPlace | src/utils/perfagg.py:531-532 | the allowlist array afterwards holds the lower-cased entries |
| Selector.KeepAllowed | src/utils/perfagg.py:535-543 | the file loop computes the allowlist selection `Kept` |
| Selector.FilterFiles | src/utils/perfagg.py:529-547 | without an allowlist every file is kept; with one it is lower-cased in place and the selection is taken against it |
| Selector.KeptFailureStays | src/utils/perfagg.py:536-538 | a file whose name does not match the pattern ends the run with that error |
| Selector.KeptFails | src/utils/perfagg.py:536-538 | the selection fails exactly when some file has no block name, and then on the first such file |
| Selector.KeptOrder | src/utils/perfagg.py:536-540 | the kept files are the allowed files, in the order they were given |
| Selector.KeptMembers | src/utils/perfagg.py:536-543 | without a pattern failure a file is kept exactly when its block name is in the allowlist |
| Joiner.CumCountDistinct | src/utils/perfagg.py:125 | two rows of the same group never get the same ordinal |
| Joiner.TaggedInjective | src/utils/perfagg.py:126-131 | a key splits back uniquely into its text and its ordinal |
| Joiner.KernelKeysUnique | src/utils/perfagg.py:124-126 | in kernel mode no two rows of a pass share a key |
| Joiner.GridKeysUnique | src/utils/perfagg.py:127-131 | in grid mode the keys of a pass are unique when its GRD cells are integers |
| Joiner.Column | src/utils/perfagg.py:125-130 | looking up a column fails exactly when the pass has no such column |
| Joiner.PassKeysUnique | src/utils/perfagg.py:124-134 | the keys a pass gets are unique in kernel mode, and in grid mode for integer GRD cells |
| Joiner.AddKey | src/utils/perfagg.py:124-134 | keying a pass succeeds exactly when its key column can be built, and sets the key column to it |
| Joiner.MergeRowsCount | src/utils/perfagg.py:140 | a key occurs in the inner join as often as on the left times as often as on the right |
| Joiner.MergeCount | src/utils/perfagg.py:140 | the key column of a merge counts each key left count times right count |
| Joiner.JoinAll | src/utils/perfagg.py:121-140 | a successful run of the merge loop leaves a rectangular table with a key column |
| Joiner.JoinAllCount | src/utils/perfagg.py:121-140 | a key occurs in the joined table once for every choice of one row with that key from each pass |
| Joiner.JoinKeys | src/utils/perfagg.py:121-140 | a key survives the joins exactly when it is present in every pass, so a key missing from any pass drops the row |
| Joiner.JoinKeysUnique | src/utils/perfagg.py:121-140 | with unique keys in every pass, the joined table has unique keys |
| Joiner.JoinAllFailureStays | src/utils/perfagg.py:122-134 | once a pass cannot be keyed (unknown join type, missing or non-text column), the whole run fails with that error |
| Joiner.JoinPasses | src/utils/perfagg.py:121-140 | the merge loop computes `JoinAll` |
| PostJoin.RowsAgreeIff | src/utils/perfagg.py:104-105 | the recursive row check holds exactly when every listed column equals the first in every row |
| PostJoin.ColumnEqualityIff | src/utils/perfagg.py:104-105 | `test_df_column_equality` fails (IndexError) exactly on no column, and otherwise holds exactly when every column equals the first column in every row |
| PostJoin.GroupTags | src/utils/perfagg.py:143-157 | with a `vgpr` column there are seven groups and `vgpr` is one of them; without it there are eight, Arch_VGPR and ACCUM_VGPR among them and `vgpr` not |
| PostJoin.AgreesIff | src/utils/perfagg.py:158-160 | a group agrees exactly when every column whose name contains its tag equals the first such column in every row |
| PostJoin.GroupLineMeaning | src/utils/perfagg.py:158-172 | the check of one group fails only when no column carries its tag; otherwise it logs the success line exactly when the group agrees, and the warning line otherwise |
| PostJoin.CheckAllByLine | src/utils/perfagg.py:158-172 | the group checks succeed exactly when every single check does, and then give one line per group, in order |
| PostJoin.CheckAllFailureStays | src/utils/perfagg.py:158-172 | a failing group check ends the run with its error |
| PostJoin.GroupLogSucceeds | src/utils/perfagg.py:158-172 | the group checks fail only on a tag that no column carries |
| PostJoin.GroupLogLines | src/utils/perfagg.py:158-172 | a mismatch only warns: one log line per group, the success line exactly when the group agrees |
| PostJoin.LogGroups | src/utils/perfagg.py:158-172 | the group loop collects the log lines `GroupLog` specifies |
| PostJoin.CheckGroups | src/utils/perfagg.py:143-172 | the checks run over the groups that `GroupTags` picks for the table |
| PostJoin.DropMarked | src/utils/perfagg.py:178-225 | the two drops keep the table rectangular with all its rows |
| PostJoin.DropMarkedRules | src/utils/perfagg.py:178-225 | a column survives exactly when none of the merged-copy, unmergeable or timestamp markers occurs in its name |
| PostJoin.VgprCopiesDropped | src/utils/perfagg.py:192-193 | every merged copy `Arch_VGPR_…` is dropped, and so is every column starting with `ACCUM_VGPR`, the original included, because that marker has no trailing `_` |
| PostJoin.CheckNames | src/utils/perfagg.py:226-231 | a successful name check keeps every row |
| PostJoin.CheckNamesFails | src/utils/perfagg.py:226-231 | the name check fails exactly when there is no Kernel_Name column or a later copy differs from the first in some row |
| PostJoin.LaterAreOthers | src/utils/perfagg.py:227-231 | the dropped names are Kernel_Name columns other than the first copy |
| PostJoin.OthersAreLater | src/utils/perfagg.py:227-231 | every Kernel_Name column other than the first copy is dropped |
| PostJoin.CheckNamesKeepsFirst | src/utils/perfagg.py:226-231 | after the check the first Kernel_Name copy is the only column whose name contains Kernel_Name |
| PostJoin.Timestamps | src/utils/perfagg.py:233-247 | the timestamp replacement keeps the table rectangular with all its rows |
| PostJoin.TimestampsMeans | src/utils/perfagg.py:233-247 | afterwards BeginNs and EndNs are columns, and in each row they hold the mean of that row's start-timestamp and end-timestamp cells |
| PostJoin.TimestampsGone | src/utils/perfagg.py:233-247 | no column but BeginNs and EndNs names a start or an end timestamp afterwards |
| PostJoin.FinishDropsKey | src/utils/perfagg.py:248-249 | the table join_prof returns has no key column |
| PostJoin.JoinProf | src/utils/perfagg.py:121-257 | join_prof on in-memory passes returns the join error, or the first post-join error, or the log lines and the cleaned table |
| Shortener.ClosingRules | src/utils/csv_processor.py:109-118 | scanning punctuation that holds a `>` lowers the depth by exactly its count of `>`, whatever the cutoff; below the cutoff it appends the whole rest at once |
| Shortener.StepSkips | src/utils/csv_processor.py:90-96 | a `clone` token or a token followed by `::` leaves the name and the depth as they were |
| Shortener.StepRules | src/utils/csv_processor.py:98-118 | a name is appended only below the cutoff; punctuation without `>` raises the depth by its count of `<` and is appended only below the cutoff and not when one below it and opening; punctuation with `>` lowers the depth by its count of `>`, appended in full below the cutoff and otherwise only its tail |
| Shortener.WalkDepth | src/utils/csv_processor.py:89-118 | the depth the walk ends at is the net count of `<` minus `>` of the unskipped tokens, for every cutoff |
| Shortener.WalkGrows | src/utils/csv_processor.py:89-118 | the walk only appends: what it has built after k tokens starts the final name |
| Shortener.ShortenTokens | src/utils/csv_processor.py:89-118 | the nested token and character loops compute the walk's name |
| Shortener.ShortName | src/utils/csv_processor.py:80-122 | the cached name is the walk's output or the demangled name itself, and it is empty only when the demangled name is |
| Shortener.ColumnChoice | src/utils/csv_processor.py:49-55 | the Name column when there is one, otherwise KernelName, and none when neither is present |
| Shortener.ShortenedByExtends | src/utils/csv_processor.py:57-60 | a cached name is never recomputed or overwritten, so a rewritten file stays a rewrite by the grown cache |
| Shortener.NameCache.constructor | src/utils/csv_processor.py:38 | the cache starts empty |
| Shortener.NameCache.ShortenColumn | src/utils/csv_processor.py:57-124 | names already cached keep their value, every new name gets its shortened value, and each entry of the column becomes its cache value |
| Shortener.NameCache.ShortenFile | src/utils/csv_processor.py:46-126 | the chosen column is rewritten through the cache and the cache only grows; the new keys are exactly the entries of the chosen column not cached before, so a table with neither column leaves the cache alone |
| Shortener.NameCache.KernelNameShortener | src/utils/csv_processor.py:128-157 | at level 5 or above nothing is rewritten and the cache is unchanged; below it each non-empty file is rewritten through the final cache, an empty file is skipped, and the cache gains exactly the names of the chosen columns of the non-empty files |

## Left out

- File output is not modelled. Plan files and level files are values of type `PlanFile` (a path and its `pmc:` line). The fixed `gpu:` / `range:` / `kernel:` trailer and the `pmc_perf.txt` branch of `perfmon_emit` are implied rather than written. Also left out: `glob`, directory creation and removal, `os.remove`, `to_csv`, and the split of `pmc_perf.txt`.
- File input is not modelled either. Input files arrive as sequences of lines, CSV files as tables, and an empty CSV (pandas `EmptyDataError`) as `None`.
- The regular expression `findall` tokenizer and the `llvm-cxxfilt` subprocess are constructor parameters of `Shortener.NameCache`. They are not modelled.
- The `resolve_rocprof` lookup of the demangler, and the exit when it is missing, are not modelled.
- Timestamp means are floating point. BeginNs and EndNs are kept as symbolic row means (`Tables.Cell.Mean`).
- `math.ceil` of a float division is integer ceiling division.
- pandas merge suffixes are modelled by the rule `suffixes=("", "_i")`. A suffixed name that collides with an existing column is not modelled.
- Column names are assumed distinct where a lemma needs it (`PostJoin.CheckNamesKeepsFirst`).
- Printed and verbose output is not modelled: `warnings.warn` and the "Added" / "Skipped" / "complete" messages. The group checks return their log lines instead.
- MongoDB import (`parse`, `convert_folder`), system inspection, and the command-line driver are not modelled.
- PlannerProofs: the planner lemmas are stated for any classification that puts every counter in its own list. `PlannerProofs.WellPlacedIsPlaced` connects them to the real classifier.
- Joiner.GridKeysUnique: grid keys are proved unique only when the GRD cells are integers. Two GRD texts of different type can print alike.
- Strings.Upper: case mapping covers ASCII letters only. The class `[A-Za-z0-9_]` of the kernel-name tokenizer is ASCII in the source as well.
- Buckets.ChannelOf: the channel suffix accepts only the ASCII digits 0-9. Python's `\d` (src/utils/perfagg.py:353) also matches every other Unicode decimal digit, so a counter such as `TCC_HIT[٣]` is a channel counter in the source and an aggregate one here.
- Joiner.AddKey: on a list of in-memory frames, join_prof adds the `key` column to the caller's own DataFrames in place (src/utils/perfagg.py:123-131). The model returns a keyed copy and leaves the caller's passes as they were.
- Tables.Value has no floating-point cells and so no NaN. pandas compares NaN unequal to itself, so a NaN in a duplicate group makes `test_df_column_equality` (src/utils/perfagg.py:104-105) false, and a NaN in a Kernel_Name copy fails the name assert (src/utils/perfagg.py:230). `PostJoin.ColumnEquality` and `PostJoin.CheckNames` never see such a cell.
- Strings.Lower: case mapping covers ASCII letters only.
- Channel keys stay the digit text of the `[n]` suffix. A channel written "05" is bucketed under "05" and never planned (`PlannerProofs.UnvisitedChannelDropped`).
- The shortener's depth is an unbounded integer and may go negative on unbalanced `>`, as in the source.
