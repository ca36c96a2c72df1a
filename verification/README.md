# Processing pipeline of canonical-imaging, modelled in Dafny

The processing schema of canonical-imaging is a set of DataJoint tables. Each computed
table has a `make` step that reads the output of suite2p for one `ProcessingTask` and
inserts rows:

- `Processing` records when the suite2p run finished and which files it wrote.
- `MotionCorrection` stores the alignment channel and, for each imaging plane, a
  rigid shift row. For each plane whose `ops['nonrigid']` is set it also stores a
  non-rigid row and one row per registration block.
- `MotionCorrectedImages` stores the summary images of each plane.
- `Segmentation` stores the segmentation channel and one `Mask` row and one `Cell` row
  for every ROI of every plane. The ROIs are numbered across the planes.
- `Fluorescence` stores one `Trace` per ROI and channel.

MotionCorrection, MotionCorrectedImages and Segmentation resolve each plane to its
`ScanInfo.Field` with a `fetch1`. MotionCorrection and Segmentation also read plane `0`
of the loader. Processing and Fluorescence do neither. Every make step raises
`NotImplementedError` for any processing method other than suite2p.

A `mask` is a `smallint`, so ids above 32767 do not fit. Segmentation numbers its masks
from 0 across all planes, so its insert fails with more than 32768 masks. Fluorescence
fails when a trace id passes 32767; a plane's second-channel traces reuse the ids of its
first-channel traces, so without a second channel this means more than 32768 traces, and
with one it can take more. The model reports this as the `MaskOutOfRange` error.

The ScanImage header parser of the image loaders is modelled too. It splits the header
text into lines and each line into a key and a value at `' = '`. Each `.` in a key becomes
`_`, so two keys that differ only there collapse into one entry (`Header.DottedKeysCollide`).
The acquisition-time helper reads the `epoch` entry and normalises it for `strptime`.

The model is organised as follows:

- `records.dfy` holds what the steps read and write.
- `fetch.dfy` holds the two lookups into the loader's planes and ScanInfo.Field.
- One file per make step: `processing.dfy`, `motion.dfy`, `images.dfy`,
  `segmentation.dfy`, `fluorescence.dfy`.
- `store.dfy` holds the tables as a `Store` class whose make methods insert into them.
- `text.dfy` and `header.dfy` hold the header parser.

Each make step has two definitions:

- A function (`MotionCorrectionMake`, …) states what the step writes or why it fails.
- A method (`ComputeMotionCorrection`, …) runs the source's loops. Its `ensures` ties
  its result to that function.

The `Store` methods insert what a step computes and keep the table invariant `Valid()`:

- primary keys are unique;
- every `Processing` row is of a task in its key source, `ProcessingTask & ScanInfo`;
- every row has its master row;
- every `Block` has its non-rigid row;
- every `Cell` has its `Mask`;
- every `Trace` has its `Cell`.

A step that fails changes nothing, as the transaction around `make` ensures.

Trace ids are modelled exactly as written (`fluorescence.dfy`). Each plane numbers its
traces from `len(fluo_traces)`, and that count includes the channel-1 traces of the
earlier planes. So when a plane has `F_chan2`, the trace ids of the next planes drift
past the mask ids. Their insert then fails the foreign key to `Segmentation.Cell`
(`Fluorescence.SecondChannelShiftsIds`). Without a second channel, the trace ids are
the mask ids (`Fluorescence.TraceIdsAreMaskIds`).

## Model

| member | source | states |
|---|---|---|
| Text.FindFrom | img_loaders/__init__.py:10 | the result is the leftmost occurrence of the separator at or after the start, or none exists |
| Text.FindLeftmost | img_loaders/__init__.py:10 | an occurrence with none before it is the one `find` reports |
| Text.JoinSplit | img_loaders/__init__.py:9-10 | joining the pieces of `split(sep)` with `sep` gives back the string |
| Text.SplitJoin | img_loaders/__init__.py:9 | splitting pieces joined on a character they do not contain gives back the pieces |
| Text.SplitEndsEmpty | img_loaders/__init__.py:9 | a text ending with the separator splits into a last piece that is empty |
| Text.JoinSnoc | djimaging/processing.py:141 | joining one more path component appends the separator and that component |
| Text.Replace | img_loaders/__init__.py:11 | `replace` of one character keeps the length, swaps exactly that character and leaves none of it |
| Text.Inner | img_loaders/__init__.py:17 | `s[1:-1]` drops the first and the last character, and is empty below two characters |
| Header.NormalizeKey | img_loaders/__init__.py:11 | the dictionary key is the line's key with every `.` turned into `_`, so it holds no dot |
| Header.SplitEntry | img_loaders/__init__.py:10 | a line unpacks into a key and a value exactly when `split(' = ')` gives two pieces, and then the line is `key + ' = ' + value` |
| Header.SplitEntryAtSeparator | img_loaders/__init__.py:10 | the key of an unpacked line ends at the first `' = '`, and the value holds no further one |
| Header.HeaderErrSticks | img_loaders/__init__.py:9-11 | once a line fails to unpack, the whole parse fails with that line's error |
| Header.ParseScanImageHeader | img_loaders/__init__.py:7-12 | the loop over the lines returns the dictionary `HeaderOf` defines, or the error of the first bad line |
| Header.HeaderOkLinesSplit | img_loaders/__init__.py:9-10 | a parse that succeeds met only lines that unpack |
| Header.LinesSplitHeaderOk | img_loaders/__init__.py:9-10 | lines that all unpack parse |
| Header.HeaderOkIff | img_loaders/__init__.py:9-10 | parsing succeeds exactly when every line splits into exactly two pieces |
| Header.HeaderErrorIsFirstBadLine | img_loaders/__init__.py:9-10 | a failure names the first line that does not split in two, and how many pieces it split into |
| Header.LineKeysSnoc | img_loaders/__init__.py:11 | the keys of the lines are those of all but the last line plus the last line's key |
| Header.HeaderKeys | img_loaders/__init__.py:8-11 | the keys of a parsed header are the normalised keys of its lines, none has a dot, and there are no more entries than lines |
| Header.HeaderSnoc | img_loaders/__init__.py:11 | one more line adds or overwrites that line's entry |
| Header.HeaderLastWins | img_loaders/__init__.py:11 | a key maps to the value of the last line that carries it |
| Header.TrailingNewlineFails | img_loaders/__init__.py:9-10 | a header ending with a newline has an empty last line, so parsing it fails |
| Header.EmptyHeaderFails | img_loaders/__init__.py:9-10 | an empty header is one empty line and fails on it with one piece |
| Header.SplitEntryOf | img_loaders/__init__.py:10 | a `key = value` line whose key has no `=` and whose value has no `' = '` unpacks into that key and value |
| Header.RenderedLinesParse | img_loaders/__init__.py:9-11 | a header written one `key = value` line per entry splits back into those lines; each gives back its value and its key with every `.` turned into `_` |
| Header.RenderedLinesSplit | img_loaders/__init__.py:10 | every rendered line unpacks, dotted keys included |
| Header.RenderedKeySeq | img_loaders/__init__.py:9-11 | line by line, a rendered header contributes the normalised keys of its entries, in order |
| Header.RenderedLineKeys | img_loaders/__init__.py:11 | the keys of the rendered lines are the normalised keys of the entries |
| Header.RenderedLastWins | img_loaders/__init__.py:11 | a rendered header parses, and an entry whose normalised key no later entry shares gives the parsed value of that normalised key |
| Header.ParseRenderedHeader | img_loaders/__init__.py:7-12 | round trip: parsing a rendered header succeeds, its key set is the entries' normalised keys, and each maps to the value of the last entry normalising to it |
| Header.DottedKeysCollide | img_loaders/__init__.py:11 | two entries whose keys normalise alike, such as `SI.a` and `SI_a`, leave one entry holding the later value |
| Header.EpochText | img_loaders/__init__.py:17 | a missing `epoch` is a KeyError; otherwise the text is the epoch value without its first and last characters, with every comma turned into a space |
| Header.GetScanImageAcqTime | img_loaders/__init__.py:15-17 | the header's parse error, or the normalised epoch text of the parsed header |
| Records.Min | djimaging/processing.py:331 | the number of tuples `zip` yields is the length of its shortest input |
| Fetch.PlaneWithId | djimaging/processing.py:213 | `planes[0]` is a plane of the loader with key 0, or none exists (KeyError) |
| Fetch.MatchingFields | djimaging/processing.py:218 | the ScanInfo.Field rows restricted to the task's scan and the plane, exactly |
| Fetch.MatchingFieldsMultiplicity | djimaging/processing.py:218 | the restriction keeps each matching row as often as it occurs, and no other row, so the count `fetch1` checks is the number of matching rows |
| Fetch.FetchField | djimaging/processing.py:218 | `fetch1` succeeds exactly when one field row matches, returns that row's field, and otherwise fails naming the number of matches |
| Fetch.FetchFieldInjective | djimaging/processing.py:218 | with unique (scan, field) keys, two planes resolving to one field are the same plane |
| Fetch.ResolveFields | djimaging/processing.py:217-218 | one field per plane, each the `fetch1` result of that plane |
| Fetch.ResolveFieldsStep | djimaging/processing.py:217-218 | one more plane appends its field or ends the loop with its error |
| Fetch.ResolveFieldsErrSticks | djimaging/processing.py:217-218 | once a plane's lookup fails, the whole loop fails with that error |
| Fetch.ResolveFieldsOkIff | djimaging/processing.py:217-218 | the loop resolves exactly when every plane's lookup succeeds |
| Fetch.ResolveFieldsFirstError | djimaging/processing.py:217-218 | a failed loop reports the error of the first plane whose lookup fails |
| Fetch.ResolvedFieldsDistinct | djimaging/processing.py:217-218 | distinct planes of one scan resolve to distinct fields |
| ProcessingStep.KeySource | djimaging/processing.py:121-123 | `ProcessingTask & ScanInfo`: exactly the tasks whose scan has a ScanInfo row; `SchemaOk` keeps every Processing row inside it |
| ProcessingStep.RelativeTo | djimaging/processing.py:141 | `relative_to(root)` succeeds exactly for paths under the root, and root plus the result is the path |
| ProcessingStep.OutputFilesErrSticks | djimaging/processing.py:141 | the first file outside the root ends the comprehension with its ValueError |
| ProcessingStep.OutputFilesOkIff | djimaging/processing.py:141 | the file list is built exactly when every regular file lies under the root |
| ProcessingStep.OutputFilesCount | djimaging/processing.py:140-141 | one stored path per regular file of the directory |
| ProcessingStep.OutputFilesFromListing | djimaging/processing.py:141 | every stored path is the root-relative path of a regular file |
| ProcessingStep.ListingInOutputFiles | djimaging/processing.py:141 | every regular file has its root-relative path stored |
| ProcessingStep.OutputFilesContents | djimaging/processing.py:140-141 | one output file per regular file, and a path is stored exactly when it is a regular file's path relative to the root |
| ProcessingStep.FilePathInjective | djimaging/processing.py:141 | two files of one directory with the same stored path have the same name |
| ProcessingStep.OutputFilesDistinct | djimaging/processing.py:141-144 | distinct names give distinct output files, so no ProcessingOutputFile row is inserted twice |
| ProcessingStep.ProcessingMakeOutcome | djimaging/processing.py:130-151 | NotImplementedError for any method but suite2p; nothing exactly when the suite2p directory is missing; a row exactly when the directory exists and every regular file is under the root, and then it holds the loader's times and the directory's files; otherwise the `relative_to` ValueError |
| Motion.MotionRowsStep | djimaging/processing.py:217-244 | one more plane appends its rows to each of the three part tables |
| Motion.AppendPlaneMotion | djimaging/processing.py:221-244 | one loop pass: the rigid row, then the non-rigid row and the blocks only when `nonrigid` is set |
| Motion.ComputeMotionCorrection | djimaging/processing.py:204-246 | the make up to its inserts computes `MotionCorrectionMake`: the method check, plane 0's alignment channel, and the rows of all planes or the first lookup error |
| Motion.BlockRowsNumbering | djimaging/processing.py:236-242 | a plane's blocks are numbered 0..k-1, k being the shortest of `xblock`, `yblock`, `yoff1.T` and `xoff1.T`, with unique keys; block b takes `block_y` from `xblock[b]`, `block_x` from `yblock[b]`, and its shifts from `yoff1.T[b]` and `xoff1.T[b]` |
| Motion.RigidRowPerPlane | djimaging/processing.py:217-227 | exactly one rigid row per plane, in order, with that plane's field, `yoff`, `xoff` and `badframes` |
| Motion.NonRigidRowsFromFlagged | djimaging/processing.py:230-243 | every non-rigid row comes from a plane whose `nonrigid` is set |
| Motion.FlaggedHaveNonRigidRow | djimaging/processing.py:230-243 | every plane whose `nonrigid` is set has its non-rigid row, with `block_size` and `nblocks` |
| Motion.NonRigidRowsFlagged | djimaging/processing.py:230-243 | non-rigid rows exist exactly for the planes whose `nonrigid` is set |
| Motion.BlocksFromFlagged | djimaging/processing.py:230-244 | every block row is a block of a plane whose `nonrigid` is set |
| Motion.FlaggedBlocksPresent | djimaging/processing.py:230-244 | every block of a plane whose `nonrigid` is set is inserted |
| Motion.BlocksOfFlaggedPlanes | djimaging/processing.py:230-244 | the block rows are exactly the blocks of the planes whose `nonrigid` is set, `block_y` from `xblock` and `block_x` from `yblock` |
| Motion.RigidOnly | djimaging/processing.py:230 | without a non-rigid plane, no non-rigid row and no block row is written |
| Motion.PlaneRowsWellFormed | djimaging/processing.py:221-244 | one plane's rows carry the task and the plane's field, with unique keys, each block under its non-rigid row |
| Motion.MotionRowsFields | djimaging/processing.py:217-244 | every row carries the field of one of the planes |
| Motion.MotionRowsWellFormed | djimaging/processing.py:164-202 | planes with distinct fields give part rows with unique primary keys, each block under its non-rigid row |
| Motion.MotionCorrectionMakeOk | djimaging/processing.py:204-246 | a make that returns normally ran suite2p, took plane 0's alignment channel, and wrote well-formed part rows |
| Images.ImagesRowsStep | djimaging/processing.py:271-277 | one more plane appends its image row |
| Images.ComputeImages | djimaging/processing.py:263-279 | the make up to its inserts computes `ImagesMake`: the method check and one row per plane, or the first lookup error |
| Images.ImagesRowPerPlane | djimaging/processing.py:271-277 | one row per plane, in order, with `ref_image`, `average_image` from the mean image, `correlation_image` and `max_proj_image` |
| Images.ImagesRowsUnique | djimaging/processing.py:250-259 | planes with distinct fields give image rows of the task with unique keys |
| Images.ImagesMakeOk | djimaging/processing.py:263-279 | a make that returns normally ran suite2p and wrote rows of its key with unique keys |
| Segmentation.AppendPlaneMasks | djimaging/processing.py:330-336 | the inner loop appends one dictionary per `zip(iscell, cell_prob, stat)` tuple, numbered from `len(masks)` |
| Segmentation.EntriesStep | djimaging/processing.py:328-336 | one more plane appends its dictionaries, numbered from the count of those before |
| Segmentation.ComputeSegmentation | djimaging/processing.py:315-341 | the make up to its inserts computes `SegmentationMake`: the method check, plane 0's segmentation channel, and the mask list, the first lookup error, or the out-of-range error of the `smallint` mask column |
| Segmentation.EntriesNumbering | djimaging/processing.py:327-336 | the mask ids are exactly 0..N-1 in list order, N being the total over the planes |
| Segmentation.EntriesPrefix | djimaging/processing.py:327-336 | the planes before plane k give a prefix of the list |
| Segmentation.EntriesAt | djimaging/processing.py:330-336 | the j-th mask of plane k sits at, and is numbered, the masks of the planes before it plus j, below the masks of planes 0..k |
| Segmentation.MaskIdBelowPlaneTotal | djimaging/processing.py:330-331 | plane k adds its `min(len(iscell), len(cell_prob), len(stat))` masks to the running total, so its j-th id is below the total of planes 0..k |
| Segmentation.EntriesOfPlane | djimaging/processing.py:330-336 | that mask carries the plane's field, `bool(is_cell)`, `cell_prob`, `npix`, `med[1]` as `center_x`, `med[0]` as `center_y`, `xpix`, `ypix` and `lam` |
| Segmentation.MaskAndCellRowsAgree | djimaging/processing.py:338-339 | the Mask rows and the Cell rows come from one list: the same keys at every position, with that mask's `is_cell` and `cell_prob` |
| Segmentation.EntriesKeysUnique | djimaging/processing.py:293-313 | both part tables get unique keys of the task, and the mask keys are exactly ids 0..N-1 |
| Segmentation.SegmentationMakeOk | djimaging/processing.py:315-341 | a make that returns normally ran suite2p, took plane 0's segmentation channel, and numbered all masks 0..N-1 with N at most 32768 |
| Segmentation.EntriesInRange | djimaging/processing.py:296 | the mask list fits the `smallint` column exactly when there are at most 32768 masks |
| Segmentation.SegmentationOutOfRange | djimaging/processing.py:296-339 | the make fails on the `smallint` column exactly when plane 0 exists, every lookup succeeds, and there are more than 32768 masks |
| Segmentation.SampleFlags | djimaging/processing.py:331-333 | each mask of a sample plane is a cell exactly when its flag is non-zero |
| Segmentation.TwoPlaneNumbering | djimaging/processing.py:327-336 | planes of 3 and 2 masks give ids 0..4, the second plane starting at 3, each with its plane's field and `bool` of its flag |
| Fluorescence.AppendChannelTraces | djimaging/processing.py:399-405 | one inner loop appends a trace of the channel per `zip` pair, numbered from the plane's start count |
| Fluorescence.TracesStep | djimaging/processing.py:397-405 | one more plane appends its traces, numbered from the count of traces before it |
| Fluorescence.AppendPlaneTraces | djimaging/processing.py:396-404 | one pass of the plane loop appends exactly that plane's traces: channel 0, then channel 1 when `F_chan2` is non-empty, both numbered from `len(fluo_traces)` |
| Fluorescence.ComputeFluorescence | djimaging/processing.py:386-410 | the make up to its insert computes `FluorescenceMake`: the method check, the traces of all planes, the out-of-range error of the `smallint` mask column, and the failure of a trace without a Cell |
| Fluorescence.FluorescenceMakeFails | djimaging/processing.py:407 | the insert fails exactly when some trace's mask is above 32767 or names a mask without a Cell row |
| Fluorescence.TracesOutOfRange | djimaging/processing.py:296-407 | at most 32768 traces never hit the `smallint` bound; without a second channel, more than that always do |
| Fluorescence.PlaneTracesShape | djimaging/processing.py:398-405 | a plane adds one channel-0 trace per (F, Fneu) pair and channel-1 traces only when `F_chan2` is non-empty, all numbered from the start count, with unique keys |
| Fluorescence.TracesShape | djimaging/processing.py:396-405 | the number of traces is the total of both channels' pairs, and every id is below it |
| Fluorescence.TracesPrefix | djimaging/processing.py:396-405 | the planes before plane k give a prefix of the traces |
| Fluorescence.PlaneTracesInPlace | djimaging/processing.py:397-405 | plane k's traces come right after those of the planes before it |
| Fluorescence.PlaneTracesAfter | djimaging/processing.py:398-405 | channel-0 then channel-1 traces, both numbered from `len(fluo_traces)` at the plane's start, so the channels share ids |
| Fluorescence.TraceKeysUnique | djimaging/processing.py:376-384 | no two traces share a (mask, channel) key |
| Fluorescence.SingleChannelNumbering | djimaging/processing.py:397-401 | without a second channel, trace i is the channel-0 trace of mask i |
| Fluorescence.CountsAgree | djimaging/processing.py:399 | with one trace per mask and no second channel, the trace and mask totals agree |
| Fluorescence.TraceIdsAreMaskIds | djimaging/processing.py:397-407 | without a second channel and with one trace per mask, the trace ids are the mask ids, and the insert succeeds when the masks fit their column |
| Fluorescence.SecondChannelShiftsIds | djimaging/processing.py:398-407 | as written, a second channel on one plane shifts the next plane's ids past the masks, so the insert fails on a missing Cell |
| Pipeline.ProcessingTablesInsert | djimaging/processing.py:137-144 | a new task's Processing row and output files keep their keys unique and their references valid |
| Pipeline.MotionTablesInsert | djimaging/processing.py:164-202 | a new master's well-formed part rows keep the part tables' keys unique and each block under its non-rigid row |
| Pipeline.ImagesTableInsert | djimaging/processing.py:250-259 | rows of a master without images keep the image keys unique |
| Pipeline.SegmentationTablesInsert | djimaging/processing.py:293-313 | a new master's masks and cells keep keys unique and every Cell on a Mask |
| Pipeline.TraceTableInsert | djimaging/processing.py:376-384 | a new master's traces on existing Cells keep the trace keys unique |
| Pipeline.TraceTableWiderCells | djimaging/processing.py:379 | more Cell rows keep every Trace on an existing Cell |
| Pipeline.CellKeysGrow | djimaging/processing.py:339 | inserting Cell rows keeps every existing Cell key |
| Pipeline.ProcessingKeepsSchema | djimaging/processing.py:121-144 | inserting what Processing.make writes, for a task of the key source, keeps the schema's keys and references consistent and every Processing row inside the key source |
| Pipeline.ProcessedTasksInKeySource | djimaging/processing.py:121-123 | in a consistent schema every processed task is a ProcessingTask whose scan has its ScanInfo |
| Pipeline.MotionCorrectionKeepsSchema | djimaging/processing.py:204-244 | inserting what MotionCorrection.make writes keeps the schema consistent |
| Pipeline.ImagesKeepSchema | djimaging/processing.py:263-277 | inserting what MotionCorrectedImages.make writes keeps the schema consistent |
| Pipeline.SegmentationKeepsSchema | djimaging/processing.py:315-339 | inserting what Segmentation.make writes keeps the schema consistent, existing traces included |
| Pipeline.FluorescenceKeepsSchema | djimaging/processing.py:386-407 | inserting what Fluorescence.make writes keeps the schema consistent |
| Pipeline.Store.constructor | djimaging/processing.py:84-90 | stands for the freshly declared schema, before any `populate`: the computed tables from Processing onwards start empty, and that state is consistent |
| Pipeline.Store.MakeProcessing | djimaging/processing.py:125-151 | the NotImplementedError, the normal return that inserts nothing, or the Processing row plus one PhysicalFile and ProcessingOutputFile row per regular file; the schema stays consistent |
| Pipeline.Store.MakeMotionCorrection | djimaging/processing.py:204-246 | on error nothing changes; otherwise the master row and exactly the computed part rows are appended; the schema stays consistent |
| Pipeline.Store.MakeMotionCorrectedImages | djimaging/processing.py:263-279 | on error nothing changes; otherwise the image rows of all planes are appended; the schema stays consistent |
| Pipeline.Store.MakeSegmentation | djimaging/processing.py:315-341 | on error nothing changes; otherwise the master row and the Mask and Cell rows of one list are appended; the schema stays consistent |
| Pipeline.Store.MakeFluorescence | djimaging/processing.py:386-410 | on error nothing changes; otherwise the master row and the traces are appended; the schema stays consistent |
| Pipeline.OnlySuite2pIsImplemented | djimaging/processing.py:150-151 | every make step (here and at lines 245-246, 278-279, 340-341 and 409-410) raises NotImplementedError for a method other than suite2p, before any insert |
| Pipeline.CaimanDeclaredButUnsupported | djimaging/processing.py:22 | caiman is a declared processing method, yet all five make steps raise NotImplementedError for it |

## Left out

- The DataJoint table definitions are reduced to the keys and references the make steps touch. The lookup tables other than ProcessingMethod and their contents are left out. So are MaskClassification, DeconvolvedCalciumActivity and the other tables that have no make step here.
- `populate`, its transaction and its concurrency are left out. A failed make is modelled as changing nothing, as its rolled-back transaction would.
- `np.nanstd` of the shifts is left out, because it is floating-point statistics. The `y_std` and `x_std` columns are not modelled. Neither is the never-written `z_drift`.
- The contents of blobs and images are opaque sequences of reals.
- The filesystem is an input:
  - the suite2p directory's existence;
  - what `glob('*')` yields;
  - `is_file()`;
  - the data root.
- `_get_suite2p_dir` is a parameter. Its default returns `None`, which `pathlib.Path` would reject. `_get_caiman_dir` is not used by any make step.
- The suite2p loader is an input: its planes with their `ops`, `stat`, flags, traces and images, in dictionary order, and its `creation_time` and `curation_time`. The loader is not part of this model.
- MotionCorrectedImages.make iterates `s2p_loader.items()`, not `s2p_loader.planes.items()` as the other steps do. It is modelled as iterating the same planes.
- `ops['block_size']` and `ops['nblocks']` are pairs.
- The `Channel` foreign keys of `mc_channel`, `seg_channel` and `fluo_channel` are not checked. The Channel table is not part of this model.
- ScanInfo.Field is reduced to (scan, field, plane). Its definition is not part of this model.
- `PhysicalFile.insert(..., skip_duplicates=True)` is a set union of paths. The file's other attributes are not modelled.
- `datetime.now()` and the commented trigger of a suite2p run are left out; that branch inserts nothing and returns.
- `start_time` is always null, because nothing here triggers a run.
- The caiman branch is not implemented in the source, so it is not modelled beyond its NotImplementedError.
- `datetime.strptime` on the epoch text, with its format `%Y %m %d %H %M %S.%f`, is left out. `Header.GetScanImageAcqTime` ends with the normalised text.
- The 32-bit `int` columns (`block_id`, `npix`, `center_x`, `center_y`, the block sizes and counts) are unbounded here. Only the `smallint` bound of `mask` is modelled, because the make steps' own numbering can reach it.
- `Fluorescence.FluorescenceMake` checks the `smallint` bound before the Cell reference. Which of the two errors the database reports first is not modelled: both abort the insert.
- `Pipeline.Store.MakeMotionCorrection` and `Pipeline.Store.MakeMotionCorrectedImages` require that the loader's plane ids are distinct, as the keys of its dictionary are. Without this, two planes could resolve to one field and repeat a primary key.
- `Pipeline.Store.MakeProcessing` requires that the directory listing has distinct names, as a directory's entries do.
- `Pipeline.Store.MakeMotionCorrectedImages` requires that the task has no image rows yet. This is the "not yet populated" condition of `populate`, stated on the part rows because that table has no separate master row.
