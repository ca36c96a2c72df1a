/**
 * The tables of the processing schema as one store, and each make step as a method
 * that reads the upstream tables and the loader's planes and inserts its rows. A make
 * that returns normally inserts all of its rows; one that raises inserts none, because
 * `populate` runs every make inside a transaction.
 */
module Pipeline {
  import opened Results
  import opened Records
  import opened Fetch
  import opened ProcessingStep
  import opened Motion
  import opened Images
  import opened Segmentation
  import opened Fluorescence

  // ---- What the primary and foreign keys of each group of tables guarantee

  /** Processing rows belong to tasks; ProcessingOutputFile rows are unique and point to their Processing and PhysicalFile rows. */
  ghost predicate ProcessingTablesOk(tasks: set<TaskKey>, processing: map<TaskKey, ProcessingRow>,
                                     physicalFiles: set<string>, outputFiles: seq<OutputFileRow>)
  {
    && processing.Keys <= tasks
    && Unique(outputFiles, (o: OutputFileRow) => o)
    && forall o :: o in outputFiles ==> o.task in processing && o.filePath in physicalFiles
  }

  /** The three part tables of MotionCorrection: unique keys, rows of existing masters, blocks of existing non-rigid rows. */
  ghost predicate MotionTablesOk(masters: set<TaskKey>, rigid: seq<RigidRow>, nonRigid: seq<NonRigidRow>, blocks: seq<BlockRow>)
  {
    && Unique(rigid, RigidKey) && Unique(nonRigid, NonRigidKey) && Unique(blocks, BlockKey)
    && (forall r :: r in rigid ==> r.task in masters)
    && (forall r :: r in nonRigid ==> r.task in masters)
    && (forall b :: b in blocks ==> (b.task, b.field) in NonRigidKeys(nonRigid))
  }

  ghost predicate ImagesTableOk(masters: set<TaskKey>, images: seq<ImagesRow>)
  {
    Unique(images, ImagesKey) && forall r :: r in images ==> r.task in masters
  }

  /** Mask and Cell rows: unique keys, masks of existing Segmentation rows, every Cell row on an existing Mask. */
  ghost predicate SegmentationTablesOk(masters: set<TaskKey>, masks: seq<MaskRow>, cells: seq<CellRow>)
  {
    && Unique(masks, MaskKey) && Unique(cells, CellKey)
    && (forall m :: m in masks ==> m.task in masters)
    && CellKeys(cells) <= MaskKeys(masks)
  }

  /** Trace rows: unique (task, mask, channel), of existing Fluorescence rows, each on an existing Cell. */
  ghost predicate TraceTableOk(masters: set<TaskKey>, cellKeys: set<(TaskKey, int)>, traces: seq<TraceRow>)
  {
    && Unique(traces, TraceKey)
    && (forall t :: t in traces ==> t.task in masters)
    && TraceParents(traces) <= cellKeys
  }

  lemma ProcessingTablesInsert(tasks: set<TaskKey>, processing: map<TaskKey, ProcessingRow>, physicalFiles: set<string>,
                               outputFiles: seq<OutputFileRow>, key: TaskKey, row: ProcessingRow, files: seq<string>)
    requires ProcessingTablesOk(tasks, processing, physicalFiles, outputFiles)
    requires key in tasks && key !in processing
    requires forall i, j :: 0 <= i < |files| && 0 <= j < |files| && i != j ==> files[i] != files[j]
    ensures ProcessingTablesOk(tasks, processing[key := row], physicalFiles + FileSet(files),
                               outputFiles + OutputFileRows(key, files))
  {
    var rows := OutputFileRows(key, files);
    UniqueExtend(outputFiles, rows, (o: OutputFileRow) => o, (o: OutputFileRow) => o.task, processing.Keys, key);
    forall o | o in rows ensures o.filePath in FileSet(files) {
      var i :| 0 <= i < |rows| && rows[i] == o;
    }
  }

  lemma MotionTablesInsert(masters: set<TaskKey>, rigid: seq<RigidRow>, nonRigid: seq<NonRigidRow>, blocks: seq<BlockRow>,
                           key: TaskKey, rows: MotionRows)
    requires MotionTablesOk(masters, rigid, nonRigid, blocks)
    requires key !in masters && RowsOf(key, rows)
    ensures MotionTablesOk(masters + {key}, rigid + rows.rigid, nonRigid + rows.nonRigid, blocks + rows.blocks)
  {
    UniqueExtend(rigid, rows.rigid, RigidKey, (r: RigidRow) => r.task, masters, key);
    UniqueExtend(nonRigid, rows.nonRigid, NonRigidKey, (r: NonRigidRow) => r.task, masters, key);
    forall b | b in blocks ensures b.task in masters {
      var r :| r in nonRigid && NonRigidKey(r) == (b.task, b.field);
    }
    UniqueExtend(blocks, rows.blocks, BlockKey, (b: BlockRow) => b.task, masters, key);
    forall b | b in blocks + rows.blocks
      ensures (b.task, b.field) in NonRigidKeys(nonRigid + rows.nonRigid)
    {
      if b in blocks {
        var r :| r in nonRigid && NonRigidKey(r) == (b.task, b.field);
        assert r in nonRigid + rows.nonRigid;
      } else {
        var r :| r in rows.nonRigid && NonRigidKey(r) == (b.task, b.field);
        assert r in nonRigid + rows.nonRigid;
      }
    }
  }

  lemma ImagesTableInsert(masters: set<TaskKey>, images: seq<ImagesRow>, key: TaskKey, rows: seq<ImagesRow>)
    requires ImagesTableOk(masters, images) && key in masters
    requires forall r :: r in images ==> r.task != key
    requires Unique(rows, ImagesKey) && forall r :: r in rows ==> r.task == key
    ensures ImagesTableOk(masters, images + rows)
  {
    UniqueAppend(images, rows, ImagesKey);
  }

  lemma SegmentationTablesInsert(masters: set<TaskKey>, masks: seq<MaskRow>, cells: seq<CellRow>, key: TaskKey, es: seq<MaskEntry>)
    requires SegmentationTablesOk(masters, masks, cells) && key !in masters
    requires Unique(MaskRows(es), MaskKey) && Unique(CellRows(es), CellKey)
    requires forall m :: m in MaskRows(es) ==> m.task == key
    ensures SegmentationTablesOk(masters + {key}, masks + MaskRows(es), cells + CellRows(es))
  {
    var ms := MaskRows(es);
    var cs := CellRows(es);
    MaskAndCellRowsAgree(es);
    UniqueExtend(masks, ms, MaskKey, (m: MaskRow) => m.task, masters, key);
    forall c | c in cells ensures c.task in masters {
      assert CellKey(c) in MaskKeys(masks);
    }
    forall c | c in cs ensures c.task == key {
      var i :| 0 <= i < |cs| && cs[i] == c;
      assert ms[i] in ms;
    }
    UniqueExtend(cells, cs, CellKey, (c: CellRow) => c.task, masters, key);
    forall k | k in CellKeys(cells + cs) ensures k in MaskKeys(masks + ms) {
      var c :| c in cells + cs && CellKey(c) == k;
      if c in cells {
        assert k in CellKeys(cells);
        var m :| m in masks && MaskKey(m) == k;
        assert m in masks + ms;
      } else {
        assert k in MaskKeys(ms);
        var m :| m in ms && MaskKey(m) == k;
        assert m in masks + ms;
      }
    }
  }

  lemma TraceTableInsert(masters: set<TaskKey>, cellKeys: set<(TaskKey, int)>, traces: seq<TraceRow>, key: TaskKey, rows: seq<TraceRow>)
    requires TraceTableOk(masters, cellKeys, traces) && key !in masters
    requires Unique(rows, TraceKey) && (forall t :: t in rows ==> t.task == key)
    requires TraceParents(rows) <= cellKeys
    ensures TraceTableOk(masters + {key}, cellKeys, traces + rows)
  {
    UniqueExtend(traces, rows, TraceKey, (t: TraceRow) => t.task, masters, key);
    forall k | k in TraceParents(traces + rows) ensures k in cellKeys {
      var t :| t in traces + rows && (t.task, t.mask) == k;
      if t in traces {
        assert k in TraceParents(traces);
      } else {
        assert k in TraceParents(rows);
      }
    }
  }

  /** Trace rows stay on existing Cell rows when more Cell rows come. */
  lemma TraceTableWiderCells(masters: set<TaskKey>, cellKeys: set<(TaskKey, int)>, wider: set<(TaskKey, int)>, traces: seq<TraceRow>)
    requires TraceTableOk(masters, cellKeys, traces) && cellKeys <= wider
    ensures TraceTableOk(masters, wider, traces)
  {
  }

  /** Adding Cell rows keeps every Cell key that was there. */
  lemma CellKeysGrow(cells: seq<CellRow>, more: seq<CellRow>)
    ensures CellKeys(cells) <= CellKeys(cells + more)
  {
    forall k | k in CellKeys(cells) ensures k in CellKeys(cells + more) {
      var c :| c in cells && CellKey(c) == k;
      assert c in cells + more;
    }
  }

  // ---- The computed tables as one value, and what each make step keeps of their consistency

  /** The contents of the tables the make steps fill. */
  datatype Tables = Tables(
    processing: map<TaskKey, ProcessingRow>, physicalFiles: set<string>, outputFiles: seq<OutputFileRow>,
    motionCorrection: map<TaskKey, int>, rigid: seq<RigidRow>, nonRigid: seq<NonRigidRow>, blocks: seq<BlockRow>,
    images: seq<ImagesRow>,
    segmentation: map<TaskKey, int>, masks: seq<MaskRow>, cells: seq<CellRow>,
    fluorescence: set<TaskKey>, traces: seq<TraceRow>)

  /**
   * The primary and foreign keys of the schema hold: every table keyed uniquely, every
   * Processing row of a task of its key source (a ProcessingTask whose scan has its
   * ScanInfo), every master row of an existing upstream row (MotionCorrection of a ProcessingTask,
   * Segmentation of a MotionCorrection, Fluorescence of a Segmentation), every part row
   * of an existing master.
   */
  ghost predicate SchemaOk(tasks: set<TaskKey>, scanInfo: set<ScanId>, fields: seq<FieldRow>, t: Tables)
  {
    && FieldKeysUnique(fields)
    && ProcessingTablesOk(tasks, t.processing, t.physicalFiles, t.outputFiles)
    && t.processing.Keys <= KeySource(tasks, scanInfo)
    && t.motionCorrection.Keys <= tasks
    && MotionTablesOk(t.motionCorrection.Keys, t.rigid, t.nonRigid, t.blocks)
    && ImagesTableOk(t.motionCorrection.Keys, t.images)
    && t.segmentation.Keys <= t.motionCorrection.Keys
    && SegmentationTablesOk(t.segmentation.Keys, t.masks, t.cells)
    && t.fluorescence <= t.segmentation.Keys
    && TraceTableOk(t.fluorescence, CellKeys(t.cells), t.traces)
  }

  /** In a consistent schema every processed task is a ProcessingTask whose scan has its ScanInfo. */
  lemma ProcessedTasksInKeySource(tasks: set<TaskKey>, scanInfo: set<ScanId>, fields: seq<FieldRow>, t: Tables)
    requires SchemaOk(tasks, scanInfo, fields, t)
    ensures forall k :: k in t.processing ==> k in tasks && k.scan in scanInfo
  {
  }

  /** Inserting the Processing row of a new task and its output files keeps the schema consistent. */
  lemma ProcessingKeepsSchema(tasks: set<TaskKey>, scanInfo: set<ScanId>, fields: seq<FieldRow>, t: Tables, key: TaskKey,
                              row: ProcessingRow, files: seq<string>)
    requires SchemaOk(tasks, scanInfo, fields, t) && key in KeySource(tasks, scanInfo) && key !in t.processing
    requires forall i, j :: 0 <= i < |files| && 0 <= j < |files| && i != j ==> files[i] != files[j]
    ensures SchemaOk(tasks, scanInfo, fields, t.(processing := t.processing[key := row],
                                       physicalFiles := t.physicalFiles + FileSet(files),
                                       outputFiles := t.outputFiles + OutputFileRows(key, files)))
  {
    ProcessingTablesInsert(tasks, t.processing, t.physicalFiles, t.outputFiles, key, row, files);
  }

  /** Inserting what a MotionCorrection.make that returns normally computes keeps the schema consistent. */
  lemma MotionCorrectionKeepsSchema(tasks: set<TaskKey>, scanInfo: set<ScanId>, fields: seq<FieldRow>, t: Tables,
                                    processingMethod: string, key: TaskKey, planes: seq<Plane>, w: MotionWrite)
    requires SchemaOk(tasks, scanInfo, fields, t) && key in tasks && key !in t.motionCorrection
    requires PlaneIdsDistinct(planes)
    requires MotionCorrectionMake(processingMethod, fields, key, planes) == Ok(w)
    ensures SchemaOk(tasks, scanInfo, fields, t.(motionCorrection := t.motionCorrection[key := w.channel],
                                      rigid := t.rigid + w.rows.rigid, nonRigid := t.nonRigid + w.rows.nonRigid,
                                      blocks := t.blocks + w.rows.blocks))
  {
    MotionCorrectionMakeOk(processingMethod, fields, key, planes);
    MotionTablesInsert(t.motionCorrection.Keys, t.rigid, t.nonRigid, t.blocks, key, w.rows);
    assert t.motionCorrection[key := w.channel].Keys == t.motionCorrection.Keys + {key};
  }

  /** Inserting what a MotionCorrectedImages.make that returns normally computes keeps the schema consistent. */
  lemma ImagesKeepSchema(tasks: set<TaskKey>, scanInfo: set<ScanId>, fields: seq<FieldRow>, t: Tables,
                         processingMethod: string, key: TaskKey, planes: seq<Plane>)
    requires SchemaOk(tasks, scanInfo, fields, t) && key in t.motionCorrection
    requires forall r :: r in t.images ==> r.task != key
    requires PlaneIdsDistinct(planes)
    requires ImagesMake(processingMethod, fields, key, planes).Ok?
    ensures SchemaOk(tasks, scanInfo, fields, t.(images := t.images + ImagesMake(processingMethod, fields, key, planes).value))
  {
    ImagesMakeOk(processingMethod, fields, key, planes);
    ImagesTableInsert(t.motionCorrection.Keys, t.images, key, ImagesMake(processingMethod, fields, key, planes).value);
  }

  /** Inserting what a Segmentation.make that returns normally computes keeps the schema consistent. */
  lemma SegmentationKeepsSchema(tasks: set<TaskKey>, scanInfo: set<ScanId>, fields: seq<FieldRow>, t: Tables,
                                processingMethod: string, key: TaskKey, planes: seq<Plane>, w: SegmentationWrite)
    requires SchemaOk(tasks, scanInfo, fields, t) && key in t.motionCorrection && key !in t.segmentation
    requires SegmentationMake(processingMethod, fields, key, planes) == Ok(w)
    ensures SchemaOk(tasks, scanInfo, fields, t.(segmentation := t.segmentation[key := w.channel],
                                      masks := t.masks + MaskRows(w.entries), cells := t.cells + CellRows(w.entries)))
  {
    SegmentationWriteEntries(processingMethod, fields, key, planes, w);
    var fs := ResolveFields(fields, key.scan, planes).value;
    EntriesKeysUnique(key, planes, fs);
    SegmentationTablesInsert(t.segmentation.Keys, t.masks, t.cells, key, w.entries);
    assert t.segmentation[key := w.channel].Keys == t.segmentation.Keys + {key};
    CellKeysGrow(t.cells, CellRows(w.entries));
    TraceTableWiderCells(t.fluorescence, CellKeys(t.cells), CellKeys(t.cells + CellRows(w.entries)), t.traces);
  }

  /** Inserting what a Fluorescence.make that returns normally computes keeps the schema consistent. */
  lemma FluorescenceKeepsSchema(tasks: set<TaskKey>, scanInfo: set<ScanId>, fields: seq<FieldRow>, t: Tables,
                                processingMethod: string, key: TaskKey, planes: seq<Plane>)
    requires SchemaOk(tasks, scanInfo, fields, t) && key in t.segmentation && key !in t.fluorescence
    requires FluorescenceMake(processingMethod, CellKeys(t.cells), key, planes).Ok?
    ensures SchemaOk(tasks, scanInfo, fields, t.(fluorescence := t.fluorescence + {key},
                                       traces := t.traces + FluorescenceMake(processingMethod, CellKeys(t.cells), key, planes).value))
  {
    TraceKeysUnique(key, planes);
    TracesShape(key, planes);
    TraceTableInsert(t.fluorescence, CellKeys(t.cells), t.traces, key, Traces(key, planes));
  }

  /** The tables of the schema the make steps read and fill. */
  class Store {
    // Upstream tables the make steps only read: ProcessingTask with its param set, ScanInfo, ScanInfo.Field.
    const tasks: map<TaskKey, ParamSet>
    const scanInfo: set<ScanId>
    const fields: seq<FieldRow>

    var processing: map<TaskKey, ProcessingRow>
    var physicalFiles: set<string>
    var outputFiles: seq<OutputFileRow>
    /** MotionCorrection: the `mc_channel` of each task. */
    var motionCorrection: map<TaskKey, int>
    var rigid: seq<RigidRow>
    var nonRigid: seq<NonRigidRow>
    var blocks: seq<BlockRow>
    var images: seq<ImagesRow>
    /** Segmentation: the `seg_channel` of each task. */
    var segmentation: map<TaskKey, int>
    var masks: seq<MaskRow>
    var cells: seq<CellRow>
    var fluorescence: set<TaskKey>
    var traces: seq<TraceRow>

    /** The tables this store holds, as one value. */
    ghost function Contents(): Tables
      reads this
    {
      Tables(processing, physicalFiles, outputFiles, motionCorrection, rigid, nonRigid, blocks, images,
             segmentation, masks, cells, fluorescence, traces)
    }

    ghost predicate Valid()
      reads this
    {
      SchemaOk(tasks.Keys, scanInfo, fields, Contents())
    }

    /** A schema whose computed tables are all empty. */
    constructor(tasks: map<TaskKey, ParamSet>, scanInfo: set<ScanId>, fields: seq<FieldRow>)
      requires FieldKeysUnique(fields)
      ensures Valid()
      ensures this.tasks == tasks && this.scanInfo == scanInfo && this.fields == fields
      ensures processing == map[] && physicalFiles == {} && outputFiles == []
      ensures motionCorrection == map[] && rigid == [] && nonRigid == [] && blocks == [] && images == []
      ensures segmentation == map[] && masks == [] && cells == []
      ensures fluorescence == {} && traces == []
    {
      this.tasks := tasks;
      this.scanInfo := scanInfo;
      this.fields := fields;
      processing, physicalFiles, outputFiles := map[], {}, [];
      motionCorrection, rigid, nonRigid, blocks, images := map[], [], [], [], [];
      segmentation, masks, cells := map[], [], [];
      fluorescence, traces := {}, [];
    }

    /**
     * Processing.make for a task of its key source not yet processed. `dir` is the
     * suite2p output directory, `listing` what globbing it yields, `root` the data root,
     * `completion` and `curation` the loader's times.
     */
    method MakeProcessing(key: TaskKey, dir: Path, dirExists: bool, listing: seq<DirEntry>, root: Path,
                          completion: Time, curation: Time) returns (outcome: Outcome)
      requires Valid()
      requires key in KeySource(tasks.Keys, scanInfo) && key !in processing
      requires NamesDistinct(listing)
      modifies this`processing, this`physicalFiles, this`outputFiles
      ensures Valid()
      ensures match ProcessingMake(tasks[key].processingMethod, dir, dirExists, listing, root, completion, curation)
        case Err(e) => outcome == Failed(e) && unchanged(this)
        case Ok(None) => outcome == NotYetRun && unchanged(this)
        case Ok(Some(w)) =>
          && outcome == Inserted
          && processing == old(processing)[key := w.row]
          && physicalFiles == old(physicalFiles) + FileSet(w.files)
          && outputFiles == old(outputFiles) + OutputFileRows(key, w.files)
    {
      var processingMethod := tasks[key].processingMethod;
      if processingMethod != Suite2p {
        return Failed(NotImplemented(processingMethod));
      }
      if !dirExists {
        return NotYetRun;
      }
      var files: seq<string> := [];
      var i := 0;
      while i < |listing|
        invariant 0 <= i <= |listing|
        invariant OutputFiles(dir, root, listing[..i]) == Ok(files)
      {
        assert listing[..i + 1][..i] == listing[..i];
        if listing[i].isFile {
          var path := FilePath(dir, root, listing[i].name);
          if path.Err? {
            OutputFilesErrSticks(dir, root, listing, i + 1);
            return Failed(path.error);
          }
          files := files + [path.value];
        }
        i := i + 1;
      }
      assert listing[..i] == listing;
      var row := ProcessingRow(None, completion, curation);
      OutputFilesDistinct(dir, root, listing);
      ghost var t := Contents();
      ProcessingKeepsSchema(tasks.Keys, scanInfo, fields, t, key, row, files);
      processing, physicalFiles, outputFiles :=
        processing[key := row], physicalFiles + FileSet(files), outputFiles + OutputFileRows(key, files);
      assert Contents() == t.(processing := t.processing[key := row], physicalFiles := t.physicalFiles + FileSet(files),
                              outputFiles := t.outputFiles + OutputFileRows(key, files));
      return Inserted;
    }

    /** MotionCorrection.make for a task not yet motion corrected; `planes` is what the loader reports. */
    method MakeMotionCorrection(key: TaskKey, planes: seq<Plane>) returns (outcome: Outcome)
      requires Valid()
      requires key in tasks && key !in motionCorrection
      requires PlaneIdsDistinct(planes)
      modifies this`motionCorrection, this`rigid, this`nonRigid, this`blocks
      ensures Valid()
      ensures match MotionCorrectionMake(tasks[key].processingMethod, fields, key, planes)
        case Err(e) => outcome == Failed(e) && unchanged(this)
        case Ok(w) =>
          && outcome == Inserted
          && motionCorrection == old(motionCorrection)[key := w.channel]
          && rigid == old(rigid) + w.rows.rigid
          && nonRigid == old(nonRigid) + w.rows.nonRigid
          && blocks == old(blocks) + w.rows.blocks
    {
      var r := ComputeMotionCorrection(tasks[key].processingMethod, fields, key, planes);
      if r.Err? {
        return Failed(r.error);
      }
      var w := r.value;
      ghost var t := Contents();
      MotionCorrectionKeepsSchema(tasks.Keys, scanInfo, fields, t, tasks[key].processingMethod, key, planes, w);
      motionCorrection, rigid, nonRigid, blocks :=
        motionCorrection[key := w.channel], rigid + w.rows.rigid, nonRigid + w.rows.nonRigid, blocks + w.rows.blocks;
      assert Contents() == t.(motionCorrection := t.motionCorrection[key := w.channel],
                              rigid := t.rigid + w.rows.rigid, nonRigid := t.nonRigid + w.rows.nonRigid,
                              blocks := t.blocks + w.rows.blocks);
      return Inserted;
    }

    /** MotionCorrectedImages.make for a motion-corrected task that has no image rows yet. */
    method MakeMotionCorrectedImages(key: TaskKey, planes: seq<Plane>) returns (outcome: Outcome)
      requires Valid()
      requires key in motionCorrection && forall r :: r in images ==> r.task != key
      requires PlaneIdsDistinct(planes)
      modifies this`images
      ensures Valid()
      ensures match ImagesMake(tasks[key].processingMethod, fields, key, planes)
        case Err(e) => outcome == Failed(e) && unchanged(this)
        case Ok(rows) => outcome == Inserted && images == old(images) + rows
    {
      var r := ComputeImages(tasks[key].processingMethod, fields, key, planes);
      if r.Err? {
        return Failed(r.error);
      }
      ghost var t := Contents();
      ImagesKeepSchema(tasks.Keys, scanInfo, fields, t, tasks[key].processingMethod, key, planes);
      images := images + r.value;
      assert Contents() == t.(images := t.images + r.value);
      return Inserted;
    }

    /** Segmentation.make for a motion-corrected task not yet segmented. */
    method MakeSegmentation(key: TaskKey, planes: seq<Plane>) returns (outcome: Outcome)
      requires Valid()
      requires key in motionCorrection && key !in segmentation
      modifies this`segmentation, this`masks, this`cells
      ensures Valid()
      ensures match SegmentationMake(tasks[key].processingMethod, fields, key, planes)
        case Err(e) => outcome == Failed(e) && unchanged(this)
        case Ok(w) =>
          && outcome == Inserted
          && segmentation == old(segmentation)[key := w.channel]
          && masks == old(masks) + MaskRows(w.entries)
          && cells == old(cells) + CellRows(w.entries)
    {
      var r := ComputeSegmentation(tasks[key].processingMethod, fields, key, planes);
      if r.Err? {
        return Failed(r.error);
      }
      var w := r.value;
      ghost var t := Contents();
      SegmentationKeepsSchema(tasks.Keys, scanInfo, fields, t, tasks[key].processingMethod, key, planes, w);
      segmentation, masks, cells :=
        segmentation[key := w.channel], masks + MaskRows(w.entries), cells + CellRows(w.entries);
      assert Contents() == t.(segmentation := t.segmentation[key := w.channel],
                              masks := t.masks + MaskRows(w.entries), cells := t.cells + CellRows(w.entries));
      return Inserted;
    }

    /** Fluorescence.make for a segmented task without traces yet. */
    method MakeFluorescence(key: TaskKey, planes: seq<Plane>) returns (outcome: Outcome)
      requires Valid()
      requires key in segmentation && key !in fluorescence
      modifies this`fluorescence, this`traces
      ensures Valid()
      ensures match FluorescenceMake(tasks[key].processingMethod, CellKeys(cells), key, planes)
        case Err(e) => outcome == Failed(e) && unchanged(this)
        case Ok(rows) => outcome == Inserted && fluorescence == old(fluorescence) + {key} && traces == old(traces) + rows
    {
      var r := ComputeFluorescence(tasks[key].processingMethod, CellKeys(cells), key, planes);
      if r.Err? {
        return Failed(r.error);
      }
      ghost var t := Contents();
      FluorescenceKeepsSchema(tasks.Keys, scanInfo, fields, t, tasks[key].processingMethod, key, planes);
      fluorescence, traces := fluorescence + {key}, traces + r.value;
      assert Contents() == t.(fluorescence := t.fluorescence + {key}, traces := t.traces + r.value);
      return Inserted;
    }
  }

  /** Every make step raises NotImplementedError for any method other than suite2p, before it inserts anything. */
  lemma OnlySuite2pIsImplemented(processingMethod: string, fields: seq<FieldRow>, cellKeys: set<(TaskKey, int)>,
                                 key: TaskKey, planes: seq<Plane>, dir: Path, dirExists: bool, listing: seq<DirEntry>,
                                 root: Path, completion: Time, curation: Time)
    requires processingMethod != Suite2p
    ensures ProcessingMake(processingMethod, dir, dirExists, listing, root, completion, curation) == Err(NotImplemented(processingMethod))
    ensures MotionCorrectionMake(processingMethod, fields, key, planes) == Err(NotImplemented(processingMethod))
    ensures ImagesMake(processingMethod, fields, key, planes) == Err(NotImplemented(processingMethod))
    ensures SegmentationMake(processingMethod, fields, key, planes) == Err(NotImplemented(processingMethod))
    ensures FluorescenceMake(processingMethod, cellKeys, key, planes) == Err(NotImplemented(processingMethod))
  {
  }

  /** caiman is a declared processing method, yet no make step implements it. */
  lemma CaimanDeclaredButUnsupported(fields: seq<FieldRow>, cellKeys: set<(TaskKey, int)>, key: TaskKey, planes: seq<Plane>,
                                     dir: Path, dirExists: bool, listing: seq<DirEntry>, root: Path,
                                     completion: Time, curation: Time)
    ensures Caiman in ProcessingMethods
    ensures ProcessingMake(Caiman, dir, dirExists, listing, root, completion, curation) == Err(NotImplemented(Caiman))
    ensures MotionCorrectionMake(Caiman, fields, key, planes) == Err(NotImplemented(Caiman))
    ensures ImagesMake(Caiman, fields, key, planes) == Err(NotImplemented(Caiman))
    ensures SegmentationMake(Caiman, fields, key, planes) == Err(NotImplemented(Caiman))
    ensures FluorescenceMake(Caiman, cellKeys, key, planes) == Err(NotImplemented(Caiman))
  {
  }
}
