/**
 * What the make steps of the processing pipeline read and write: the keys of the
 * upstream tables, the per-plane records the suite2p loader returns, the rows of
 * the tables the make steps fill, and the errors they raise.
 */
module Records {
  import opened Results

  type ScanId = int
  /** A `datetime` value reported by the loader. */
  type Time = int
  /** A numeric array kept in a `longblob` column: shifts, images, pixel lists, traces. */
  type Blob = seq<real>

  /** The key of a ProcessingTask: its scan and its `processing_instance`. */
  datatype TaskKey = TaskKey(scan: ScanId, instance: int)

  /** The ProcessingParamSet a task is run with: a processing method and an index. */
  datatype ParamSet = ParamSet(processingMethod: string, paramsetIdx: int)

  /** A ScanInfo.Field row: one field of a scan and the plane it images. */
  datatype FieldRow = FieldRow(scan: ScanId, field: int, plane: int)

  /** The processing methods the ProcessingMethod lookup declares. */
  const Suite2p: string := "suite2p"
  const Caiman: string := "caiman"
  const ProcessingMethods: seq<string> := [Suite2p, Caiman]

  // ---- What the suite2p loader reports for one plane (the `ops` dictionary, `stat`, traces, images)

  /** The registration part of suite2p's `ops`; `yoff1T` and `xoff1T` are `yoff1.T` and `xoff1.T`, one shift series per block. */
  datatype Ops = Ops(
    yoff: Blob, xoff: Blob, badframes: Blob,
    nonrigid: bool,
    blockSize: (int, int), nblocks: (int, int),
    xblock: seq<Blob>, yblock: seq<Blob>, yoff1T: seq<Blob>, xoff1T: seq<Blob>)

  /** One entry of suite2p's `stat`; `med` is the (y, x) median pixel. */
  datatype Stat = Stat(npix: int, med: (int, int), xpix: Blob, ypix: Blob, lam: Blob)

  /** One plane of the loader's `planes` dictionary, `plane` being its key there. */
  datatype Plane = Plane(
    plane: int,
    alignmentChannel: int, segmentationChannel: int,
    ops: Ops,
    refImage: Blob, meanImage: Blob, correlationMap: Blob, maxProjImage: Blob,
    iscell: seq<real>, cellProb: seq<real>, stat: seq<Stat>,
    f: seq<Blob>, fneu: seq<Blob>, fChan2: seq<Blob>, fneuChan2: seq<Blob>)

  /** How many tuples `zip` yields for inputs of lengths `a` and `b`. */
  function Min(a: nat, b: nat): (r: nat)
    ensures r <= a && r <= b && (r == a || r == b)
  {
    if a <= b then a else b
  }

  /** The loader's planes come from a dictionary, so no plane id appears twice. */
  predicate PlaneIdsDistinct(planes: seq<Plane>)
  {
    forall i, j :: 0 <= i < |planes| && 0 <= j < |planes| && i != j ==> planes[i].plane != planes[j].plane
  }

  // ---- Rows of the tables the make steps fill

  /** A Processing row; `startTime` stays null because the run was not triggered from here. */
  datatype ProcessingRow = ProcessingRow(startTime: Option<Time>, completionTime: Time, curationTime: Time)
  /** A Processing.ProcessingOutputFile row; its key is the whole row. */
  datatype OutputFileRow = OutputFileRow(task: TaskKey, filePath: string)
  datatype RigidRow = RigidRow(task: TaskKey, field: int, yShifts: Blob, xShifts: Blob, outlierFrames: Blob)
  datatype NonRigidRow = NonRigidRow(
    task: TaskKey, field: int,
    blockHeight: int, blockWidth: int, blockCountY: int, blockCountX: int,
    outlierFrames: Blob)
  datatype BlockRow = BlockRow(
    task: TaskKey, field: int, blockId: int,
    blockY: Blob, blockX: Blob, yShifts: Blob, xShifts: Blob)
  datatype ImagesRow = ImagesRow(
    task: TaskKey, field: int,
    refImage: Blob, averageImage: Blob, correlationImage: Blob, maxProjImage: Blob)
  /** The one dictionary Segmentation builds per mask; the Mask and the Cell rows are both projected from it. */
  datatype MaskEntry = MaskEntry(
    task: TaskKey, mask: int, field: int,
    isCell: bool, cellProb: real,
    npix: int, centerX: int, centerY: int,
    xpix: Blob, ypix: Blob, weights: Blob)
  datatype MaskRow = MaskRow(
    task: TaskKey, mask: int, field: int,
    npix: int, centerX: int, centerY: int,
    xpix: Blob, ypix: Blob, weights: Blob)
  datatype CellRow = CellRow(task: TaskKey, mask: int, isCell: bool, cellProb: real)
  datatype TraceRow = TraceRow(task: TaskKey, mask: int, channel: int, fluo: Blob, neuropilFluo: Blob)

  // ---- Primary keys of those tables

  function RigidKey(r: RigidRow): (TaskKey, int) { (r.task, r.field) }
  function NonRigidKey(r: NonRigidRow): (TaskKey, int) { (r.task, r.field) }
  function BlockKey(r: BlockRow): (TaskKey, int, int) { (r.task, r.field, r.blockId) }
  function ImagesKey(r: ImagesRow): (TaskKey, int) { (r.task, r.field) }
  function MaskKey(r: MaskRow): (TaskKey, int) { (r.task, r.mask) }
  function CellKey(r: CellRow): (TaskKey, int) { (r.task, r.mask) }
  function TraceKey(r: TraceRow): (TaskKey, int, int) { (r.task, r.mask, r.channel) }

  /** No two rows of `rows` share a key: the uniqueness a table's primary key enforces. */
  ghost predicate Unique<T, K>(rows: seq<T>, key: T -> K)
  {
    forall i, j :: 0 <= i < |rows| && 0 <= j < |rows| && i != j ==> key(rows[i]) != key(rows[j])
  }

  /** Appending rows whose keys are new keeps the keys unique. */
  lemma UniqueAppend<T, K>(a: seq<T>, b: seq<T>, key: T -> K)
    requires Unique(a, key) && Unique(b, key)
    requires forall x, y :: x in a && y in b ==> key(x) != key(y)
    ensures Unique(a + b, key)
  {
    var c := a + b;
    forall i, j | 0 <= i < |c| && 0 <= j < |c| && i != j
      ensures key(c[i]) != key(c[j])
    {
      if i < |a| && j >= |a| {
        assert c[i] in a && c[j] == b[j - |a|];
      } else if i >= |a| && j < |a| {
        assert c[j] in a && c[i] == b[i - |a|];
      } else if i >= |a| {
        assert c[i] == b[i - |a|] && c[j] == b[j - |a|];
      }
    }
  }

  /**
   * Rows added for the master key `k`, which no existing row belongs to, keep a table's
   * key unique, given the key determines the owning master key.
   */
  lemma UniqueExtend<T, K>(existing: seq<T>, rows: seq<T>, key: T -> K, owner: T -> TaskKey, masters: set<TaskKey>, k: TaskKey)
    requires Unique(existing, key) && Unique(rows, key)
    requires forall x, y :: key(x) == key(y) ==> owner(x) == owner(y)
    requires forall x :: x in existing ==> owner(x) in masters
    requires k !in masters && forall y :: y in rows ==> owner(y) == k
    ensures Unique(existing + rows, key)
  {
    UniqueAppend(existing, rows, key);
  }

  // ---- What a make step raises, and how it ends

  datatype MakeError =
    | NotImplemented(name: string)             // NotImplementedError for a method other than suite2p
    | NoPlaneZero                              // KeyError of `s2p_loader.planes[0]`
    | FieldNotUnique(plane: int, matches: nat) // `fetch1` of the ScanInfo.Field of a plane matching `matches` != 1 rows
    | NotUnderRoot(path: seq<string>)          // ValueError of `relative_to` for a file outside the data root
    | MissingCell                              // a Trace row whose Segmentation.Cell does not exist
    | MaskOutOfRange                           // a `mask` value above what its `smallint` column holds

  /** The largest `mask` the `smallint` column of Segmentation.Mask (and of every key referencing it) holds. */
  const MaxMask: int := 32767

  /** How one call of a make step ends. */
  datatype Outcome = Inserted | NotYetRun | Failed(error: MakeError)
}
