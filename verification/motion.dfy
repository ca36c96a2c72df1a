/**
 * MotionCorrection.make for suite2p: one master row carrying the alignment channel
 * of plane 0, then per plane of the loader, in order, one RigidMotionCorrection row
 * and, when that plane's `ops['nonrigid']` is set, one NonRigidMotionCorrection row
 * and its Block rows.
 */
module Motion {
  import opened Results
  import opened Records
  import opened Fetch

  function RigidRowOf(task: TaskKey, field: int, p: Plane): RigidRow
  {
    RigidRow(task, field, p.ops.yoff, p.ops.xoff, p.ops.badframes)
  }

  function NonRigidRowOf(task: TaskKey, field: int, p: Plane): NonRigidRow
  {
    NonRigidRow(task, field, p.ops.blockSize.0, p.ops.blockSize.1, p.ops.nblocks.0, p.ops.nblocks.1, p.ops.badframes)
  }

  /** The length of `zip(xblock, yblock, yoff1.T, xoff1.T)`. */
  function BlockCount(ops: Ops): nat
  {
    Min(Min(|ops.xblock|, |ops.yblock|), Min(|ops.yoff1T|, |ops.xoff1T|))
  }

  /** The comprehension over `enumerate(zip(xblock, yblock, yoff1.T, xoff1.T))`: `block_y` is taken from `xblock` and `block_x` from `yblock`. */
  function BlockRows(task: TaskKey, field: int, ops: Ops): seq<BlockRow>
  {
    seq(BlockCount(ops), b requires 0 <= b < BlockCount(ops) =>
      BlockRow(task, field, b, ops.xblock[b], ops.yblock[b], ops.yoff1T[b], ops.xoff1T[b]))
  }

  /** The rows of the three part tables, in insertion order. */
  datatype MotionRows = MotionRows(rigid: seq<RigidRow>, nonRigid: seq<NonRigidRow>, blocks: seq<BlockRow>)

  /** The rows one plane adds. */
  function PlaneMotionRows(task: TaskKey, field: int, p: Plane): MotionRows
  {
    if p.ops.nonrigid then
      MotionRows([RigidRowOf(task, field, p)], [NonRigidRowOf(task, field, p)], BlockRows(task, field, p.ops))
    else
      MotionRows([RigidRowOf(task, field, p)], [], [])
  }

  /** The rows of all planes, `fs[i]` being the field of `planes[i]`. */
  function MotionRowsOf(task: TaskKey, planes: seq<Plane>, fs: seq<int>): MotionRows
    requires |fs| == |planes|
    decreases |planes|
  {
    if planes == [] then MotionRows([], [], [])
    else
      var n := |planes| - 1;
      var prev := MotionRowsOf(task, planes[..n], fs[..n]);
      var cur := PlaneMotionRows(task, fs[n], planes[n]);
      MotionRows(prev.rigid + cur.rigid, prev.nonRigid + cur.nonRigid, prev.blocks + cur.blocks)
  }

  /** One more plane appends its rows to each of the three part tables. */
  lemma MotionRowsStep(task: TaskKey, planes: seq<Plane>, fs: seq<int>, f: int)
    requires |fs| < |planes|
    ensures var i := |fs|;
      var prev := MotionRowsOf(task, planes[..i], fs);
      var cur := PlaneMotionRows(task, f, planes[i]);
      MotionRowsOf(task, planes[..i + 1], fs + [f])
        == MotionRows(prev.rigid + cur.rigid, prev.nonRigid + cur.nonRigid, prev.blocks + cur.blocks)
  {
    var i := |fs|;
    assert planes[..i + 1][..i] == planes[..i];
    assert (fs + [f])[..i] == fs;
  }

  /** What MotionCorrection.make inserts: the `mc_channel` of the master row and the part rows. */
  datatype MotionWrite = MotionWrite(channel: int, rows: MotionRows)

  function MotionCorrectionMake(processingMethod: string, fields: seq<FieldRow>, key: TaskKey, planes: seq<Plane>)
    : Result<MotionWrite, MakeError>
  {
    if processingMethod != Suite2p then Err(NotImplemented(processingMethod))
    else match PlaneWithId(planes, 0)
      case None => Err(NoPlaneZero)
      case Some(p0) =>
        match ResolveFields(fields, key.scan, planes)
        case Err(e) => Err(e)
        case Ok(fs) => Ok(MotionWrite(p0.alignmentChannel, MotionRowsOf(key, planes, fs)))
  }

  /** The body of the loop over the planes: the rigid row, then the non-rigid row and its blocks when `ops['nonrigid']` is set. */
  method AppendPlaneMotion(rows: MotionRows, task: TaskKey, field: int, p: Plane) returns (r: MotionRows)
    ensures var cur := PlaneMotionRows(task, field, p);
      r == MotionRows(rows.rigid + cur.rigid, rows.nonRigid + cur.nonRigid, rows.blocks + cur.blocks)
  {
    var rigid := rows.rigid + [RigidRowOf(task, field, p)];
    var nonRigid := rows.nonRigid;
    var blocks := rows.blocks;
    if p.ops.nonrigid {
      nonRigid := nonRigid + [NonRigidRowOf(task, field, p)];
      blocks := blocks + BlockRows(task, field, p.ops);
    }
    return MotionRows(rigid, nonRigid, blocks);
  }

  /** MotionCorrection.make up to its inserts: the method check, plane 0's channel, and the loop over the planes. */
  method ComputeMotionCorrection(processingMethod: string, fields: seq<FieldRow>, key: TaskKey, planes: seq<Plane>)
    returns (r: Result<MotionWrite, MakeError>)
    ensures r == MotionCorrectionMake(processingMethod, fields, key, planes)
  {
    if processingMethod != Suite2p {
      return Err(NotImplemented(processingMethod));
    }
    var plane0 := PlaneWithId(planes, 0);
    if plane0.None? {
      return Err(NoPlaneZero);
    }
    var channel := plane0.value.alignmentChannel;
    ghost var fs: seq<int> := [];
    var rows := MotionRows([], [], []);
    var i := 0;
    while i < |planes|
      invariant 0 <= i <= |planes| && |fs| == i
      invariant ResolveFields(fields, key.scan, planes[..i]) == Ok(fs)
      invariant MotionRowsOf(key, planes[..i], fs) == rows
    {
      var s2p := planes[i];
      var field := FetchField(fields, key.scan, s2p.plane);
      ResolveFieldsStep(fields, key.scan, planes, fs, i);
      if field.Err? {
        ResolveFieldsErrSticks(fields, key.scan, planes, i + 1);
        return Err(field.error);
      }
      MotionRowsStep(key, planes, fs, field.value);
      rows := AppendPlaneMotion(rows, key, field.value, s2p);
      fs := fs + [field.value];
      i := i + 1;
    }
    assert planes[..i] == planes;
    return Ok(MotionWrite(channel, rows));
  }

  /** The block rows of one non-rigid plane are numbered 0..k-1, k the shortest of the four block sequences; `block_y` comes from `xblock` and `block_x` from `yblock`. */
  lemma BlockRowsNumbering(task: TaskKey, field: int, ops: Ops)
    ensures var r := BlockRows(task, field, ops);
      |r| == Min(Min(|ops.xblock|, |ops.yblock|), Min(|ops.yoff1T|, |ops.xoff1T|))
      && (forall b :: 0 <= b < |r| ==>
            && r[b].blockId == b && r[b].task == task && r[b].field == field
            && r[b].blockY == ops.xblock[b] && r[b].blockX == ops.yblock[b]
            && r[b].yShifts == ops.yoff1T[b] && r[b].xShifts == ops.xoff1T[b])
      && Unique(r, BlockKey)
  {
  }

  /** Exactly one rigid row per plane, in plane order, carrying that plane's `yoff`, `xoff` and `badframes`. */
  lemma {:induction false} RigidRowPerPlane(task: TaskKey, planes: seq<Plane>, fs: seq<int>)
    requires |fs| == |planes|
    ensures var rigid := MotionRowsOf(task, planes, fs).rigid;
      |rigid| == |planes|
      && forall i :: 0 <= i < |planes| ==>
           rigid[i] == RigidRow(task, fs[i], planes[i].ops.yoff, planes[i].ops.xoff, planes[i].ops.badframes)
    decreases |planes|
  {
    if planes != [] {
      var n := |planes| - 1;
      var prev := MotionRowsOf(task, planes[..n], fs[..n]).rigid;
      var cur := PlaneMotionRows(task, fs[n], planes[n]).rigid;
      RigidRowPerPlane(task, planes[..n], fs[..n]);
      var rigid := prev + cur;
      assert MotionRowsOf(task, planes, fs).rigid == rigid;
      forall i | 0 <= i < |planes|
        ensures rigid[i] == RigidRow(task, fs[i], planes[i].ops.yoff, planes[i].ops.xoff, planes[i].ops.badframes)
      {
        if i < n {
          assert rigid[i] == prev[i];
          assert planes[..n][i] == planes[i] && fs[..n][i] == fs[i];
        } else {
          assert rigid[i] == cur[0];
        }
      }
    }
  }

  /** Every non-rigid row comes from a plane whose ops set `nonrigid`. */
  lemma {:induction false} NonRigidRowsFromFlagged(task: TaskKey, planes: seq<Plane>, fs: seq<int>)
    requires |fs| == |planes|
    ensures forall r :: r in MotionRowsOf(task, planes, fs).nonRigid ==>
      exists i :: 0 <= i < |planes| && planes[i].ops.nonrigid && r == NonRigidRowOf(task, fs[i], planes[i])
    decreases |planes|
  {
    if planes != [] {
      var n := |planes| - 1;
      var prev := MotionRowsOf(task, planes[..n], fs[..n]).nonRigid;
      var cur := PlaneMotionRows(task, fs[n], planes[n]).nonRigid;
      NonRigidRowsFromFlagged(task, planes[..n], fs[..n]);
      assert MotionRowsOf(task, planes, fs).nonRigid == prev + cur;
      forall r | r in prev + cur
        ensures exists i :: 0 <= i < |planes| && planes[i].ops.nonrigid && r == NonRigidRowOf(task, fs[i], planes[i])
      {
        if r in prev {
          var i :| 0 <= i < n && planes[..n][i].ops.nonrigid && r == NonRigidRowOf(task, fs[..n][i], planes[..n][i]);
          assert planes[..n][i] == planes[i] && fs[..n][i] == fs[i];
        } else {
          assert planes[n].ops.nonrigid && r == NonRigidRowOf(task, fs[n], planes[n]);
        }
      }
    }
  }

  /** Every plane whose ops set `nonrigid` has its non-rigid row. */
  lemma {:induction false} FlaggedHaveNonRigidRow(task: TaskKey, planes: seq<Plane>, fs: seq<int>)
    requires |fs| == |planes|
    ensures forall i :: 0 <= i < |planes| && planes[i].ops.nonrigid ==>
      NonRigidRowOf(task, fs[i], planes[i]) in MotionRowsOf(task, planes, fs).nonRigid
    decreases |planes|
  {
    if planes != [] {
      var n := |planes| - 1;
      var prev := MotionRowsOf(task, planes[..n], fs[..n]).nonRigid;
      var cur := PlaneMotionRows(task, fs[n], planes[n]).nonRigid;
      FlaggedHaveNonRigidRow(task, planes[..n], fs[..n]);
      assert MotionRowsOf(task, planes, fs).nonRigid == prev + cur;
      forall i | 0 <= i < |planes| && planes[i].ops.nonrigid
        ensures NonRigidRowOf(task, fs[i], planes[i]) in prev + cur
      {
        if i < n {
          assert planes[..n][i] == planes[i] && fs[..n][i] == fs[i];
        }
      }
    }
  }

  /** Non-rigid rows exist exactly for the planes whose ops set `nonrigid`. */
  lemma NonRigidRowsFlagged(task: TaskKey, planes: seq<Plane>, fs: seq<int>)
    requires |fs| == |planes|
    ensures forall r :: r in MotionRowsOf(task, planes, fs).nonRigid <==>
      exists i :: 0 <= i < |planes| && planes[i].ops.nonrigid && r == NonRigidRowOf(task, fs[i], planes[i])
  {
    NonRigidRowsFromFlagged(task, planes, fs);
    FlaggedHaveNonRigidRow(task, planes, fs);
  }

  /** Every block row comes from a plane whose ops set `nonrigid`. */
  lemma {:induction false} BlocksFromFlagged(task: TaskKey, planes: seq<Plane>, fs: seq<int>)
    requires |fs| == |planes|
    ensures forall b :: b in MotionRowsOf(task, planes, fs).blocks ==>
      exists i :: 0 <= i < |planes| && planes[i].ops.nonrigid && b in BlockRows(task, fs[i], planes[i].ops)
    decreases |planes|
  {
    if planes != [] {
      var n := |planes| - 1;
      var prev := MotionRowsOf(task, planes[..n], fs[..n]).blocks;
      var cur := PlaneMotionRows(task, fs[n], planes[n]).blocks;
      BlocksFromFlagged(task, planes[..n], fs[..n]);
      assert MotionRowsOf(task, planes, fs).blocks == prev + cur;
      forall b | b in prev + cur
        ensures exists i :: 0 <= i < |planes| && planes[i].ops.nonrigid && b in BlockRows(task, fs[i], planes[i].ops)
      {
        if b in prev {
          var i :| 0 <= i < n && planes[..n][i].ops.nonrigid && b in BlockRows(task, fs[..n][i], planes[..n][i].ops);
          assert planes[..n][i] == planes[i] && fs[..n][i] == fs[i];
        } else {
          assert planes[n].ops.nonrigid && b in BlockRows(task, fs[n], planes[n].ops);
        }
      }
    }
  }

  /** Every block of a plane whose ops set `nonrigid` is among the block rows. */
  lemma {:induction false} FlaggedBlocksPresent(task: TaskKey, planes: seq<Plane>, fs: seq<int>)
    requires |fs| == |planes|
    ensures forall i, b :: 0 <= i < |planes| && planes[i].ops.nonrigid && b in BlockRows(task, fs[i], planes[i].ops) ==>
      b in MotionRowsOf(task, planes, fs).blocks
    decreases |planes|
  {
    if planes != [] {
      var n := |planes| - 1;
      var prev := MotionRowsOf(task, planes[..n], fs[..n]).blocks;
      var cur := PlaneMotionRows(task, fs[n], planes[n]).blocks;
      FlaggedBlocksPresent(task, planes[..n], fs[..n]);
      assert MotionRowsOf(task, planes, fs).blocks == prev + cur;
      forall i, b | 0 <= i < |planes| && planes[i].ops.nonrigid && b in BlockRows(task, fs[i], planes[i].ops)
        ensures b in prev + cur
      {
        if i < n {
          assert planes[..n][i] == planes[i] && fs[..n][i] == fs[i];
        }
      }
    }
  }

  /** Block rows exist only for non-rigid planes, and every block of a non-rigid plane is there. */
  lemma BlocksOfFlaggedPlanes(task: TaskKey, planes: seq<Plane>, fs: seq<int>)
    requires |fs| == |planes|
    ensures forall b :: b in MotionRowsOf(task, planes, fs).blocks <==>
      exists i :: 0 <= i < |planes| && planes[i].ops.nonrigid && b in BlockRows(task, fs[i], planes[i].ops)
  {
    BlocksFromFlagged(task, planes, fs);
    FlaggedBlocksPresent(task, planes, fs);
  }

  /** Without any non-rigid plane, the make writes rigid rows only. */
  lemma RigidOnly(task: TaskKey, planes: seq<Plane>, fs: seq<int>)
    requires |fs| == |planes|
    requires forall i :: 0 <= i < |planes| ==> !planes[i].ops.nonrigid
    ensures MotionRowsOf(task, planes, fs).nonRigid == []
    ensures MotionRowsOf(task, planes, fs).blocks == []
  {
    NonRigidRowsFlagged(task, planes, fs);
    BlocksOfFlaggedPlanes(task, planes, fs);
  }

  /** The (task, field) keys of a set of non-rigid rows: the parents a Block row may point to. */
  function NonRigidKeys(rows: seq<NonRigidRow>): set<(TaskKey, int)>
  {
    set r | r in rows :: NonRigidKey(r)
  }

  /** The rows of one make are keyed by `task`, with unique keys, and every block has its non-rigid row. */
  ghost predicate RowsOf(task: TaskKey, rows: MotionRows)
  {
    && Unique(rows.rigid, RigidKey) && Unique(rows.nonRigid, NonRigidKey) && Unique(rows.blocks, BlockKey)
    && (forall r :: r in rows.rigid ==> r.task == task)
    && (forall r :: r in rows.nonRigid ==> r.task == task)
    && (forall b :: b in rows.blocks ==> b.task == task && (b.task, b.field) in NonRigidKeys(rows.nonRigid))
  }

  /** The rows of one plane are well formed and all carry the plane's field. */
  lemma PlaneRowsWellFormed(task: TaskKey, field: int, p: Plane)
    ensures var cur := PlaneMotionRows(task, field, p);
      && RowsOf(task, cur)
      && (forall r :: r in cur.rigid ==> r.field == field)
      && (forall r :: r in cur.nonRigid ==> r.field == field)
      && (forall b :: b in cur.blocks ==> b.field == field)
  {
    var cur := PlaneMotionRows(task, field, p);
    BlockRowsNumbering(task, field, p.ops);
    if p.ops.nonrigid {
      assert NonRigidRowOf(task, field, p) in cur.nonRigid;
    }
  }

  /** Every row carries the field of one of the planes. */
  lemma {:induction false} MotionRowsFields(task: TaskKey, planes: seq<Plane>, fs: seq<int>)
    requires |fs| == |planes|
    ensures var rows := MotionRowsOf(task, planes, fs);
      && (forall r :: r in rows.rigid ==> r.field in fs)
      && (forall r :: r in rows.nonRigid ==> r.field in fs)
      && (forall b :: b in rows.blocks ==> b.field in fs)
    decreases |planes|
  {
    if planes != [] {
      var n := |planes| - 1;
      var prev := MotionRowsOf(task, planes[..n], fs[..n]);
      var cur := PlaneMotionRows(task, fs[n], planes[n]);
      MotionRowsFields(task, planes[..n], fs[..n]);
      PlaneRowsWellFormed(task, fs[n], planes[n]);
      assert MotionRowsOf(task, planes, fs) == MotionRows(prev.rigid + cur.rigid, prev.nonRigid + cur.nonRigid, prev.blocks + cur.blocks);
      assert fs == fs[..n] + [fs[n]];
    }
  }

  /** Planes that resolve to distinct fields give rows with unique keys, blocks pointing to their non-rigid row. */
  lemma {:induction false} MotionRowsWellFormed(task: TaskKey, planes: seq<Plane>, fs: seq<int>)
    requires |fs| == |planes|
    requires forall i, j :: 0 <= i < |fs| && 0 <= j < |fs| && i != j ==> fs[i] != fs[j]
    ensures RowsOf(task, MotionRowsOf(task, planes, fs))
    decreases |planes|
  {
    if planes != [] {
      var n := |planes| - 1;
      var prev := MotionRowsOf(task, planes[..n], fs[..n]);
      var cur := PlaneMotionRows(task, fs[n], planes[n]);
      var rows := MotionRows(prev.rigid + cur.rigid, prev.nonRigid + cur.nonRigid, prev.blocks + cur.blocks);
      assert MotionRowsOf(task, planes, fs) == rows;
      assert forall i :: 0 <= i < n ==> fs[..n][i] == fs[i];
      MotionRowsWellFormed(task, planes[..n], fs[..n]);
      MotionRowsFields(task, planes[..n], fs[..n]);
      PlaneRowsWellFormed(task, fs[n], planes[n]);
      // every earlier row carries the field of an earlier plane, which differs from fs[n]
      assert fs[n] !in fs[..n];
      UniqueAppend(prev.rigid, cur.rigid, RigidKey);
      UniqueAppend(prev.nonRigid, cur.nonRigid, NonRigidKey);
      UniqueAppend(prev.blocks, cur.blocks, BlockKey);
      forall b | b in rows.blocks
        ensures (b.task, b.field) in NonRigidKeys(rows.nonRigid)
      {
        if b in prev.blocks {
          var r :| r in prev.nonRigid && NonRigidKey(r) == (b.task, b.field);
          assert r in rows.nonRigid;
        } else {
          var r :| r in cur.nonRigid && NonRigidKey(r) == (b.task, b.field);
          assert r in rows.nonRigid;
        }
      }
    }
  }

  /** A successful make resolved one distinct field per plane, and its rows are well formed. */
  lemma MotionCorrectionMakeOk(processingMethod: string, fields: seq<FieldRow>, key: TaskKey, planes: seq<Plane>)
    requires FieldKeysUnique(fields) && PlaneIdsDistinct(planes)
    requires MotionCorrectionMake(processingMethod, fields, key, planes).Ok?
    ensures processingMethod == Suite2p
    ensures MotionCorrectionMake(processingMethod, fields, key, planes).value.channel == PlaneWithId(planes, 0).value.alignmentChannel
    ensures RowsOf(key, MotionCorrectionMake(processingMethod, fields, key, planes).value.rows)
  {
    ResolvedFieldsDistinct(fields, key.scan, planes);
    MotionRowsWellFormed(key, planes, ResolveFields(fields, key.scan, planes).value);
  }
}
