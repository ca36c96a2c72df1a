/**
 * Segmentation.make for suite2p: one master row carrying the segmentation channel of
 * plane 0, then one dictionary per mask of every plane, in plane order, numbered
 * from the count of masks collected before that plane; the Mask rows and the Cell
 * rows are both projections of that one list.
 */
module Segmentation {
  import opened Results
  import opened Records
  import opened Fetch

  /** How many masks a plane contributes: `zip(iscell, cell_prob, stat)` stops at the shortest. */
  function MaskCount(p: Plane): nat
  {
    Min(Min(|p.iscell|, |p.cellProb|), |p.stat|)
  }

  /** The dictionary built for the `j`-th mask of plane `p`, numbered `id`; `bool(is_cell)` holds for a non-zero flag. */
  function EntryOf(task: TaskKey, field: int, id: int, p: Plane, j: nat): MaskEntry
    requires j < MaskCount(p)
  {
    var stat := p.stat[j];
    MaskEntry(task, id, field, p.iscell[j] != 0.0, p.cellProb[j],
              stat.npix, stat.med.1, stat.med.0, stat.xpix, stat.ypix, stat.lam)
  }

  /** The dictionaries of one plane, numbered from `offset`. */
  function PlaneEntries(task: TaskKey, field: int, p: Plane, offset: int): seq<MaskEntry>
  {
    seq(MaskCount(p), j requires 0 <= j < MaskCount(p) => EntryOf(task, field, offset + j, p, j))
  }

  /** The list `masks` after all planes, `fs[i]` being the field of `planes[i]`. */
  function Entries(task: TaskKey, planes: seq<Plane>, fs: seq<int>): seq<MaskEntry>
    requires |fs| == |planes|
    decreases |planes|
  {
    if planes == [] then []
    else
      var n := |planes| - 1;
      var prev := Entries(task, planes[..n], fs[..n]);
      prev + PlaneEntries(task, fs[n], planes[n], |prev|)
  }

  /** The number of masks of all planes. */
  function TotalMasks(planes: seq<Plane>): nat
    decreases |planes|
  {
    if planes == [] then 0
    else TotalMasks(planes[..|planes| - 1]) + MaskCount(planes[|planes| - 1])
  }

  function MaskRowOf(e: MaskEntry): MaskRow
  {
    MaskRow(e.task, e.mask, e.field, e.npix, e.centerX, e.centerY, e.xpix, e.ypix, e.weights)
  }

  function CellRowOf(e: MaskEntry): CellRow
  {
    CellRow(e.task, e.mask, e.isCell, e.cellProb)
  }

  /** `Mask.insert(masks, ignore_extra_fields=True)`: the Mask columns of every dictionary. */
  function MaskRows(es: seq<MaskEntry>): seq<MaskRow>
  {
    seq(|es|, i requires 0 <= i < |es| => MaskRowOf(es[i]))
  }

  /** `Cell.insert(masks, ignore_extra_fields=True)`: the Cell columns of every dictionary. */
  function CellRows(es: seq<MaskEntry>): seq<CellRow>
  {
    seq(|es|, i requires 0 <= i < |es| => CellRowOf(es[i]))
  }

  /** Every `mask` fits the `smallint` column, so `Mask.insert` accepts the list. */
  predicate MasksInRange(es: seq<MaskEntry>)
  {
    forall e :: e in es ==> e.mask <= MaxMask
  }

  /** What Segmentation.make inserts: the `seg_channel` of the master row and the mask dictionaries. */
  datatype SegmentationWrite = SegmentationWrite(channel: int, entries: seq<MaskEntry>)

  function SegmentationMake(processingMethod: string, fields: seq<FieldRow>, key: TaskKey, planes: seq<Plane>)
    : Result<SegmentationWrite, MakeError>
  {
    if processingMethod != Suite2p then Err(NotImplemented(processingMethod))
    else match PlaneWithId(planes, 0)
      case None => Err(NoPlaneZero)
      case Some(p0) =>
        match ResolveFields(fields, key.scan, planes)
        case Err(e) => Err(e)
        case Ok(fs) =>
          var es := Entries(key, planes, fs);
          if MasksInRange(es) then Ok(SegmentationWrite(p0.segmentationChannel, es)) else Err(MaskOutOfRange)
  }

  /** The inner loop over `zip(iscell, cell_prob, stat)`: one dictionary per mask, numbered on from `len(masks)`. */
  method AppendPlaneMasks(masks: seq<MaskEntry>, task: TaskKey, field: int, p: Plane) returns (r: seq<MaskEntry>)
    ensures r == masks + PlaneEntries(task, field, p, |masks|)
  {
    ghost var planeEntries := PlaneEntries(task, field, p, |masks|);
    r := masks;
    var j := 0;
    while j < MaskCount(p)
      invariant 0 <= j <= MaskCount(p)
      invariant r == masks + planeEntries[..j]
    {
      assert planeEntries[..j + 1] == planeEntries[..j] + [planeEntries[j]];
      r := r + [EntryOf(task, field, |masks| + j, p, j)];
      j := j + 1;
    }
    assert planeEntries[..j] == planeEntries;
  }

  /** One more plane appends its dictionaries, numbered on from the masks before it. */
  lemma EntriesStep(task: TaskKey, planes: seq<Plane>, fs: seq<int>, f: int)
    requires |fs| < |planes|
    ensures var i := |fs|;
      var prev := Entries(task, planes[..i], fs);
      Entries(task, planes[..i + 1], fs + [f]) == prev + PlaneEntries(task, f, planes[i], |prev|)
  {
    var i := |fs|;
    assert planes[..i + 1][..i] == planes[..i];
    assert (fs + [f])[..i] == fs;
  }

  /** Segmentation.make up to its inserts: the method check, plane 0's channel, and the nested loops building `masks`. */
  method ComputeSegmentation(processingMethod: string, fields: seq<FieldRow>, key: TaskKey, planes: seq<Plane>)
    returns (r: Result<SegmentationWrite, MakeError>)
    ensures r == SegmentationMake(processingMethod, fields, key, planes)
  {
    if processingMethod != Suite2p {
      return Err(NotImplemented(processingMethod));
    }
    var plane0 := PlaneWithId(planes, 0);
    if plane0.None? {
      return Err(NoPlaneZero);
    }
    var channel := plane0.value.segmentationChannel;
    ghost var fs: seq<int> := [];
    var masks: seq<MaskEntry> := [];
    var i := 0;
    while i < |planes|
      invariant 0 <= i <= |planes| && |fs| == i
      invariant ResolveFields(fields, key.scan, planes[..i]) == Ok(fs)
      invariant Entries(key, planes[..i], fs) == masks
    {
      var s2p := planes[i];
      var field := FetchField(fields, key.scan, s2p.plane);
      ResolveFieldsStep(fields, key.scan, planes, fs, i);
      if field.Err? {
        ResolveFieldsErrSticks(fields, key.scan, planes, i + 1);
        return Err(field.error);
      }
      EntriesStep(key, planes, fs, field.value);
      masks := AppendPlaneMasks(masks, key, field.value, s2p);
      fs := fs + [field.value];
      i := i + 1;
    }
    assert planes[..i] == planes;
    if !MasksInRange(masks) {
      return Err(MaskOutOfRange);
    }
    return Ok(SegmentationWrite(channel, masks));
  }

  /** The mask ids are exactly 0..N-1 in list order, N being the number of masks of all planes. */
  lemma {:induction false} EntriesNumbering(task: TaskKey, planes: seq<Plane>, fs: seq<int>)
    requires |fs| == |planes|
    ensures var es := Entries(task, planes, fs);
      |es| == TotalMasks(planes)
      && forall i :: 0 <= i < |es| ==> es[i].mask == i && es[i].task == task
    decreases |planes|
  {
    if planes != [] {
      var n := |planes| - 1;
      var prev := Entries(task, planes[..n], fs[..n]);
      var cur := PlaneEntries(task, fs[n], planes[n], |prev|);
      EntriesNumbering(task, planes[..n], fs[..n]);
      assert planes[..n] == planes[..|planes| - 1];
      var es: seq<MaskEntry> := prev + cur;
      assert es == Entries(task, planes, fs);
      forall i | |prev| <= i < |es|
        ensures es[i].mask == i && es[i].task == task
      {
        var j := i - |prev|;
        assert es[i] == cur[j] == EntryOf(task, fs[n], |prev| + j, planes[n], j);
      }
    }
  }

  /** The prefix of the planes gives a prefix of the list. */
  lemma {:induction false} EntriesPrefix(task: TaskKey, planes: seq<Plane>, fs: seq<int>, k: nat)
    requires |fs| == |planes| && k <= |planes|
    ensures Entries(task, planes[..k], fs[..k]) <= Entries(task, planes, fs)
    decreases |planes|
  {
    if k < |planes| {
      var n := |planes| - 1;
      assert planes[..n][..k] == planes[..k] && fs[..n][..k] == fs[..k];
      EntriesPrefix(task, planes[..n], fs[..n], k);
    } else {
      assert planes[..k] == planes && fs[..k] == fs;
    }
  }

  /**
   * The `j`-th mask of plane `k` is numbered by the masks of the planes before it plus `j`,
   * and carries `bool(iscell[j])`, `cell_prob[j]`, and the `npix`, `med[1]` as `center_x`,
   * `med[0]` as `center_y`, `xpix`, `ypix` and `lam` of `stat[j]`.
   */
  lemma EntriesOfPlane(task: TaskKey, planes: seq<Plane>, fs: seq<int>, k: nat, j: nat)
    requires |fs| == |planes| && k < |planes| && j < MaskCount(planes[k])
    ensures var es := Entries(task, planes, fs);
      var id := TotalMasks(planes[..k]) + j;
      var p := planes[k];
      id < |es|
      && es[id] == MaskEntry(task, id, fs[k], p.iscell[j] != 0.0, p.cellProb[j],
                             p.stat[j].npix, p.stat[j].med.1, p.stat[j].med.0,
                             p.stat[j].xpix, p.stat[j].ypix, p.stat[j].lam)
  {
    EntriesAt(task, planes, fs, k, j);
  }

  /**
   * The `j`-th mask of plane `k` is the `j`-th dictionary built for that plane, numbered from
   * the masks before it, and its id lies below the masks of planes `0..k`.
   */
  lemma EntriesAt(task: TaskKey, planes: seq<Plane>, fs: seq<int>, k: nat, j: nat)
    requires |fs| == |planes| && k < |planes| && j < MaskCount(planes[k])
    ensures var id := TotalMasks(planes[..k]) + j;
      id < TotalMasks(planes[..k + 1])
      && id < |Entries(task, planes, fs)| && Entries(task, planes, fs)[id] == EntryOf(task, fs[k], id, planes[k], j)
  {
    MaskIdBelowPlaneTotal(planes, k, j);
    var upto := Entries(task, planes[..k + 1], fs[..k + 1]);
    var before := Entries(task, planes[..k], fs[..k]);
    var cur := PlaneEntries(task, fs[k], planes[k], |before|);
    assert planes[..k + 1][..k] == planes[..k] && fs[..k + 1][..k] == fs[..k];
    assert upto == before + cur;
    EntriesNumbering(task, planes[..k], fs[..k]);
    EntriesPrefix(task, planes, fs, k + 1);
    PrefixAt(upto, Entries(task, planes, fs), |before| + j);
  }

  /** Plane `k` adds its own masks to the total, so its `j`-th id lies below the total of planes `0..k`. */
  lemma MaskIdBelowPlaneTotal(planes: seq<Plane>, k: nat, j: nat)
    requires k < |planes| && j < MaskCount(planes[k])
    ensures TotalMasks(planes[..k]) + j < TotalMasks(planes[..k + 1])
  {
    assert planes[..k + 1][..k] == planes[..k];
  }

  /** An element of a prefix is the element of the whole sequence at the same index. */
  lemma PrefixAt<T>(prefix: seq<T>, whole: seq<T>, i: nat)
    requires prefix <= whole && i < |prefix|
    ensures i < |whole| && whole[i] == prefix[i]
  {
  }

  /** The Mask rows and the Cell rows come from one list: same keys at every position, `is_cell` and `cell_prob` of that mask. */
  lemma MaskAndCellRowsAgree(es: seq<MaskEntry>)
    ensures |MaskRows(es)| == |CellRows(es)| == |es|
    ensures forall i :: 0 <= i < |es| ==>
      MaskKey(MaskRows(es)[i]) == CellKey(CellRows(es)[i]) == (es[i].task, es[i].mask)
      && CellRows(es)[i].isCell == es[i].isCell && CellRows(es)[i].cellProb == es[i].cellProb
    ensures MaskKeys(MaskRows(es)) == CellKeys(CellRows(es))
  {
    var ms := MaskRows(es);
    var cs := CellRows(es);
    forall key | key in MaskKeys(ms) ensures key in CellKeys(cs) {
      var m :| m in ms && MaskKey(m) == key;
      var i :| 0 <= i < |ms| && ms[i] == m;
      assert cs[i] in cs;
    }
    forall key | key in CellKeys(cs) ensures key in MaskKeys(ms) {
      var c :| c in cs && CellKey(c) == key;
      var i :| 0 <= i < |cs| && cs[i] == c;
      assert ms[i] in ms;
    }
  }

  function MaskKeys(rows: seq<MaskRow>): set<(TaskKey, int)>
  {
    set m | m in rows :: MaskKey(m)
  }

  function CellKeys(rows: seq<CellRow>): set<(TaskKey, int)>
  {
    set c | c in rows :: CellKey(c)
  }

  /** The masks of one make carry ids 0..N-1 without collisions, so both part tables keep unique keys. */
  lemma EntriesKeysUnique(task: TaskKey, planes: seq<Plane>, fs: seq<int>)
    requires |fs| == |planes|
    ensures var es := Entries(task, planes, fs);
      Unique(MaskRows(es), MaskKey) && Unique(CellRows(es), CellKey)
      && (forall m :: m in MaskRows(es) ==> m.task == task)
      && MaskKeys(MaskRows(es)) == set i | 0 <= i < TotalMasks(planes) :: (task, i)
  {
    var es := Entries(task, planes, fs);
    EntriesNumbering(task, planes, fs);
    MaskAndCellRowsAgree(es);
    var ms := MaskRows(es);
    forall key | key in set i | 0 <= i < TotalMasks(planes) :: (task, i)
      ensures key in MaskKeys(ms)
    {
      var i :| 0 <= i < TotalMasks(planes) && key == (task, i);
      assert ms[i] in ms;
    }
  }

  /** A successful make read the segmentation channel of plane 0 and numbered all masks of all planes. */
  lemma SegmentationMakeOk(processingMethod: string, fields: seq<FieldRow>, key: TaskKey, planes: seq<Plane>)
    requires SegmentationMake(processingMethod, fields, key, planes).Ok?
    ensures processingMethod == Suite2p
    ensures var w := SegmentationMake(processingMethod, fields, key, planes).value;
      w.channel == PlaneWithId(planes, 0).value.segmentationChannel
      && |w.entries| == TotalMasks(planes) <= MaxMask + 1
      && (forall i :: 0 <= i < |w.entries| ==> w.entries[i].mask == i && w.entries[i].task == key)
  {
    EntriesInRange(key, planes, ResolveFields(fields, key.scan, planes).value);
    EntriesNumbering(key, planes, ResolveFields(fields, key.scan, planes).value);
  }

  /** A make that returns normally writes the mask list of the planes' resolved fields. */
  lemma SegmentationWriteEntries(processingMethod: string, fields: seq<FieldRow>, key: TaskKey, planes: seq<Plane>,
                                 w: SegmentationWrite)
    requires SegmentationMake(processingMethod, fields, key, planes) == Ok(w)
    ensures ResolveFields(fields, key.scan, planes).Ok?
    ensures w.entries == Entries(key, planes, ResolveFields(fields, key.scan, planes).value)
  {
  }

  /** The list fits the `smallint` column exactly when there are no more masks than ids 0..MaxMask. */
  lemma EntriesInRange(task: TaskKey, planes: seq<Plane>, fs: seq<int>)
    requires |fs| == |planes|
    ensures MasksInRange(Entries(task, planes, fs)) <==> TotalMasks(planes) <= MaxMask + 1
  {
    var es := Entries(task, planes, fs);
    EntriesNumbering(task, planes, fs);
    if |es| > MaxMask + 1 {
      assert es[MaxMask + 1] in es;
    }
  }

  /** The make fails on the `smallint` column exactly when plane 0 exists, every lookup succeeds, and there are more masks than ids 0..MaxMask. */
  lemma SegmentationOutOfRange(fields: seq<FieldRow>, key: TaskKey, planes: seq<Plane>)
    ensures SegmentationMake(Suite2p, fields, key, planes) == Err(MaskOutOfRange) <==>
      PlaneWithId(planes, 0).Some? && ResolveFields(fields, key.scan, planes).Ok? && TotalMasks(planes) > MaxMask + 1
  {
    var resolved := ResolveFields(fields, key.scan, planes);
    if resolved.Ok? {
      EntriesInRange(key, planes, resolved.value);
    } else {
      ResolveFieldsFirstError(fields, key.scan, planes);
      var k :| FirstFailure(fields, key.scan, planes, k, resolved.error);
    }
  }


  /** A plane with one mask per entry of `flags`, flagged by them. */
  function SamplePlane(id: int, flags: seq<real>): Plane
  {
    var stat := Stat(4, (10 * id, 20 * id), [], [], []);
    var ops := Ops([], [], [], false, (0, 0), (0, 0), [], [], [], []);
    Plane(id, 0, 0, ops, [], [], [], [],
          flags, seq(|flags|, _ => 0.5), seq(|flags|, _ => stat),
          [], [], [], [])
  }

  /** Each mask of a sample plane is a cell exactly when its flag is non-zero. */
  lemma SampleFlags(task: TaskKey, field: int, id: int, flags: seq<real>, offset: int)
    ensures var es := PlaneEntries(task, field, SamplePlane(id, flags), offset);
      |es| == |flags| && forall j :: 0 <= j < |flags| ==> es[j].isCell == (flags[j] != 0.0)
  {
    var p := SamplePlane(id, flags);
    assert MaskCount(p) == |flags|;
    var es := PlaneEntries(task, field, p, offset);
    forall j | 0 <= j < |flags|
      ensures es[j].isCell == (flags[j] != 0.0)
    {
      assert es[j] == EntryOf(task, field, offset + j, p, j);
    }
  }

  /** Two planes of 3 and 2 masks give masks 0..4, the second plane's first mask being 3, with `bool` of each flag. */
  lemma TwoPlaneNumbering(task: TaskKey)
    ensures var es := Entries(task, [SamplePlane(0, [1.0, 0.0, 1.0]), SamplePlane(1, [1.0, 1.0])], [5, 6]);
      |es| == 5
      && (forall i :: 0 <= i < 5 ==> es[i].mask == i)
      && es[3].field == 6 && es[2].field == 5
      && [es[0].isCell, es[1].isCell, es[2].isCell, es[3].isCell, es[4].isCell] == [true, false, true, true, true]
  {
    var p0, p1 := SamplePlane(0, [1.0, 0.0, 1.0]), SamplePlane(1, [1.0, 1.0]);
    var planes := [p0, p1];
    var fs := [5, 6];
    assert MaskCount(p0) == 3 && MaskCount(p1) == 2;
    EntriesNumbering(task, planes, fs);
    assert planes[..1] == [p0] && fs[..1] == [5];
    assert planes[..1][..0] == [] && fs[..1][..0] == [];
    var first := PlaneEntries(task, 5, p0, 0);
    assert Entries(task, planes[..1], fs[..1]) == first;
    var second := PlaneEntries(task, 6, p1, 3);
    var es := Entries(task, planes, fs);
    assert es == first + second;
    SampleFlags(task, 5, 0, [1.0, 0.0, 1.0], 0);
    SampleFlags(task, 6, 1, [1.0, 1.0], 3);
    assert second[0].field == 6;
    assert es[2] == first[2] && es[3] == second[0] && es[4] == second[1];
  }
}
