/**
 * Fluorescence.make for suite2p: one master row, then per plane, in order, one
 * channel-0 trace per `zip(F, Fneu)` pair and, when `F_chan2` is non-empty, one
 * channel-1 trace per `zip(F_chan2, Fneu_chan2)` pair. Both channels of a plane are
 * numbered from the number of traces collected before that plane, channel-1 traces
 * included, and every trace must name an existing Segmentation.Cell.
 */
module Fluorescence {
  import opened Results
  import opened Records
  import opened Segmentation

  /** The number of channel-0 traces of a plane. */
  function FirstChannelCount(p: Plane): nat
  {
    Min(|p.f|, |p.fneu|)
  }

  /** The number of channel-1 traces of a plane: none when `F_chan2` is empty. */
  function SecondChannelCount(p: Plane): nat
  {
    if |p.fChan2| > 0 then Min(|p.fChan2|, |p.fneuChan2|) else 0
  }

  /** `enumerate(zip(fluo, neuropil))` turned into traces of `channel`, numbered from `offset`. */
  function ChannelTraces(task: TaskKey, offset: int, channel: int, fluo: seq<Blob>, neuropil: seq<Blob>): seq<TraceRow>
  {
    seq(Min(|fluo|, |neuropil|), j requires 0 <= j < Min(|fluo|, |neuropil|) =>
      TraceRow(task, offset + j, channel, fluo[j], neuropil[j]))
  }

  /** The traces one plane adds, `offset` being `len(fluo_traces)` before it. */
  function PlaneTraces(task: TaskKey, p: Plane, offset: int): seq<TraceRow>
  {
    ChannelTraces(task, offset, 0, p.f, p.fneu)
    + (if |p.fChan2| > 0 then ChannelTraces(task, offset, 1, p.fChan2, p.fneuChan2) else [])
  }

  /** The list `fluo_traces` after all planes. */
  function Traces(task: TaskKey, planes: seq<Plane>): seq<TraceRow>
    decreases |planes|
  {
    if planes == [] then []
    else
      var n := |planes| - 1;
      var prev := Traces(task, planes[..n]);
      prev + PlaneTraces(task, planes[n], |prev|)
  }

  /** The number of traces of all planes, both channels. */
  function TraceCount(planes: seq<Plane>): nat
    decreases |planes|
  {
    if planes == [] then 0
    else
      var n := |planes| - 1;
      TraceCount(planes[..n]) + FirstChannelCount(planes[n]) + SecondChannelCount(planes[n])
  }

  /** The Segmentation.Cell keys the traces point to. */
  function TraceParents(rows: seq<TraceRow>): set<(TaskKey, int)>
  {
    set t | t in rows :: (t.task, t.mask)
  }

  /** Every trace's `mask` fits the `smallint` column it takes from Segmentation.Mask. */
  predicate TracesInRange(rows: seq<TraceRow>)
  {
    forall t :: t in rows ==> t.mask <= MaxMask
  }

  /** What Fluorescence.make inserts, or why it fails; `cellKeys` are the keys of Segmentation.Cell. */
  function FluorescenceMake(processingMethod: string, cellKeys: set<(TaskKey, int)>, key: TaskKey, planes: seq<Plane>)
    : Result<seq<TraceRow>, MakeError>
  {
    if processingMethod != Suite2p then Err(NotImplemented(processingMethod))
    else
      var traces := Traces(key, planes);
      if !TracesInRange(traces) then Err(MaskOutOfRange)
      else if TraceParents(traces) <= cellKeys then Ok(traces)
      else Err(MissingCell)
  }

  /** One inner loop over `enumerate(zip(fluo, neuropil))`: a trace of `channel` per pair, numbered from `offset`. */
  method AppendChannelTraces(fluoTraces: seq<TraceRow>, task: TaskKey, offset: int, channel: int,
                             fluo: seq<Blob>, neuropil: seq<Blob>) returns (r: seq<TraceRow>)
    ensures r == fluoTraces + ChannelTraces(task, offset, channel, fluo, neuropil)
  {
    ghost var added := ChannelTraces(task, offset, channel, fluo, neuropil);
    r := fluoTraces;
    var j := 0;
    while j < Min(|fluo|, |neuropil|)
      invariant 0 <= j <= Min(|fluo|, |neuropil|)
      invariant r == fluoTraces + added[..j]
    {
      assert added[..j + 1] == added[..j] + [added[j]];
      r := r + [TraceRow(task, offset + j, channel, fluo[j], neuropil[j])];
      j := j + 1;
    }
    assert added[..j] == added;
  }

  /** One more plane appends its traces, numbered from the number of traces before it. */
  lemma TracesStep(task: TaskKey, planes: seq<Plane>, i: nat)
    requires i < |planes|
    ensures var prev := Traces(task, planes[..i]);
      Traces(task, planes[..i + 1]) == prev + PlaneTraces(task, planes[i], |prev|)
  {
    assert planes[..i + 1][..i] == planes[..i];
  }

  /** One pass of the plane loop: channel 0, then channel 1 when `F_chan2` is non-empty, both numbered from `len(fluo_traces)`. */
  method AppendPlaneTraces(fluoTraces: seq<TraceRow>, task: TaskKey, s2p: Plane) returns (r: seq<TraceRow>)
    ensures r == fluoTraces + PlaneTraces(task, s2p, |fluoTraces|)
  {
    var maskCount := |fluoTraces|;
    r := AppendChannelTraces(fluoTraces, task, maskCount, 0, s2p.f, s2p.fneu);
    if |s2p.fChan2| > 0 {
      r := AppendChannelTraces(r, task, maskCount, 1, s2p.fChan2, s2p.fneuChan2);
    }
  }

  /** Fluorescence.make up to its insert: the method check, the loops building `fluo_traces`, and the Cell check of the insert. */
  method ComputeFluorescence(processingMethod: string, cellKeys: set<(TaskKey, int)>, key: TaskKey, planes: seq<Plane>)
    returns (r: Result<seq<TraceRow>, MakeError>)
    ensures r == FluorescenceMake(processingMethod, cellKeys, key, planes)
  {
    if processingMethod != Suite2p {
      return Err(NotImplemented(processingMethod));
    }
    var fluoTraces: seq<TraceRow> := [];
    var i := 0;
    while i < |planes|
      invariant 0 <= i <= |planes|
      invariant Traces(key, planes[..i]) == fluoTraces
    {
      TracesStep(key, planes, i);
      fluoTraces := AppendPlaneTraces(fluoTraces, key, planes[i]);
      i := i + 1;
    }
    assert planes[..i] == planes;
    if !TracesInRange(fluoTraces) {
      return Err(MaskOutOfRange);
    }
    if !(TraceParents(fluoTraces) <= cellKeys) {
      return Err(MissingCell);
    }
    return Ok(fluoTraces);
  }

  /** The make fails exactly when some trace's `mask` is out of the column's range or names a mask without a Cell row. */
  lemma FluorescenceMakeFails(cellKeys: set<(TaskKey, int)>, key: TaskKey, planes: seq<Plane>)
    ensures FluorescenceMake(Suite2p, cellKeys, key, planes).Err? <==>
      exists t :: t in Traces(key, planes) && (t.mask > MaxMask || (key, t.mask) !in cellKeys)
  {
    var traces := Traces(key, planes);
    TracesShape(key, planes);
    if !(TraceParents(traces) <= cellKeys) {
      var k :| k in TraceParents(traces) && k !in cellKeys;
      var t :| t in traces && (t.task, t.mask) == k;
    }
  }

  /**
   * At most as many traces as ids 0..MaxMask never hit the `smallint` bound; without a second
   * channel, the bound is hit exactly when there are more traces than that.
   */
  lemma TracesOutOfRange(cellKeys: set<(TaskKey, int)>, key: TaskKey, planes: seq<Plane>)
    ensures TraceCount(planes) <= MaxMask + 1 ==> FluorescenceMake(Suite2p, cellKeys, key, planes) != Err(MaskOutOfRange)
    ensures (forall i :: 0 <= i < |planes| ==> |planes[i].fChan2| == 0) ==>
      (FluorescenceMake(Suite2p, cellKeys, key, planes) == Err(MaskOutOfRange) <==> TraceCount(planes) > MaxMask + 1)
  {
    var traces := Traces(key, planes);
    TracesShape(key, planes);
    if forall i :: 0 <= i < |planes| ==> |planes[i].fChan2| == 0 {
      SingleChannelNumbering(key, planes);
      if TraceCount(planes) > MaxMask + 1 {
        assert traces[MaxMask + 1] in traces;
      }
    }
  }

  /** The traces of one plane: as many as its pairs, all of `task`, numbered from `offset` up. */
  lemma PlaneTracesShape(task: TaskKey, p: Plane, offset: int)
    ensures |PlaneTraces(task, p, offset)| == FirstChannelCount(p) + SecondChannelCount(p)
    ensures forall t :: t in PlaneTraces(task, p, offset) ==>
      t.task == task && offset <= t.mask < offset + |PlaneTraces(task, p, offset)|
    ensures Unique(PlaneTraces(task, p, offset), TraceKey)
  {
    var first := ChannelTraces(task, offset, 0, p.f, p.fneu);
    var second: seq<TraceRow> := if |p.fChan2| > 0 then ChannelTraces(task, offset, 1, p.fChan2, p.fneuChan2) else [];
    assert PlaneTraces(task, p, offset) == first + second;
    forall t | t in first + second
      ensures t.task == task && offset <= t.mask < offset + |first + second|
    {
      if t in first {
        var j :| 0 <= j < |first| && first[j] == t;
      } else {
        var j :| 0 <= j < |second| && second[j] == t;
      }
    }
    UniqueAppend(first, second, TraceKey);
  }

  /** There are as many traces as channel-0 and channel-1 pairs, all of `task`, with ids below the number of traces. */
  lemma {:induction false} TracesShape(task: TaskKey, planes: seq<Plane>)
    ensures |Traces(task, planes)| == TraceCount(planes)
    ensures forall t :: t in Traces(task, planes) ==> t.task == task && 0 <= t.mask < |Traces(task, planes)|
    decreases |planes|
  {
    if planes != [] {
      var n := |planes| - 1;
      var prev := Traces(task, planes[..n]);
      var cur := PlaneTraces(task, planes[n], |prev|);
      TracesShape(task, planes[..n]);
      PlaneTracesShape(task, planes[n], |prev|);
      assert Traces(task, planes) == prev + cur;
    }
  }

  /** The prefix of the planes gives a prefix of the traces. */
  lemma {:induction false} TracesPrefix(task: TaskKey, planes: seq<Plane>, k: nat)
    requires k <= |planes|
    ensures Traces(task, planes[..k]) <= Traces(task, planes)
    decreases |planes|
  {
    if k < |planes| {
      var n := |planes| - 1;
      assert planes[..n][..k] == planes[..k];
      TracesPrefix(task, planes[..n], k);
    } else {
      assert planes[..k] == planes;
    }
  }

  /** Plane `k`'s traces come right after those of the planes before it, numbered from the number of traces so far. */
  lemma PlaneTracesInPlace(task: TaskKey, planes: seq<Plane>, k: nat)
    requires k < |planes|
    ensures var before := Traces(task, planes[..k]);
      before + PlaneTraces(task, planes[k], |before|) <= Traces(task, planes)
  {
    assert planes[..k + 1][..k] == planes[..k];
    TracesPrefix(task, planes, k + 1);
  }

  /**
   * Where a plane's traces sit after `before`, the traces collected so far: first its
   * channel-0 traces, then its channel-1 traces, both numbered from `len(fluo_traces)`
   * at the start of the plane, so a channel-1 trace shares its id with the channel-0
   * trace of the same position.
   */
  lemma PlaneTracesAfter(traces: seq<TraceRow>, before: seq<TraceRow>, task: TaskKey, p: Plane)
    requires before + PlaneTraces(task, p, |before|) <= traces
    ensures |before| + FirstChannelCount(p) + SecondChannelCount(p) <= |traces|
    ensures forall j :: 0 <= j < FirstChannelCount(p) ==>
      traces[|before| + j] == TraceRow(task, |before| + j, 0, p.f[j], p.fneu[j])
    ensures forall j :: 0 <= j < SecondChannelCount(p) ==>
      traces[|before| + FirstChannelCount(p) + j] == TraceRow(task, |before| + j, 1, p.fChan2[j], p.fneuChan2[j])
  {
    var first := ChannelTraces(task, |before|, 0, p.f, p.fneu);
    var second := if |p.fChan2| > 0 then ChannelTraces(task, |before|, 1, p.fChan2, p.fneuChan2) else [];
    var cur := PlaneTraces(task, p, |before|);
    assert cur == first + second;
    assert |first| == FirstChannelCount(p) && |second| == SecondChannelCount(p);
    var whole := before + cur;
    forall j | 0 <= j < FirstChannelCount(p)
      ensures traces[|before| + j] == TraceRow(task, |before| + j, 0, p.f[j], p.fneu[j])
    {
      assert traces[|before| + j] == whole[|before| + j] == cur[j] == first[j];
    }
    forall j | 0 <= j < SecondChannelCount(p)
      ensures traces[|before| + FirstChannelCount(p) + j] == TraceRow(task, |before| + j, 1, p.fChan2[j], p.fneuChan2[j])
    {
      assert traces[|before| + |first| + j] == whole[|before| + |first| + j] == cur[|first| + j] == second[j];
    }
  }

  /** No two traces share a (mask, channel) key, whatever the channel-1 traces do to the numbering. */
  lemma {:induction false} TraceKeysUnique(task: TaskKey, planes: seq<Plane>)
    ensures Unique(Traces(task, planes), TraceKey)
    decreases |planes|
  {
    if planes != [] {
      var n := |planes| - 1;
      var prev := Traces(task, planes[..n]);
      var cur := PlaneTraces(task, planes[n], |prev|);
      TraceKeysUnique(task, planes[..n]);
      TracesShape(task, planes[..n]);
      PlaneTracesShape(task, planes[n], |prev|);
      forall x, y | x in prev && y in cur ensures TraceKey(x) != TraceKey(y) {
        assert x.mask < |prev| <= y.mask;
      }
      UniqueAppend(prev, cur, TraceKey);
      assert Traces(task, planes) == prev + cur;
    }
  }

  /** Without a second channel, trace `i` is the channel-0 trace of mask `i`. */
  lemma {:induction false} SingleChannelNumbering(task: TaskKey, planes: seq<Plane>)
    requires forall i :: 0 <= i < |planes| ==> |planes[i].fChan2| == 0
    ensures forall i :: 0 <= i < |Traces(task, planes)| ==>
      Traces(task, planes)[i].mask == i && Traces(task, planes)[i].channel == 0
    decreases |planes|
  {
    if planes != [] {
      var n := |planes| - 1;
      var prev := Traces(task, planes[..n]);
      var cur := PlaneTraces(task, planes[n], |prev|);
      SingleChannelNumbering(task, planes[..n]);
      var traces: seq<TraceRow> := prev + cur;
      forall i | |prev| <= i < |traces|
        ensures traces[i].mask == i && traces[i].channel == 0
      {
        assert traces[i] == cur[i - |prev|];
      }
    }
  }

  /** When every plane has as many traces as masks, the trace and mask totals agree. */
  lemma {:induction false} CountsAgree(planes: seq<Plane>)
    requires forall i :: 0 <= i < |planes| ==> |planes[i].fChan2| == 0 && FirstChannelCount(planes[i]) == MaskCount(planes[i])
    ensures TraceCount(planes) == TotalMasks(planes)
    decreases |planes|
  {
    if planes != [] {
      CountsAgree(planes[..|planes| - 1]);
    }
  }

  /**
   * With no second channel and as many traces as masks in every plane, trace `i` names
   * mask `i` of the Segmentation list, so every trace finds its Cell row and the make succeeds.
   */
  lemma TraceIdsAreMaskIds(task: TaskKey, planes: seq<Plane>, fs: seq<int>)
    requires |fs| == |planes| && TotalMasks(planes) <= MaxMask + 1
    requires forall i :: 0 <= i < |planes| ==> |planes[i].fChan2| == 0 && FirstChannelCount(planes[i]) == MaskCount(planes[i])
    ensures var traces := Traces(task, planes);
      var masks := Entries(task, planes, fs);
      |traces| == |masks|
      && (forall i :: 0 <= i < |traces| ==> traces[i].mask == masks[i].mask && traces[i].channel == 0)
      && FluorescenceMake(Suite2p, CellKeys(CellRows(masks)), task, planes) == Ok(traces)
  {
    var traces := Traces(task, planes);
    var masks := Entries(task, planes, fs);
    TracesShape(task, planes);
    CountsAgree(planes);
    EntriesNumbering(task, planes, fs);
    EntriesKeysUnique(task, planes, fs);
    MaskAndCellRowsAgree(masks);
    SingleChannelNumbering(task, planes);
    forall k | k in TraceParents(traces) ensures k in CellKeys(CellRows(masks)) {
      var t :| t in traces && (t.task, t.mask) == k;
      assert k in set i | 0 <= i < TotalMasks(planes) :: (task, i);
    }
  }

  /**
   * As written, a second channel on the first plane shifts the ids of the next plane's
   * traces past the masks Segmentation numbered, so the make fails on the missing Cell.
   */
  lemma SecondChannelShiftsIds(task: TaskKey, p0: Plane, p1: Plane, fs: seq<int>)
    requires |fs| == 2
    requires FirstChannelCount(p0) == MaskCount(p0) && FirstChannelCount(p1) == MaskCount(p1)
    requires SecondChannelCount(p0) > 0 && MaskCount(p1) > 0
    requires TraceCount([p0, p1]) <= MaxMask + 1
    ensures FluorescenceMake(Suite2p, CellKeys(CellRows(Entries(task, [p0, p1], fs))), task, [p0, p1]) == Err(MissingCell)
  {
    var planes := [p0, p1];
    var masks := Entries(task, planes, fs);
    var traces := Traces(task, planes);
    TracesShape(task, planes);
    assert TracesInRange(traces);
    EntriesKeysUnique(task, planes, fs);
    MaskAndCellRowsAgree(masks);
    PlaneTracesInPlace(task, planes, 1);
    PlaneTracesAfter(traces, Traces(task, planes[..1]), task, p1);
    assert planes[..1] == [p0] && [p0][..0] == [];
    assert TotalMasks([p0]) == MaskCount(p0);
    assert TotalMasks(planes) == MaskCount(p0) + MaskCount(p1);
    var offset := |Traces(task, planes[..1])|;
    TracesShape(task, planes[..1]);
    assert offset == FirstChannelCount(p0) + SecondChannelCount(p0);
    var j := FirstChannelCount(p1) - 1;
    var t := traces[offset + j];
    assert t == TraceRow(task, offset + j, 0, p1.f[j], p1.fneu[j]);
    assert t in traces;
    assert (task, t.mask) in TraceParents(traces);
    assert (task, t.mask) !in set i | 0 <= i < TotalMasks(planes) :: (task, i);
  }
}
