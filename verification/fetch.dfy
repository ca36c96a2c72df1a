/**
 * The two lookups the suite2p make steps do before building rows: the plane the
 * loader keys `0` (`s2p_loader.planes[0]`, read by MotionCorrection and Segmentation),
 * and, per plane, the ScanInfo.Field of the task's scan that images it
 * (`(ScanInfo.Field * ProcessingTask & key & {'plane': plane}).fetch1('KEY')`, done by
 * MotionCorrection, MotionCorrectedImages and Segmentation).
 */
module Fetch {
  import opened Results
  import opened Records

  /** `planes[id]` on the loader's dictionary. */
  function PlaneWithId(planes: seq<Plane>, id: int): (r: Option<Plane>)
    ensures r.Some? ==> r.value in planes && r.value.plane == id
    ensures r.None? <==> forall p :: p in planes ==> p.plane != id
    decreases |planes|
  {
    if planes == [] then None
    else if planes[0].plane == id then Some(planes[0])
    else PlaneWithId(planes[1..], id)
  }

  /** The ScanInfo.Field rows of `scan` imaging `plane`. */
  function MatchingFields(fields: seq<FieldRow>, scan: ScanId, plane: int): (r: seq<FieldRow>)
    ensures forall f :: f in r <==> f in fields && f.scan == scan && f.plane == plane
    decreases |fields|
  {
    if fields == [] then []
    else
      (if fields[0].scan == scan && fields[0].plane == plane then [fields[0]] else [])
      + MatchingFields(fields[1..], scan, plane)
  }

  /** The filter keeps every matching row as often as it occurs in `fields`, so `fetch1` sees each duplicate. */
  lemma {:induction false} MatchingFieldsMultiplicity(fields: seq<FieldRow>, scan: ScanId, plane: int)
    ensures forall f :: multiset(MatchingFields(fields, scan, plane))[f] ==
                        if f.scan == scan && f.plane == plane then multiset(fields)[f] else 0
    decreases |fields|
  {
    if fields != [] {
      MatchingFieldsMultiplicity(fields[1..], scan, plane);
      assert fields == [fields[0]] + fields[1..];
    }
  }

  /** `fetch1`: the field index of the one matching row; an error when there is none or more than one. */
  function FetchField(fields: seq<FieldRow>, scan: ScanId, plane: int): (r: Result<int, MakeError>)
    ensures r.Ok? <==> |MatchingFields(fields, scan, plane)| == 1
    ensures r.Ok? ==> FieldRow(scan, r.value, plane) in fields
    ensures r.Err? ==> r.error == FieldNotUnique(plane, |MatchingFields(fields, scan, plane)|)
  {
    var matches := MatchingFields(fields, scan, plane);
    if |matches| == 1 then
      assert matches[0] in matches;
      Ok(matches[0].field)
    else
      Err(FieldNotUnique(plane, |matches|))
  }

  /** The primary key of ScanInfo.Field, (scan, field), is unique. */
  predicate FieldKeysUnique(fields: seq<FieldRow>)
  {
    forall i, j :: 0 <= i < |fields| && 0 <= j < |fields| && i != j ==>
      fields[i].scan != fields[j].scan || fields[i].field != fields[j].field
  }

  /** Two planes of one scan that resolve to the same field are the same plane. */
  lemma FetchFieldInjective(fields: seq<FieldRow>, scan: ScanId, p1: int, p2: int)
    requires FieldKeysUnique(fields)
    requires FetchField(fields, scan, p1).Ok? && FetchField(fields, scan, p2).Ok?
    requires FetchField(fields, scan, p1).value == FetchField(fields, scan, p2).value
    ensures p1 == p2
  {
    var f := FetchField(fields, scan, p1).value;
    var i :| 0 <= i < |fields| && fields[i] == FieldRow(scan, f, p1);
    var j :| 0 <= j < |fields| && fields[j] == FieldRow(scan, f, p2);
    assert i == j;
  }

  /** The fields of `planes`, looked up one plane after the other, or the error of the first lookup that fails. */
  function ResolveFields(fields: seq<FieldRow>, scan: ScanId, planes: seq<Plane>): (r: Result<seq<int>, MakeError>)
    ensures r.Ok? ==> |r.value| == |planes|
    ensures r.Ok? ==> forall i :: 0 <= i < |planes| ==> FetchField(fields, scan, planes[i].plane) == Ok(r.value[i])
    decreases |planes|
  {
    if planes == [] then Ok([])
    else
      var n := |planes| - 1;
      match ResolveFields(fields, scan, planes[..n])
      case Err(e) => Err(e)
      case Ok(fs) =>
        match FetchField(fields, scan, planes[n].plane)
        case Err(e) => Err(e)
        case Ok(f) =>
          assert forall i :: 0 <= i < n ==> planes[..n][i] == planes[i];
          Ok(fs + [f])
  }

  /** One more plane: its lookup is appended to those before it, or its error ends the resolution. */
  lemma ResolveFieldsStep(fields: seq<FieldRow>, scan: ScanId, planes: seq<Plane>, fs: seq<int>, i: nat)
    requires i < |planes| && ResolveFields(fields, scan, planes[..i]) == Ok(fs)
    ensures ResolveFields(fields, scan, planes[..i + 1]) ==
      match FetchField(fields, scan, planes[i].plane)
      case Err(e) => Err(e)
      case Ok(f) => Ok(fs + [f])
  {
    assert planes[..i + 1][..i] == planes[..i];
  }

  /** Once the lookups of a prefix of the planes have failed, the whole resolution fails with that error. */
  lemma {:induction false} ResolveFieldsErrSticks(fields: seq<FieldRow>, scan: ScanId, planes: seq<Plane>, i: nat)
    requires i <= |planes| && ResolveFields(fields, scan, planes[..i]).Err?
    ensures ResolveFields(fields, scan, planes) == ResolveFields(fields, scan, planes[..i])
    decreases |planes|
  {
    if i < |planes| {
      var n := |planes| - 1;
      assert planes[..n][..i] == planes[..i];
      ResolveFieldsErrSticks(fields, scan, planes[..n], i);
    } else {
      assert planes[..i] == planes;
    }
  }

  /** Resolution succeeds exactly when every plane's lookup does. */
  lemma {:induction false} ResolveFieldsOkIff(fields: seq<FieldRow>, scan: ScanId, planes: seq<Plane>)
    ensures ResolveFields(fields, scan, planes).Ok? <==>
              forall i :: 0 <= i < |planes| ==> FetchField(fields, scan, planes[i].plane).Ok?
    decreases |planes|
  {
    if planes != [] {
      var n := |planes| - 1;
      ResolveFieldsOkIff(fields, scan, planes[..n]);
      assert forall i :: 0 <= i < n ==> planes[..n][i] == planes[i];
    }
  }

  /** `k` is the first plane whose lookup fails, and it fails with `e`. */
  predicate FirstFailure(fields: seq<FieldRow>, scan: ScanId, planes: seq<Plane>, k: int, e: MakeError)
  {
    0 <= k < |planes|
    && FetchField(fields, scan, planes[k].plane) == Err(e)
    && forall i :: 0 <= i < k ==> FetchField(fields, scan, planes[i].plane).Ok?
  }

  /** A failed resolution reports the error of the first plane whose lookup fails. */
  lemma {:induction false} ResolveFieldsFirstError(fields: seq<FieldRow>, scan: ScanId, planes: seq<Plane>)
    requires ResolveFields(fields, scan, planes).Err?
    ensures exists k :: FirstFailure(fields, scan, planes, k, ResolveFields(fields, scan, planes).error)
    decreases |planes|
  {
    var n := |planes| - 1;
    var e := ResolveFields(fields, scan, planes).error;
    if ResolveFields(fields, scan, planes[..n]).Err? {
      ResolveFieldsFirstError(fields, scan, planes[..n]);
      var k :| FirstFailure(fields, scan, planes[..n], k, e);
      assert planes[..n][k] == planes[k];
      assert forall i :: 0 <= i < k ==> planes[..n][i] == planes[i];
      assert FirstFailure(fields, scan, planes, k, e);
    } else {
      assert forall i :: 0 <= i < n ==> FetchField(fields, scan, planes[i].plane).Ok?;
      assert FirstFailure(fields, scan, planes, n, e);
    }
  }

  /** Distinct planes of one scan resolve to distinct fields. */
  lemma ResolvedFieldsDistinct(fields: seq<FieldRow>, scan: ScanId, planes: seq<Plane>)
    requires FieldKeysUnique(fields) && PlaneIdsDistinct(planes)
    requires ResolveFields(fields, scan, planes).Ok?
    ensures var fs := ResolveFields(fields, scan, planes).value;
      forall i, j :: 0 <= i < |fs| && 0 <= j < |fs| && i != j ==> fs[i] != fs[j]
  {
    var fs := ResolveFields(fields, scan, planes).value;
    forall i, j | 0 <= i < |fs| && 0 <= j < |fs| && i != j
      ensures fs[i] != fs[j]
    {
      if fs[i] == fs[j] {
        FetchFieldInjective(fields, scan, planes[i].plane, planes[j].plane);
      }
    }
  }
}
