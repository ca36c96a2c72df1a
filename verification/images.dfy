/**
 * MotionCorrectedImages.make for suite2p: one row per plane, in order, holding that
 * plane's reference, mean, correlation and maximum-projection images, keyed by the
 * ScanInfo.Field the plane resolves to.
 */
module Images {
  import opened Results
  import opened Records
  import opened Fetch

  function ImagesRowOf(task: TaskKey, field: int, p: Plane): ImagesRow
  {
    ImagesRow(task, field, p.refImage, p.meanImage, p.correlationMap, p.maxProjImage)
  }

  /** The rows of all planes, `fs[i]` being the field of `planes[i]`. */
  function ImagesRows(task: TaskKey, planes: seq<Plane>, fs: seq<int>): seq<ImagesRow>
    requires |fs| == |planes|
    decreases |planes|
  {
    if planes == [] then []
    else
      var n := |planes| - 1;
      ImagesRows(task, planes[..n], fs[..n]) + [ImagesRowOf(task, fs[n], planes[n])]
  }

  /** One more plane appends its row. */
  lemma ImagesRowsStep(task: TaskKey, planes: seq<Plane>, fs: seq<int>, f: int)
    requires |fs| < |planes|
    ensures var i := |fs|;
      ImagesRows(task, planes[..i + 1], fs + [f]) == ImagesRows(task, planes[..i], fs) + [ImagesRowOf(task, f, planes[i])]
  {
    var i := |fs|;
    assert planes[..i + 1][..i] == planes[..i];
    assert (fs + [f])[..i] == fs;
  }

  function ImagesMake(processingMethod: string, fields: seq<FieldRow>, key: TaskKey, planes: seq<Plane>)
    : Result<seq<ImagesRow>, MakeError>
  {
    if processingMethod != Suite2p then Err(NotImplemented(processingMethod))
    else match ResolveFields(fields, key.scan, planes)
      case Err(e) => Err(e)
      case Ok(fs) => Ok(ImagesRows(key, planes, fs))
  }

  /** MotionCorrectedImages.make up to its inserts: the method check and the loop over the planes. */
  method ComputeImages(processingMethod: string, fields: seq<FieldRow>, key: TaskKey, planes: seq<Plane>)
    returns (r: Result<seq<ImagesRow>, MakeError>)
    ensures r == ImagesMake(processingMethod, fields, key, planes)
  {
    if processingMethod != Suite2p {
      return Err(NotImplemented(processingMethod));
    }
    ghost var fs: seq<int> := [];
    var rows: seq<ImagesRow> := [];
    var i := 0;
    while i < |planes|
      invariant 0 <= i <= |planes| && |fs| == i
      invariant ResolveFields(fields, key.scan, planes[..i]) == Ok(fs)
      invariant ImagesRows(key, planes[..i], fs) == rows
    {
      var s2p := planes[i];
      var field := FetchField(fields, key.scan, s2p.plane);
      ResolveFieldsStep(fields, key.scan, planes, fs, i);
      if field.Err? {
        ResolveFieldsErrSticks(fields, key.scan, planes, i + 1);
        return Err(field.error);
      }
      ImagesRowsStep(key, planes, fs, field.value);
      rows := rows + [ImagesRowOf(key, field.value, s2p)];
      fs := fs + [field.value];
      i := i + 1;
    }
    assert planes[..i] == planes;
    return Ok(rows);
  }

  /** One row per plane, in plane order, with `ref_image`, `average_image` from the mean image, `correlation_image` and `max_proj_image`. */
  lemma {:induction false} ImagesRowPerPlane(task: TaskKey, planes: seq<Plane>, fs: seq<int>)
    requires |fs| == |planes|
    ensures var rows := ImagesRows(task, planes, fs);
      |rows| == |planes|
      && forall i :: 0 <= i < |planes| ==>
           rows[i] == ImagesRow(task, fs[i], planes[i].refImage, planes[i].meanImage,
                                planes[i].correlationMap, planes[i].maxProjImage)
    decreases |planes|
  {
    if planes != [] {
      var n := |planes| - 1;
      ImagesRowPerPlane(task, planes[..n], fs[..n]);
      assert forall i :: 0 <= i < n ==> planes[..n][i] == planes[i] && fs[..n][i] == fs[i];
    }
  }

  /** Planes that resolve to distinct fields give rows of `task` with unique keys. */
  lemma ImagesRowsUnique(task: TaskKey, planes: seq<Plane>, fs: seq<int>)
    requires |fs| == |planes|
    requires forall i, j :: 0 <= i < |fs| && 0 <= j < |fs| && i != j ==> fs[i] != fs[j]
    ensures Unique(ImagesRows(task, planes, fs), ImagesKey)
    ensures forall r :: r in ImagesRows(task, planes, fs) ==> r.task == task
  {
    ImagesRowPerPlane(task, planes, fs);
  }

  /** A successful make wrote rows of `key` with unique keys. */
  lemma ImagesMakeOk(processingMethod: string, fields: seq<FieldRow>, key: TaskKey, planes: seq<Plane>)
    requires FieldKeysUnique(fields) && PlaneIdsDistinct(planes)
    requires ImagesMake(processingMethod, fields, key, planes).Ok?
    ensures processingMethod == Suite2p
    ensures Unique(ImagesMake(processingMethod, fields, key, planes).value, ImagesKey)
    ensures forall r :: r in ImagesMake(processingMethod, fields, key, planes).value ==> r.task == key
  {
    ResolvedFieldsDistinct(fields, key.scan, planes);
    ImagesRowsUnique(key, planes, ResolveFields(fields, key.scan, planes).value);
  }
}
