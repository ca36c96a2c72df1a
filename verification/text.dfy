/**
 * The Python string operations the header parser and the path handling rely on:
 * `str.find`, `str.split` with an explicit separator, `str.join`, `str.replace`
 * of a single character and the slice `s[1:-1]`.
 */
module Text {
  import opened Results

  /** `sep` occurs in `s` starting at index `i`. */
  predicate OccursAt(s: string, i: int, sep: string)
  {
    0 <= i && i + |sep| <= |s| && s[i..i + |sep|] == sep
  }

  /** `s.find(sep, from)`: the leftmost occurrence of `sep` at or after `from`. */
  function FindFrom(s: string, sep: string, from: nat): (r: Option<nat>)
    requires |sep| > 0
    ensures r.Some? ==> from <= r.value && OccursAt(s, r.value, sep)
    ensures r.Some? ==> forall j :: from <= j < r.value ==> !OccursAt(s, j, sep)
    ensures r.None? ==> forall j :: from <= j ==> !OccursAt(s, j, sep)
    decreases |s| - from
  {
    if from + |sep| > |s| then None
    else if s[from..from + |sep|] == sep then Some(from)
    else FindFrom(s, sep, from + 1)
  }

  /** `s.split(sep)` for a non-empty `sep`: the pieces between the leftmost non-overlapping occurrences. */
  function Split(s: string, sep: string): (pieces: seq<string>)
    requires |sep| > 0
    ensures |pieces| >= 1
    decreases |s|
  {
    match FindFrom(s, sep, 0)
    case None => [s]
    case Some(i) => [s[..i]] + Split(s[i + |sep|..], sep)
  }

  /** `sep.join(pieces)`. */
  function Join(pieces: seq<string>, sep: string): string
    decreases |pieces|
  {
    if |pieces| == 0 then ""
    else if |pieces| == 1 then pieces[0]
    else pieces[0] + sep + Join(pieces[1..], sep)
  }

  /** Joining the pieces of a split with the same separator gives back the string. */
  lemma {:induction false} JoinSplit(s: string, sep: string)
    requires |sep| > 0
    ensures Join(Split(s, sep), sep) == s
    decreases |s|
  {
    match FindFrom(s, sep, 0)
    case None =>
    case Some(i) =>
      var rest := s[i + |sep|..];
      var tail := Split(rest, sep);
      JoinSplit(rest, sep);
      assert Split(s, sep) == [s[..i]] + tail;
      assert ([s[..i]] + tail)[1..] == tail;
      assert Join([s[..i]] + tail, sep) == s[..i] + sep + Join(tail, sep);
      assert s == s[..i] + s[i..i + |sep|] + rest;
  }

  /** An occurrence with none before it is the one `find` reports. */
  lemma FindLeftmost(s: string, sep: string, i: nat)
    requires |sep| > 0 && OccursAt(s, i, sep)
    requires forall j :: 0 <= j < i ==> !OccursAt(s, j, sep)
    ensures FindFrom(s, sep, 0) == Some(i)
  {
  }

  /** Splitting on a one-character separator undoes a join of pieces that do not contain it. */
  lemma {:induction false} SplitJoin(pieces: seq<string>, c: char)
    requires |pieces| >= 1
    requires forall k :: 0 <= k < |pieces| ==> c !in pieces[k]
    ensures Split(Join(pieces, [c]), [c]) == pieces
    decreases |pieces|
  {
    var sep := [c];
    var p := pieces[0];
    if |pieces| > 1 {
      var rest := pieces[1..];
      var tail := Join(rest, sep);
      var s := p + sep + tail;
      assert Join(pieces, sep) == s;
      assert OccursAt(s, |p|, sep) by {
        assert s[|p|..|p| + 1] == sep;
      }
      forall j | 0 <= j < |p|
        ensures !OccursAt(s, j, sep)
      {
        assert s[j] == p[j];
      }
      FindLeftmost(s, sep, |p|);
      assert s[..|p|] == p;
      assert s[|p| + 1..] == tail;
      forall k | 0 <= k < |rest|
        ensures c !in rest[k]
      {
        assert rest[k] == pieces[k + 1];
      }
      SplitJoin(rest, c);
      assert pieces == [p] + rest;
    } else {
      forall j | 0 <= j
        ensures !OccursAt(p, j, sep)
      {
        if j + 1 <= |p| {
          assert p[j..j + 1][0] == p[j];
        }
      }
    }
  }

  /** A string that ends with a one-character separator splits into pieces the last of which is empty. */
  lemma {:induction false} SplitEndsEmpty(s: string, c: char)
    ensures var pieces := Split(s + [c], [c]); pieces[|pieces| - 1] == ""
    decreases |s|
  {
    var t := s + [c];
    assert t[|s|..|s| + 1] == [c];
    match FindFrom(t, [c], 0)
    case None =>
      assert OccursAt(t, |s|, [c]);
      assert false;
    case Some(i) =>
      if i == |s| {
        assert t[i + 1..] == "";
      } else {
        assert i < |s|;
        assert t[i + 1..] == s[i + 1..] + [c];
        SplitEndsEmpty(s[i + 1..], c);
      }
  }

  /** Joining one more piece appends the separator and that piece. */
  lemma {:induction false} JoinSnoc(pieces: seq<string>, last: string, sep: string)
    requires |pieces| >= 1
    ensures Join(pieces + [last], sep) == Join(pieces, sep) + sep + last
    decreases |pieces|
  {
    if |pieces| > 1 {
      assert (pieces + [last])[1..] == pieces[1..] + [last];
      JoinSnoc(pieces[1..], last, sep);
    } else {
      assert (pieces + [last])[1..] == [last];
    }
  }

  /** `s.replace(a, b)` for single characters. */
  function Replace(s: string, a: char, b: char): (r: string)
    ensures |r| == |s|
    ensures forall i :: 0 <= i < |s| ==> r[i] == if s[i] == a then b else s[i]
    ensures a != b ==> a !in r
    decreases |s|
  {
    if s == [] then [] else [if s[0] == a then b else s[0]] + Replace(s[1..], a, b)
  }

  /** Python's `s[1:-1]`: `s` without its first and last characters, empty when `s` is shorter than two. */
  function Inner(s: string): (r: string)
    ensures |r| == if |s| < 2 then 0 else |s| - 2
    ensures forall i :: 0 <= i < |r| ==> r[i] == s[i + 1]
  {
    if |s| < 2 then "" else s[1..|s| - 1]
  }
}
