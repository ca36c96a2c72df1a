/**
 * Processing.make for suite2p and its key source: when the suite2p output directory
 * exists, one Processing row with the loader's completion and curation times, and
 * one ProcessingOutputFile row per regular file of the directory, its path relative
 * to the data root; when it does not exist, nothing.
 */
module ProcessingStep {
  import opened Results
  import opened Text
  import opened Records

  /** A filesystem path as its components from the filesystem root. */
  type Path = seq<string>

  /** One entry `data_dir.glob('*')` yields: its name and whether `is_file()` holds for it. */
  datatype DirEntry = DirEntry(name: string, isFile: bool)

  /** `ProcessingTask & ScanInfo`: the tasks whose scan has its ScanInfo. */
  function KeySource(tasks: set<TaskKey>, scanInfo: set<ScanId>): (r: set<TaskKey>)
    ensures r <= tasks
    ensures forall k :: k in r <==> k in tasks && k.scan in scanInfo
  {
    set k | k in tasks && k.scan in scanInfo
  }

  /** `path.relative_to(root)`: the components after `root`, or a ValueError when `path` is not under `root`. */
  function RelativeTo(path: Path, root: Path): (r: Result<Path, MakeError>)
    ensures r.Ok? <==> root <= path
    ensures r.Ok? ==> root + r.value == path
    ensures r.Err? ==> r.error == NotUnderRoot(path)
  {
    if root <= path then Ok(path[|root|..]) else Err(NotUnderRoot(path))
  }

  /** `as_posix()` of a relative path: its components joined with '/', "." for the empty path. */
  function AsPosix(rel: Path): string
  {
    if rel == [] then "." else Join(rel, "/")
  }

  /** The `file_path` stored for the file `name` of `dir`. */
  function FilePath(dir: Path, root: Path, name: string): Result<string, MakeError>
  {
    match RelativeTo(dir + [name], root)
    case Err(e) => Err(e)
    case Ok(rel) => Ok(AsPosix(rel))
  }

  /** The comprehension over the listing: regular files only, in listing order; the first one outside the root raises. */
  function OutputFiles(dir: Path, root: Path, listing: seq<DirEntry>): Result<seq<string>, MakeError>
    decreases |listing|
  {
    if listing == [] then Ok([])
    else
      var n := |listing| - 1;
      match OutputFiles(dir, root, listing[..n])
      case Err(e) => Err(e)
      case Ok(files) =>
        if !listing[n].isFile then Ok(files)
        else match FilePath(dir, root, listing[n].name)
          case Err(e) => Err(e)
          case Ok(f) => Ok(files + [f])
  }

  /** Once a prefix of the listing has raised, the whole comprehension raises the same error. */
  lemma {:induction false} OutputFilesErrSticks(dir: Path, root: Path, listing: seq<DirEntry>, i: nat)
    requires i <= |listing| && OutputFiles(dir, root, listing[..i]).Err?
    ensures OutputFiles(dir, root, listing) == OutputFiles(dir, root, listing[..i])
    decreases |listing|
  {
    if i < |listing| {
      var n := |listing| - 1;
      assert listing[..n][..i] == listing[..i];
      OutputFilesErrSticks(dir, root, listing[..n], i);
    } else {
      assert listing[..i] == listing;
    }
  }

  /** The ProcessingOutputFile rows of `key` for `files`. */
  function OutputFileRows(key: TaskKey, files: seq<string>): seq<OutputFileRow>
  {
    seq(|files|, i requires 0 <= i < |files| => OutputFileRow(key, files[i]))
  }

  /** The PhysicalFile rows `files` names. */
  function FileSet(files: seq<string>): set<string>
  {
    set f | f in files
  }

  /** The number of regular files in the listing. */
  function RegularCount(listing: seq<DirEntry>): nat
    decreases |listing|
  {
    if listing == [] then 0
    else RegularCount(listing[..|listing| - 1]) + (if listing[|listing| - 1].isFile then 1 else 0)
  }

  /** What a Processing.make that inserts writes: the Processing row and the `file_path` of each output file. */
  datatype ProcessingWrite = ProcessingWrite(row: ProcessingRow, files: seq<string>)

  /**
   * Processing.make: `Ok(None)` is the normal return that inserts nothing because the
   * output directory does not exist yet; `completion` and `curation` are the loader's times.
   */
  function ProcessingMake(processingMethod: string, dir: Path, dirExists: bool, listing: seq<DirEntry>, root: Path,
                          completion: Time, curation: Time): Result<Option<ProcessingWrite>, MakeError>
  {
    if processingMethod != Suite2p then Err(NotImplemented(processingMethod))
    else if !dirExists then Ok(None)
    else match OutputFiles(dir, root, listing)
      case Err(e) => Err(e)
      case Ok(files) => Ok(Some(ProcessingWrite(ProcessingRow(None, completion, curation), files)))
  }

  /** The make's three outcomes: NotImplementedError for any other method, nothing for a missing directory, the rows otherwise. */
  lemma ProcessingMakeOutcome(processingMethod: string, dir: Path, dirExists: bool, listing: seq<DirEntry>, root: Path,
                              completion: Time, curation: Time)
    ensures var r := ProcessingMake(processingMethod, dir, dirExists, listing, root, completion, curation);
      && (processingMethod != Suite2p ==> r == Err(NotImplemented(processingMethod)))
      && (processingMethod == Suite2p && !dirExists ==> r == Ok(None))
      && (r == Ok(None) <==> processingMethod == Suite2p && !dirExists)
      && (r.Ok? && r.value.Some? <==> processingMethod == Suite2p && dirExists && OutputFiles(dir, root, listing).Ok?)
      && (r.Ok? && r.value.Some? ==>
            r.value.value.row == ProcessingRow(None, completion, curation)
            && OutputFiles(dir, root, listing) == Ok(r.value.value.files))
      && (processingMethod == Suite2p && dirExists && OutputFiles(dir, root, listing).Err? ==>
            r == Err(OutputFiles(dir, root, listing).error))
  {
  }

  /** The listing yields output files exactly when every regular file lies under the root. */
  lemma {:induction false} OutputFilesOkIff(dir: Path, root: Path, listing: seq<DirEntry>)
    ensures OutputFiles(dir, root, listing).Ok? <==>
      forall i :: 0 <= i < |listing| && listing[i].isFile ==> root <= dir + [listing[i].name]
    decreases |listing|
  {
    if listing != [] {
      var n := |listing| - 1;
      OutputFilesOkIff(dir, root, listing[..n]);
      assert forall i :: 0 <= i < n ==> listing[..n][i] == listing[i];
    }
  }

  /** The comprehension yields one path per regular file. */
  lemma {:induction false} OutputFilesCount(dir: Path, root: Path, listing: seq<DirEntry>)
    requires OutputFiles(dir, root, listing).Ok?
    ensures |OutputFiles(dir, root, listing).value| == RegularCount(listing)
    decreases |listing|
  {
    if listing != [] {
      OutputFilesCount(dir, root, listing[..|listing| - 1]);
    }
  }

  /** Every stored path is that of a regular file of the listing. */
  lemma {:induction false} OutputFilesFromListing(dir: Path, root: Path, listing: seq<DirEntry>)
    requires OutputFiles(dir, root, listing).Ok?
    ensures forall f :: f in OutputFiles(dir, root, listing).value ==>
      exists i :: 0 <= i < |listing| && listing[i].isFile && FilePath(dir, root, listing[i].name) == Ok(f)
    decreases |listing|
  {
    if listing != [] {
      var n := |listing| - 1;
      var prefix := listing[..n];
      var prev := OutputFiles(dir, root, prefix).value;
      OutputFilesFromListing(dir, root, prefix);
      forall f | f in OutputFiles(dir, root, listing).value
        ensures exists i :: 0 <= i < |listing| && listing[i].isFile && FilePath(dir, root, listing[i].name) == Ok(f)
      {
        if f in prev {
          var i :| 0 <= i < n && prefix[i].isFile && FilePath(dir, root, prefix[i].name) == Ok(f);
          assert prefix[i] == listing[i];
        } else {
          assert listing[n].isFile && FilePath(dir, root, listing[n].name) == Ok(f);
        }
      }
    }
  }

  /** Every regular file of the listing has its path stored. */
  lemma {:induction false} ListingInOutputFiles(dir: Path, root: Path, listing: seq<DirEntry>)
    requires OutputFiles(dir, root, listing).Ok?
    ensures forall i :: 0 <= i < |listing| && listing[i].isFile ==>
      FilePath(dir, root, listing[i].name).Ok? && FilePath(dir, root, listing[i].name).value in OutputFiles(dir, root, listing).value
    decreases |listing|
  {
    if listing != [] {
      var n := |listing| - 1;
      var prefix := listing[..n];
      var prev := OutputFiles(dir, root, prefix).value;
      ListingInOutputFiles(dir, root, prefix);
      forall i | 0 <= i < |listing| && listing[i].isFile
        ensures FilePath(dir, root, listing[i].name).Ok? && FilePath(dir, root, listing[i].name).value in OutputFiles(dir, root, listing).value
      {
        if i < n {
          assert prefix[i] == listing[i];
        }
      }
    }
  }

  /** One output file per regular file of the listing, each the path of that file relative to the root. */
  lemma OutputFilesContents(dir: Path, root: Path, listing: seq<DirEntry>)
    requires OutputFiles(dir, root, listing).Ok?
    ensures var files := OutputFiles(dir, root, listing).value;
      |files| == RegularCount(listing)
      && forall f :: f in files <==>
           exists i :: 0 <= i < |listing| && listing[i].isFile && FilePath(dir, root, listing[i].name) == Ok(f)
  {
    OutputFilesCount(dir, root, listing);
    OutputFilesFromListing(dir, root, listing);
    ListingInOutputFiles(dir, root, listing);
  }

  /** Two files of one directory with the same stored path have the same name. */
  lemma FilePathInjective(dir: Path, root: Path, a: string, b: string)
    requires FilePath(dir, root, a).Ok? && FilePath(dir, root, a) == FilePath(dir, root, b)
    ensures a == b
  {
    if |root| == |dir| + 1 {
      assert root == dir + [a] && root == dir + [b];
      assert (dir + [a])[|dir|] == a && (dir + [b])[|dir|] == b;
    } else {
      var d := dir[|root|..];
      assert (dir + [a])[|root|..] == d + [a];
      assert (dir + [b])[|root|..] == d + [b];
      if d == [] {
        assert Join([a], "/") == a && Join([b], "/") == b;
      } else {
        JoinSnoc(d, a, "/");
        JoinSnoc(d, b, "/");
        var prefix := Join(d, "/") + "/";
        assert (prefix + a)[|prefix|..] == a && (prefix + b)[|prefix|..] == b;
      }
    }
  }

  /** The names of a directory listing are distinct. */
  predicate NamesDistinct(listing: seq<DirEntry>)
  {
    forall i, j :: 0 <= i < |listing| && 0 <= j < |listing| && i != j ==> listing[i].name != listing[j].name
  }

  /** Distinct names in the listing give distinct output files, so no ProcessingOutputFile row is inserted twice. */
  lemma {:induction false} OutputFilesDistinct(dir: Path, root: Path, listing: seq<DirEntry>)
    requires NamesDistinct(listing)
    requires OutputFiles(dir, root, listing).Ok?
    ensures var files := OutputFiles(dir, root, listing).value;
      forall i, j :: 0 <= i < |files| && 0 <= j < |files| && i != j ==> files[i] != files[j]
    decreases |listing|
  {
    if listing != [] {
      var n := |listing| - 1;
      var prev := OutputFiles(dir, root, listing[..n]).value;
      assert NamesDistinct(listing[..n]) by {
        assert forall i :: 0 <= i < n ==> listing[..n][i] == listing[i];
      }
      OutputFilesDistinct(dir, root, listing[..n]);
      if listing[n].isFile {
        var f := FilePath(dir, root, listing[n].name).value;
        OutputFilesFromListing(dir, root, listing[..n]);
        forall g | g in prev ensures g != f {
          var i :| 0 <= i < n && listing[..n][i].isFile && FilePath(dir, root, listing[..n][i].name) == Ok(g);
          assert listing[..n][i] == listing[i];
          if g == f {
            FilePathInjective(dir, root, listing[i].name, listing[n].name);
          }
        }
        var files := prev + [f];
        forall i, j | 0 <= i < |files| && 0 <= j < |files| && i != j
          ensures files[i] != files[j]
        {
          if i == |prev| {
            assert files[j] in prev;
          } else if j == |prev| {
            assert files[i] in prev;
          }
        }
      }
    }
  }
}
