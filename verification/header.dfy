/**
 * The ScanImage header parser: `parse_scanimage_header` turns the header text of
 * a scan into a dictionary, one entry per `key = value` line, and
 * `get_scanimage_acq_time` reads the `epoch` entry from it.
 */
module Header {
  import opened Results
  import opened Text

  /** The header is split into lines on this separator ... */
  const LineSep: string := "\n"
  /** ... and each line into its key and its value on this one. */
  const EntrySep: string := " = "
  /** The entry that holds the acquisition start. */
  const EpochKey: string := "epoch"

  datatype HeaderError =
    | Unpack(line: nat, pieces: nat)  // `key, value = item.split(' = ')` on a line that splits into `pieces` != 2 pieces
    | MissingKey(key: string)         // the KeyError of `header['epoch']`

  /** `key.replace('.', '_')`. */
  function NormalizeKey(key: string): (r: string)
    ensures |r| == |key| && '.' !in r
    ensures forall i :: 0 <= i < |key| ==> r[i] == if key[i] == '.' then '_' else key[i]
  {
    Replace(key, '.', '_')
  }

  /** The key and the value of one header line: the two pieces of `line.split(' = ')`, when there are exactly two. */
  function SplitEntry(line: string): (r: Option<(string, string)>)
    ensures r.Some? <==> |Split(line, EntrySep)| == 2
    ensures r.Some? ==> line == r.value.0 + EntrySep + r.value.1
  {
    var pieces := Split(line, EntrySep);
    if |pieces| == 2 then
      JoinSplit(line, EntrySep);
      assert pieces[1..] == [pieces[1]];
      Some((pieces[0], pieces[1]))
    else
      None
  }

  /** A well-formed line's key is the text before the first ` = `, and its value holds no further ` = `. */
  lemma SplitEntryAtSeparator(line: string)
    requires SplitEntry(line).Some?
    ensures FindFrom(line, EntrySep, 0) == Some(|SplitEntry(line).value.0|)
    ensures FindFrom(SplitEntry(line).value.1, EntrySep, 0).None?
  {
    var pieces := Split(line, EntrySep);
    var i := FindFrom(line, EntrySep, 0).value;
    assert pieces == [line[..i]] + Split(line[i + 3..], EntrySep);
    assert Split(line[i + 3..], EntrySep) == [pieces[1]];
  }

  /** The dictionary key a well-formed line contributes (the empty string for a malformed one). */
  function EntryKey(line: string): string
  {
    match SplitEntry(line)
    case Some(kv) => NormalizeKey(kv.0)
    case None => ""
  }

  /** The value a well-formed line contributes (the empty string for a malformed one). */
  function EntryValue(line: string): string
  {
    match SplitEntry(line)
    case Some(kv) => kv.1
    case None => ""
  }

  /** The lines of a header. */
  function Lines(text: string): seq<string>
  {
    Split(text, LineSep)
  }

  /**
   * The dictionary the parsing loop has built after `lines`, or the error of
   * the first line that does not split into exactly a key and a value.
   */
  function HeaderOf(lines: seq<string>): Result<map<string, string>, HeaderError>
    decreases |lines|
  {
    if lines == [] then Ok(map[])
    else
      var n := |lines| - 1;
      match HeaderOf(lines[..n])
      case Err(e) => Err(e)
      case Ok(header) =>
        match SplitEntry(lines[n])
        case None => Err(Unpack(n, |Split(lines[n], EntrySep)|))
        case Some(kv) => Ok(header[NormalizeKey(kv.0) := kv.1])
  }

  /** Once a prefix of the lines has failed, the whole header fails with the same error. */
  lemma {:induction false} HeaderErrSticks(lines: seq<string>, i: nat)
    requires i <= |lines| && HeaderOf(lines[..i]).Err?
    ensures HeaderOf(lines) == HeaderOf(lines[..i])
    decreases |lines|
  {
    if i < |lines| {
      var n := |lines| - 1;
      assert lines[..n][..i] == lines[..i];
      HeaderErrSticks(lines[..n], i);
    } else {
      assert lines[..i] == lines;
    }
  }

  /** `parse_scanimage_header`: one entry per line, keyed by the normalised text before ` = `. */
  method ParseScanImageHeader(text: string) returns (r: Result<map<string, string>, HeaderError>)
    ensures r == HeaderOf(Lines(text))
  {
    var lines := Split(text, LineSep);
    var header: map<string, string> := map[];
    var i := 0;
    while i < |lines|
      invariant i <= |lines|
      invariant HeaderOf(lines[..i]) == Ok(header)
    {
      var pieces := Split(lines[i], EntrySep);
      assert lines[..i + 1][..i] == lines[..i];
      if |pieces| != 2 {
        HeaderErrSticks(lines, i + 1);
        return Err(Unpack(i, |pieces|));
      }
      header := header[NormalizeKey(pieces[0]) := pieces[1]];
      i := i + 1;
    }
    assert lines[..i] == lines;
    return Ok(header);
  }

  /** A parse that succeeds met only lines that split into a key and a value. */
  lemma {:induction false} HeaderOkLinesSplit(lines: seq<string>)
    requires HeaderOf(lines).Ok?
    ensures forall i :: 0 <= i < |lines| ==> SplitEntry(lines[i]).Some?
    decreases |lines|
  {
    if lines != [] {
      var n := |lines| - 1;
      var prefix := lines[..n];
      HeaderOkLinesSplit(prefix);
      forall i | 0 <= i < n
        ensures SplitEntry(lines[i]).Some?
      {
        assert prefix[i] == lines[i];
      }
    }
  }

  /** Lines that all split into a key and a value parse. */
  lemma {:induction false} LinesSplitHeaderOk(lines: seq<string>)
    requires forall i :: 0 <= i < |lines| ==> SplitEntry(lines[i]).Some?
    ensures HeaderOf(lines).Ok?
    decreases |lines|
  {
    if lines != [] {
      var n := |lines| - 1;
      var prefix := lines[..n];
      forall i | 0 <= i < n
        ensures SplitEntry(prefix[i]).Some?
      {
        assert prefix[i] == lines[i];
      }
      LinesSplitHeaderOk(prefix);
      assert SplitEntry(lines[n]).Some?;
    }
  }

  /** Parsing succeeds exactly when every line splits into a key and a value. */
  lemma HeaderOkIff(lines: seq<string>)
    ensures HeaderOf(lines).Ok? <==> forall i :: 0 <= i < |lines| ==> SplitEntry(lines[i]).Some?
  {
    if HeaderOf(lines).Ok? {
      HeaderOkLinesSplit(lines);
    }
    if forall i :: 0 <= i < |lines| ==> SplitEntry(lines[i]).Some? {
      LinesSplitHeaderOk(lines);
    }
  }

  /** A failure names the first line that does not split into exactly two pieces, and how many it split into. */
  lemma {:induction false} HeaderErrorIsFirstBadLine(lines: seq<string>)
    requires HeaderOf(lines).Err?
    ensures var e := HeaderOf(lines).error;
      && e.Unpack?
      && e.line < |lines|
      && SplitEntry(lines[e.line]).None?
      && e.pieces == |Split(lines[e.line], EntrySep)| != 2
      && forall i :: 0 <= i < e.line ==> SplitEntry(lines[i]).Some?
    decreases |lines|
  {
    var n := |lines| - 1;
    assert forall i :: 0 <= i < n ==> lines[..n][i] == lines[i];
    if HeaderOf(lines[..n]).Err? {
      HeaderErrorIsFirstBadLine(lines[..n]);
    } else {
      HeaderOkIff(lines[..n]);
    }
  }

  /** The dictionary key each line contributes, in line order. */
  function LineKeySeq(lines: seq<string>): (r: seq<string>)
    ensures |r| == |lines| && forall i :: 0 <= i < |lines| ==> r[i] == EntryKey(lines[i])
  {
    seq(|lines|, i requires 0 <= i < |lines| => EntryKey(lines[i]))
  }

  /** The normalised keys of the well-formed lines among `lines`. */
  function LineKeys(lines: seq<string>): set<string>
  {
    set k | k in LineKeySeq(lines)
  }

  lemma LineKeysSnoc(lines: seq<string>)
    requires lines != []
    ensures LineKeys(lines) == LineKeys(lines[..|lines| - 1]) + {EntryKey(lines[|lines| - 1])}
  {
    var n := |lines| - 1;
    assert LineKeySeq(lines) == LineKeySeq(lines[..n]) + [EntryKey(lines[n])];
  }

  /** The keys of a parsed header are the normalised keys of its lines: none contains a dot, and there are no more of them than lines. */
  lemma {:induction false} HeaderKeys(lines: seq<string>)
    requires HeaderOf(lines).Ok?
    ensures HeaderOf(lines).value.Keys == LineKeys(lines)
    ensures forall k :: k in HeaderOf(lines).value ==> '.' !in k
    ensures |HeaderOf(lines).value| <= |lines|
    decreases |lines|
  {
    if lines != [] {
      var n := |lines| - 1;
      var prefix := lines[..n];
      var kv := SplitEntry(lines[n]).value;
      HeaderKeys(prefix);
      LineKeysSnoc(lines);
      var before := HeaderOf(prefix).value;
      assert HeaderOf(lines).value == before[NormalizeKey(kv.0) := kv.1];
      assert HeaderOf(lines).value.Keys == before.Keys + {NormalizeKey(kv.0)};
    }
  }

  /** A parse that succeeds on one more line adds or overwrites that line's entry. */
  lemma HeaderSnoc(lines: seq<string>)
    requires lines != [] && HeaderOf(lines).Ok?
    ensures var n := |lines| - 1;
      HeaderOf(lines[..n]).Ok?
      && HeaderOf(lines).value == HeaderOf(lines[..n]).value[EntryKey(lines[n]) := EntryValue(lines[n])]
  {
  }

  /** When a line's normalised key does not recur later, the header maps that key to the line's value (later lines win). */
  lemma {:induction false} HeaderLastWins(lines: seq<string>, i: nat)
    requires HeaderOf(lines).Ok? && i < |lines|
    requires forall j :: i < j < |lines| ==> EntryKey(lines[j]) != EntryKey(lines[i])
    ensures EntryKey(lines[i]) in HeaderOf(lines).value
    ensures HeaderOf(lines).value[EntryKey(lines[i])] == EntryValue(lines[i])
    decreases |lines|
  {
    var n := |lines| - 1;
    var prefix := lines[..n];
    HeaderSnoc(lines);
    if i < n {
      forall j | i < j < n
        ensures EntryKey(prefix[j]) != EntryKey(prefix[i])
      {
        assert prefix[j] == lines[j] && prefix[i] == lines[i];
      }
      HeaderLastWins(prefix, i);
      assert prefix[i] == lines[i];
    }
  }

  /** A header that ends with a newline has an empty last line, so parsing it fails. */
  lemma TrailingNewlineFails(text: string)
    ensures HeaderOf(Lines(text + LineSep)).Err?
  {
    var lines := Lines(text + LineSep);
    SplitEndsEmpty(text, '\n');
    assert lines[|lines| - 1] == "";
    assert Split("", EntrySep) == [""];
    HeaderOkIff(lines);
  }

  /** An empty header is one empty line, and parsing it fails on that line. */
  lemma EmptyHeaderFails()
    ensures HeaderOf(Lines("")) == Err(Unpack(0, 1))
  {
    assert Lines("") == [""];
    assert Split("", EntrySep) == [""];
  }

  /** A line `key = value` whose key has no `=` and whose value has no ` = ` splits back into that key and value. */
  lemma SplitEntryOf(key: string, value: string)
    requires '=' !in key && FindFrom(value, EntrySep, 0).None?
    ensures SplitEntry(key + EntrySep + value) == Some((key, value))
  {
    var s := key + EntrySep + value;
    assert OccursAt(s, |key|, EntrySep) by {
      assert s[|key|..|key| + 3] == EntrySep;
    }
    forall j | 0 <= j < |key|
      ensures !OccursAt(s, j, EntrySep)
    {
      assert s[j + 1] != '=' by {
        if j + 1 < |key| {
          assert s[j + 1] == key[j + 1];
        } else {
          assert s[j + 1] == ' ';
        }
      }
      if j + 3 <= |s| {
        assert s[j..j + 3][1] == s[j + 1];
      }
    }
    FindLeftmost(s, EntrySep, |key|);
    assert s[..|key|] == key;
    assert s[|key| + 3..] == value;
    assert Split(value, EntrySep) == [value];
    assert Split(s, EntrySep) == [key] + [value];
  }

  /** One header line as ScanImage writes it. */
  function RenderEntry(entry: (string, string)): string
  {
    entry.0 + EntrySep + entry.1
  }

  /** The lines of a rendered header, one per entry. */
  function RenderedLines(entries: seq<(string, string)>): (lines: seq<string>)
    ensures |lines| == |entries|
    ensures forall i :: 0 <= i < |entries| ==> lines[i] == RenderEntry(entries[i])
  {
    seq(|entries|, i requires 0 <= i < |entries| => RenderEntry(entries[i]))
  }

  /** A header text with one `key = value` line per entry. */
  function RenderHeader(entries: seq<(string, string)>): string
  {
    Join(RenderedLines(entries), LineSep)
  }

  /** An entry whose line splits back into it: a key without `=` or newline, a value without newline or ` = `. */
  predicate Renderable(entry: (string, string))
  {
    && '=' !in entry.0 && '\n' !in entry.0
    && '\n' !in entry.1 && FindFrom(entry.1, EntrySep, 0).None?
  }

  /** Splitting a rendered header gives back its lines, and each line gives back its entry, the key normalised. */
  lemma RenderedLinesParse(entries: seq<(string, string)>)
    requires |entries| >= 1
    requires forall i :: 0 <= i < |entries| ==> Renderable(entries[i])
    ensures Lines(RenderHeader(entries)) == RenderedLines(entries)
    ensures forall i :: 0 <= i < |entries| ==>
              && EntryKey(RenderedLines(entries)[i]) == NormalizeKey(entries[i].0)
              && EntryValue(RenderedLines(entries)[i]) == entries[i].1
  {
    var lines := RenderedLines(entries);
    forall k | 0 <= k < |lines|
      ensures '\n' !in lines[k]
    {
      assert lines[k] == entries[k].0 + EntrySep + entries[k].1;
    }
    SplitJoin(lines, '\n');
    forall i | 0 <= i < |entries|
      ensures EntryKey(lines[i]) == NormalizeKey(entries[i].0) && EntryValue(lines[i]) == entries[i].1
    {
      SplitEntryOf(entries[i].0, entries[i].1);
    }
  }

  /**
   * Parsing a rendered header gives back its entries under their normalised keys:
   * the key set, and for each key the value of the last entry normalising to it.
   */
  lemma ParseRenderedHeader(entries: seq<(string, string)>)
    requires |entries| >= 1
    requires forall i :: 0 <= i < |entries| ==> Renderable(entries[i])
    ensures HeaderOf(Lines(RenderHeader(entries))).Ok?
    ensures HeaderOf(Lines(RenderHeader(entries))).value.Keys == set i | 0 <= i < |entries| :: NormalizeKey(entries[i].0)
    ensures forall i :: 0 <= i < |entries| && (forall j :: i < j < |entries| ==> NormalizeKey(entries[j].0) != NormalizeKey(entries[i].0)) ==>
              HeaderOf(Lines(RenderHeader(entries))).value[NormalizeKey(entries[i].0)] == entries[i].1
  {
    var lines := RenderedLines(entries);
    RenderedLinesParse(entries);
    assert Lines(RenderHeader(entries)) == lines;
    RenderedLinesSplit(entries);
    LinesSplitHeaderOk(lines);
    HeaderKeys(lines);
    RenderedLineKeys(entries);
    forall i | 0 <= i < |entries| && (forall j :: i < j < |entries| ==> NormalizeKey(entries[j].0) != NormalizeKey(entries[i].0))
      ensures HeaderOf(lines).value[NormalizeKey(entries[i].0)] == entries[i].1
    {
      RenderedLastWins(entries, i);
    }
  }

  /** Every rendered line splits into a key and a value. */
  lemma RenderedLinesSplit(entries: seq<(string, string)>)
    requires forall i :: 0 <= i < |entries| ==> Renderable(entries[i])
    ensures forall i :: 0 <= i < |entries| ==> SplitEntry(RenderedLines(entries)[i]).Some?
  {
    forall i | 0 <= i < |entries|
      ensures SplitEntry(RenderedLines(entries)[i]).Some?
    {
      SplitEntryOf(entries[i].0, entries[i].1);
    }
  }

  /** The normalised keys of the entries, in order. */
  function NormalizedKeys(entries: seq<(string, string)>): (r: seq<string>)
    ensures |r| == |entries| && forall i :: 0 <= i < |entries| ==> r[i] == NormalizeKey(entries[i].0)
  {
    seq(|entries|, i requires 0 <= i < |entries| => NormalizeKey(entries[i].0))
  }

  /** Line by line, a rendered header contributes the normalised keys of its entries. */
  lemma RenderedKeySeq(entries: seq<(string, string)>)
    requires |entries| >= 1
    requires forall i :: 0 <= i < |entries| ==> Renderable(entries[i])
    ensures LineKeySeq(RenderedLines(entries)) == NormalizedKeys(entries)
  {
    RenderedLinesParse(entries);
  }

  lemma NormalizedKeysImage(entries: seq<(string, string)>)
    ensures (set k | k in NormalizedKeys(entries)) == set i | 0 <= i < |entries| :: NormalizeKey(entries[i].0)
  {
    var ks := NormalizedKeys(entries);
    forall k | k in ks
      ensures k in set i | 0 <= i < |entries| :: NormalizeKey(entries[i].0)
    {
      var i :| 0 <= i < |ks| && ks[i] == k;
    }
  }

  /** The keys of the rendered lines are the normalised keys of the entries. */
  lemma RenderedLineKeys(entries: seq<(string, string)>)
    requires |entries| >= 1
    requires forall i :: 0 <= i < |entries| ==> Renderable(entries[i])
    ensures LineKeys(RenderedLines(entries)) == set i | 0 <= i < |entries| :: NormalizeKey(entries[i].0)
  {
    RenderedKeySeq(entries);
    NormalizedKeysImage(entries);
  }

  /** An entry whose normalised key no later entry shares is the one the parsed header keeps under that key. */
  lemma RenderedLastWins(entries: seq<(string, string)>, i: nat)
    requires |entries| >= 1 && i < |entries|
    requires forall i :: 0 <= i < |entries| ==> Renderable(entries[i])
    requires forall j :: i < j < |entries| ==> NormalizeKey(entries[j].0) != NormalizeKey(entries[i].0)
    ensures HeaderOf(RenderedLines(entries)).Ok?
    ensures NormalizeKey(entries[i].0) in HeaderOf(RenderedLines(entries)).value
    ensures HeaderOf(RenderedLines(entries)).value[NormalizeKey(entries[i].0)] == entries[i].1
  {
    RenderedLinesParse(entries);
    RenderedLinesSplit(entries);
    LinesSplitHeaderOk(RenderedLines(entries));
    HeaderLastWins(RenderedLines(entries), i);
  }

  /** Two keys that differ only in `.` versus `_` (`SI.a` and `SI_a`) collapse into one entry, and the later line wins. */
  lemma DottedKeysCollide(first: (string, string), second: (string, string))
    requires Renderable(first) && Renderable(second)
    requires NormalizeKey(first.0) == NormalizeKey(second.0)
    ensures HeaderOf(Lines(RenderHeader([first, second]))) == Ok(map[NormalizeKey(second.0) := second.1])
  {
    var entries := [first, second];
    var lines := RenderedLines(entries);
    RenderedLinesParse(entries);
    SplitEntryOf(first.0, first.1);
    SplitEntryOf(second.0, second.1);
    assert lines[..1][..0] == [];
    var m := map[NormalizeKey(first.0) := first.1];
    assert HeaderOf(lines[..1]) == Ok(m);
    assert lines[..1] == lines[..|lines| - 1];
    assert HeaderOf(lines) == Ok(m[NormalizeKey(second.0) := second.1]);
    assert m[NormalizeKey(second.0) := second.1] == map[NormalizeKey(second.0) := second.1];
  }

  /** The text `get_scanimage_acq_time` hands to `strptime`: the epoch value without its first and last characters, commas turned into spaces. */
  function EpochText(header: map<string, string>): (r: Result<string, HeaderError>)
    ensures r.Err? <==> EpochKey !in header
    ensures r.Err? ==> r.error == MissingKey(EpochKey)
    ensures r.Ok? ==> |r.value| == (if |header[EpochKey]| < 2 then 0 else |header[EpochKey]| - 2)
    ensures r.Ok? ==> ',' !in r.value
    ensures r.Ok? ==> forall i :: 0 <= i < |r.value| ==>
              r.value[i] == if header[EpochKey][i + 1] == ',' then ' ' else header[EpochKey][i + 1]
  {
    if EpochKey in header then Ok(Replace(Inner(header[EpochKey]), ',', ' ')) else Err(MissingKey(EpochKey))
  }

  /** `get_scanimage_acq_time` up to the `strptime` call: parse the header, then normalise its epoch entry. */
  method GetScanImageAcqTime(text: string) returns (r: Result<string, HeaderError>)
    ensures r == match HeaderOf(Lines(text))
                 case Err(e) => Err(e)
                 case Ok(header) => EpochText(header)
  {
    var header := ParseScanImageHeader(text);
    if header.Err? {
      return Err(header.error);
    }
    r := EpochText(header.value);
  }
}
