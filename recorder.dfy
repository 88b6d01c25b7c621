/**
 * The recording booth (`rec.py`): the script it reads prompts from, the
 * audio device it picks, the takes it counts at start-up and names while
 * recording, and the prompt index the Up and Down keys move. The recording
 * directory is represented by the set of file names in it.
 */
module Recorder {
  import opened Wrappers
  import opened PyStrings
  import opened Numerals

  /** `bits2dtype(bits)`: the sample type and the file subtype of a take. */
  function Bits2Dtype(bits: int): (r: (string, string))
    ensures bits == 24 ==> r == ("int32", "PCM_24")
    ensures bits != 24 ==> r == ("int16", "PCM_16")
  {
    if bits == 24 then ("int32", "PCM_24") else ("int16", "PCM_16")
  }

  /** An entry of `sd.query_devices()`, reduced to what the search reads. */
  datatype Device = Device(name: string, maxInputChannels: nat, maxOutputChannels: nat)

  /** The `ValueError` raised when no device fits. */
  datatype DeviceError = DeviceNotFound(name: string)

  /** A device with the given name that is not of the wrong kind: an input
      device needs input channels, an output device output channels, and any
      other kind accepts every device of that name. */
  predicate Usable(device: Device, name: string, kind: string) {
    device.name == name &&
    !((kind == "input" && device.maxInputChannels == 0) || (kind == "output" && device.maxOutputChannels == 0))
  }

  /** `find_device_indices(device_name_or_index, kind)` over the device list. */
  method FindDeviceIndices(nameOrIndex: string, kind: string, devices: seq<Device>) returns (r: Result<nat, DeviceError>)
    ensures AllDigits(nameOrIndex) ==> r == Success(ParseNat(nameOrIndex))
    ensures !AllDigits(nameOrIndex) && r.Success? ==>
      r.value < |devices| && Usable(devices[r.value], nameOrIndex, kind) &&
      forall j :: 0 <= j < r.value ==> !Usable(devices[j], nameOrIndex, kind)
    ensures !AllDigits(nameOrIndex) ==>
      (r.Failure? <==> forall j :: 0 <= j < |devices| ==> !Usable(devices[j], nameOrIndex, kind))
    ensures r.Failure? ==> r.error == DeviceNotFound(nameOrIndex)
  {
    if AllDigits(nameOrIndex) {
      return Success(ParseNat(nameOrIndex));
    }
    var i := 0;
    while i < |devices|
      invariant 0 <= i <= |devices|
      invariant forall j :: 0 <= j < i ==> !Usable(devices[j], nameOrIndex, kind)
    {
      var device := devices[i];
      if device.name == nameOrIndex {
        if !((kind == "input" && device.maxInputChannels == 0) || (kind == "output" && device.maxOutputChannels == 0)) {
          return Success(i);
        }
      }
      i := i + 1;
    }
    r := Failure(DeviceNotFound(nameOrIndex));
  }

  /** The characters `strip('( )"\n')` removes. */
  predicate IsScriptTrim(c: char) {
    c == '(' || c == ' ' || c == ')' || c == '"' || c == '\n'
  }

  /** `line.strip('( )"\n').split(' "')`. */
  function SplitScriptLine(line: string): seq<string> {
    Split(StripBy(line, IsScriptTrim), " \"")
  }

  /** The line of a script in the Festival data format for one prompt. */
  function FestivalLine(id: string, utt: string): string {
    "( " + id + " \"" + utt + "\" )\n"
  }

  /** No space is followed by a double quote. */
  predicate NoQuoteAfterSpace(s: string) {
    forall k :: 0 <= k < |s| - 1 ==> !(s[k] == ' ' && s[k + 1] == '"')
  }

  /** A label and an utterance that survive the strip and the split: the
      label does not start, and the utterance does not end, with a stripped
      character, and neither holds the separator. */
  predicate WellFormedPrompt(id: string, utt: string) {
    id != [] && utt != [] && !IsScriptTrim(id[0]) && !IsScriptTrim(utt[|utt| - 1]) &&
    NoQuoteAfterSpace(id) && NoQuoteAfterSpace(utt)
  }

  lemma OccursAtSeparator(s: string, q: nat)
    requires q + 2 <= |s|
    ensures OccursAt(s, " \"", q) <==> s[q] == ' ' && s[q + 1] == '"'
  {
    assert s[q..q + 2][0] == s[q] && s[q..q + 2][1] == s[q + 1];
    assert s[q] == ' ' && s[q + 1] == '"' ==> s[q..q + 2] == " \"";
  }

  lemma SplitOnce(id: string, utt: string)
    requires NoQuoteAfterSpace(id) && NoQuoteAfterSpace(utt)
    ensures Split(id + " \"" + utt, " \"") == [id, utt]
  {
    var sep := " \"";
    var s := id + sep + utt;
    var n := |id|;
    assert forall k :: 0 <= k < n ==> s[k] == id[k];
    assert s[n] == ' ' && s[n + 1] == '"';
    forall q | 0 <= q < n ensures !OccursAt(s, sep, q) {
      OccursAtSeparator(s, q);
    }
    OccursAtSeparator(s, n);
    IndexFromIs(s, sep, 0, n);
    assert s[..n] == id && s[n + 2..] == utt;
    forall q | 0 <= q <= |utt| ensures !OccursAt(utt, sep, q) {
      if q + 2 <= |utt| {
        OccursAtSeparator(utt, q);
      }
    }
  }

  /** A Festival line of a well-formed prompt splits into its label and its
      utterance. */
  lemma FestivalLineSplits(id: string, utt: string)
    requires WellFormedPrompt(id, utt)
    ensures SplitScriptLine(FestivalLine(id, utt)) == [id, utt]
  {
    var core := id + " \"" + utt;
    assert core[0] == id[0] && core[|core| - 1] == utt[|utt| - 1];
    assert FestivalLine(id, utt) == "( " + core + "\" )\n";
    StripByOf("( ", core, "\" )\n", IsScriptTrim);
    SplitOnce(id, utt);
  }

  /** The `ValueError` of `labels, utts = zip(*script)`. */
  datatype ScriptError = NotTwoColumns

  /** The length of the shortest row. */
  function MinWidth(rows: seq<seq<string>>): (m: nat)
    requires rows != []
    ensures forall k :: 0 <= k < |rows| ==> m <= |rows[k]|
    ensures exists k :: 0 <= k < |rows| && m == |rows[k]|
    decreases |rows|
  {
    if |rows| == 1 then |rows[0]|
    else
      var m := MinWidth(rows[1..]);
      assert forall k :: 1 <= k < |rows| ==> rows[k] == rows[1..][k - 1];
      if |rows[0]| <= m then |rows[0]| else m
  }

  /** The labels and utterances of the script: `zip(*rows)` has as many
      columns as the shortest row, and unpacking it into two names needs
      exactly two. */
  function ReadPrompts(lines: seq<string>): Result<(seq<string>, seq<string>), ScriptError> {
    var rows := seq(|lines|, k requires 0 <= k < |lines| => SplitScriptLine(lines[k]));
    if rows == [] || MinWidth(rows) != 2 then Failure(NotTwoColumns)
    else
      Success((seq(|rows|, k requires 0 <= k < |rows| => rows[k][0]),
               seq(|rows|, k requires 0 <= k < |rows| => rows[k][1])))
  }

  /** A script of well-formed Festival lines reads back as its labels and
      utterances. */
  lemma ReadPromptsOf(lines: seq<string>, labels: seq<string>, utts: seq<string>)
    requires |lines| == |labels| == |utts| > 0
    requires forall k :: 0 <= k < |lines| ==> WellFormedPrompt(labels[k], utts[k]) && lines[k] == FestivalLine(labels[k], utts[k])
    ensures ReadPrompts(lines) == Success((labels, utts))
  {
    var rows := seq(|lines|, k requires 0 <= k < |lines| => SplitScriptLine(lines[k]));
    forall k | 0 <= k < |rows| ensures rows[k] == [labels[k], utts[k]] {
      FestivalLineSplits(labels[k], utts[k]);
    }
    assert seq(|rows|, k requires 0 <= k < |rows| => rows[k][0]) == labels;
    assert seq(|rows|, k requires 0 <= k < |rows| => rows[k][1]) == utts;
  }

  /** A line that does not split into two fields, an empty one say, makes
      reading the script fail. */
  lemma ReadPromptsOneField(lines: seq<string>, k: nat)
    requires k < |lines| && |SplitScriptLine(lines[k])| == 1
    ensures ReadPrompts(lines) == Failure(NotTwoColumns)
  {
    var rows := seq(|lines|, k requires 0 <= k < |lines| => SplitScriptLine(lines[k]));
    assert |rows[k]| == 1;
  }

  /** The file a take is saved in: `<name>_<k>.wav`. */
  function TakeName(name: string, k: nat): string {
    name + "_" + NatToString(k) + ".wav"
  }

  lemma TakeNameInjective(name: string, j: nat, k: nat)
    requires TakeName(name, j) == TakeName(name, k)
    ensures j == k
  {
    var s, t := TakeName(name, j), TakeName(name, k);
    var a := |name| + 1;
    assert s[a..|s| - 4] == NatToString(j);
    assert t[a..|t| - 4] == NatToString(k);
  }

  /** Takes 1 to k of name are all in the directory. */
  predicate Counted(files: set<string>, name: string, k: nat) {
    forall j :: 1 <= j <= k ==> TakeName(name, j) in files
  }

  /** The counted take files of name. */
  function Found(name: string, k: nat): set<string> {
    set j: nat | 1 <= j <= k :: TakeName(name, j)
  }

  lemma FoundStep(files: set<string>, name: string, k: nat)
    requires TakeName(name, k + 1) in files
    ensures files - Found(name, k + 1) < files - Found(name, k)
  {
    var t := TakeName(name, k + 1);
    assert Found(name, k + 1) == Found(name, k) + {t};
    if t in Found(name, k) {
      var j: nat :| 1 <= j <= k && TakeName(name, j) == t;
      TakeNameInjective(name, j, k + 1);
    }
    assert t in files - Found(name, k);
  }

  /** The start-up scan of `rec.py`: for every label, the number of takes
      `<label>_1.wav`, `<label>_2.wav`, ... present without a gap. */
  method ScanTakes(labels: seq<string>, files: set<string>) returns (takes: map<string, nat>)
    ensures forall l :: l in takes <==> l in labels
    ensures forall l :: l in takes ==> Counted(files, l, takes[l]) && TakeName(l, takes[l] + 1) !in files
  {
    takes := map[];
    for n := 0 to |labels|
      invariant forall l :: l in takes <==> l in labels[..n]
      invariant forall l :: l in takes ==> Counted(files, l, takes[l]) && TakeName(l, takes[l] + 1) !in files
    {
      var id := labels[n];
      var k := if id in takes then takes[id] else 0;
      while TakeName(id, k + 1) in files
        invariant Counted(files, id, k)
        decreases files - Found(id, k)
      {
        FoundStep(files, id, k);
        k := k + 1;
      }
      takes := takes[id := k];
      assert labels[..n + 1] == labels[..n] + [id];
    }
    assert labels[..|labels|] == labels;
  }

  /** The count after the scan is the largest k with takes 1 to k present. */
  lemma ScanCountLargest(files: set<string>, name: string, k: nat, m: nat)
    requires Counted(files, name, k) && TakeName(name, k + 1) !in files
    requires Counted(files, name, m)
    ensures m <= k
  {
    var next: nat := k + 1;
    assert m > k ==> TakeName(name, next) in files;
  }

  /** `takes[name]` of the `defaultdict(int)`. */
  function TakeCount(takes: map<string, nat>, name: string): nat {
    if name in takes then takes[name] else 0
  }

  /** The file `rec` writes its take to. */
  function NextTakeName(takes: map<string, nat>, name: string): string {
    TakeName(name, TakeCount(takes, name) + 1)
  }

  /** The file `playback` plays. */
  function PlayTarget(takes: map<string, nat>, files: set<string>, name: string): string {
    var wav := TakeName(name, TakeCount(takes, name));
    if wav in files then wav else "not_found.wav"
  }

  /** A new take never has the name of a counted one. */
  lemma NextTakeIsNew(takes: map<string, nat>, name: string, j: nat)
    requires 1 <= j <= TakeCount(takes, name)
    ensures NextTakeName(takes, name) != TakeName(name, j)
  {
    if NextTakeName(takes, name) == TakeName(name, j) {
      TakeNameInjective(name, j, TakeCount(takes, name) + 1);
    }
  }

  /** Playing back right after a recording plays that recording. */
  lemma PlaybackAfterRec(takes: map<string, nat>, files: set<string>, name: string)
    ensures var next := TakeCount(takes, name) + 1;
      PlayTarget(takes[name := next], files + {NextTakeName(takes, name)}, name) == NextTakeName(takes, name)
  {
  }

  /** Counting stops at the first gap, so a later recording can be written
      over a take that lies beyond it: when the scan counted k takes and
      take k + 2 is on disk, the first new recording is a new file and the
      second one reuses the name of take k + 2. */
  lemma GapOverwrite(files: set<string>, name: string, takes: map<string, nat>)
    requires TakeName(name, TakeCount(takes, name) + 1) !in files
    requires TakeName(name, TakeCount(takes, name) + 2) in files
    ensures NextTakeName(takes, name) !in files
    ensures var after := takes[name := TakeCount(takes, name) + 1];
      NextTakeName(after, name) in files && NextTakeName(after, name) != NextTakeName(takes, name)
  {
    var k := TakeCount(takes, name);
    if TakeName(name, k + 2) == TakeName(name, k + 1) {
      TakeNameInjective(name, k + 2, k + 1);
    }
  }

  /** `labels[i]` with Python's indexing: negative indices count from the
      end, and an index out of range raises (None). */
  function PyIndex(s: seq<string>, i: int): (r: Option<string>)
    ensures r.Some? <==> -|s| <= i < |s|
    ensures 0 <= i < |s| ==> r == Some(s[i])
    ensures -|s| <= i < 0 ==> r == Some(s[|s| + i])
  {
    if 0 <= i < |s| then Some(s[i])
    else if -|s| <= i < 0 then Some(s[|s| + i])
    else None
  }

  /** The prompt index after Up. */
  function UpIndex(i: int): (j: int)
    ensures i <= 0 ==> j == -1
    ensures i > 0 ==> j == i - 1
  {
    if i <= 0 then -1 else i - 1
  }

  /** The prompt index after Down, for n prompts. */
  function DownIndex(i: int, n: nat): (j: int)
    ensures i == n - 1 ==> j == n
    ensures i != n - 1 ==> j == i + 1
  {
    if i == n - 1 then n else i + 1
  }

  /** Up undoes Down from every index from -1 on. */
  lemma UpAfterDown(i: int, n: nat)
    requires i >= -1
    ensures UpIndex(DownIndex(i, n)) == i
  {
  }

  /** Down undoes Up from every positive index. */
  lemma DownAfterUp(i: int, n: nat)
    requires i > 0
    ensures DownIndex(UpIndex(i), n) == i
  {
  }

  /** Up on the first prompt leaves the index at -1, which Python reads as
      the last id: recording or playing from there uses the last prompt. */
  lemma UpAtStartSelectsLast(labels: seq<string>, i: int)
    requires labels != [] && i <= 0
    ensures PyIndex(labels, UpIndex(i)) == Some(labels[|labels| - 1])
  {
  }

  /** Moving past the end by more than one prompt leaves no label to use. */
  lemma DownPastEnd(labels: seq<string>)
    ensures PyIndex(labels, DownIndex(DownIndex(|labels| - 1, |labels|), |labels|)) == None
  {
  }

  /** What the window shows after a key: a message, or a prompt and its
      label, or nothing when `utts[i]` raises `IndexError`. */
  datatype Display = Message(text: string) | Prompt(utt: string, id: string) | IndexFault

  function Shown(labels: seq<string>, utts: seq<string>, i: int): (d: Display)
    requires |labels| == |utts|
    ensures d.Prompt? <==> -|utts| <= i < |utts|
    ensures d.Prompt? ==> Some(d.utt) == PyIndex(utts, i) && Some(d.id) == PyIndex(labels, i)
  {
    if -|utts| <= i < |utts| then Prompt(PyIndex(utts, i).value, PyIndex(labels, i).value)
    else IndexFault
  }

  /** The state of a recording session: the prompts, the take counts, the
      files of the recording directory and the prompt index. */
  class Booth {
    const labels: seq<string>
    const utts: seq<string>
    var takes: map<string, nat>
    var files: set<string>
    var i: int

    /** Every counted take is present. */
    ghost predicate Valid()
      reads this
    {
      |labels| == |utts| && forall l :: l in takes ==> Counted(files, l, takes[l])
    }

    /** Start-up: the script read, the takes scanned, the index at
        `--start-idx`. */
    constructor (lines: seq<string>, files: set<string>, startIdx: int)
      requires ReadPrompts(lines).Success?
      ensures Valid()
      ensures (this.labels, this.utts) == ReadPrompts(lines).value
      ensures this.files == files && i == startIdx
      ensures forall l :: l in takes <==> l in labels
      ensures forall l :: l in takes ==> TakeName(l, takes[l] + 1) !in files
    {
      var (labels, utts) := ReadPrompts(lines).value;
      this.labels := labels;
      this.utts := utts;
      this.files := files;
      i := startIdx;
      var scanned := ScanTakes(labels, files);
      takes := scanned;
    }

    /** The Up key. */
    method Up() returns (shown: Display)
      requires Valid()
      modifies this`i
      ensures Valid()
      ensures i == UpIndex(old(i))
      ensures shown == if old(i) <= 0 then Message("This was the first sentence! Go forward instead!")
                       else Shown(labels, utts, i)
    {
      if i <= 0 {
        i := -1;
        shown := Message("This was the first sentence! Go forward instead!");
      } else {
        i := i - 1;
        shown := Shown(labels, utts, i);
      }
    }

    /** The Down key. */
    method Down() returns (shown: Display)
      requires Valid()
      modifies this`i
      ensures Valid()
      ensures i == DownIndex(old(i), |utts|)
      ensures shown == if old(i) == |utts| - 1 then Message("End of list already reached! Go back :)")
                       else Shown(labels, utts, i)
    {
      if i == |utts| - 1 {
        i := |utts|;
        shown := Message("End of list already reached! Go back :)");
      } else {
        i := i + 1;
        shown := Shown(labels, utts, i);
      }
    }

    /** `rec(name, ...)`: the count goes up first, then the take is saved
        under the new count. */
    method Rec(name: string) returns (file: string)
      requires Valid()
      modifies this`takes, this`files
      ensures Valid()
      ensures file == NextTakeName(old(takes), name)
      ensures takes == old(takes)[name := TakeCount(old(takes), name) + 1]
      ensures files == old(files) + {file}
    {
      var k := if name in takes then takes[name] else 0;
      takes := takes[name := k + 1];
      file := TakeName(name, takes[name]);
      files := files + {file};
    }

    /** `playback(name, ...)`: the last take, or `not_found.wav` when its
        file is missing; reading the count of a new name stores 0. */
    method Playback(name: string) returns (file: string)
      requires Valid()
      modifies this`takes
      ensures Valid()
      ensures takes == old(takes)[name := TakeCount(old(takes), name)]
      ensures file == PlayTarget(old(takes), files, name)
    {
      var k := if name in takes then takes[name] else 0;
      takes := takes[name := k];
      file := TakeName(name, k);
      if file !in files {
        file := "not_found.wav";
      }
    }
  }

  /** Two recordings of a prompt after a gap: the first is a new file, the
      second is written over take k + 2, which was on disk before. */
  method RecOverGap(b: Booth, name: string) returns (first: string, second: string)
    requires b.Valid()
    requires TakeName(name, TakeCount(b.takes, name) + 1) !in b.files
    requires TakeName(name, TakeCount(b.takes, name) + 2) in b.files
    modifies b
    ensures first !in old(b.files) && second in old(b.files) && first != second
    ensures b.files == old(b.files) + {first}
  {
    GapOverwrite(b.files, name, b.takes);
    first := b.Rec(name);
    second := b.Rec(name);
  }
}
