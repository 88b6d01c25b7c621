/**
 * Destination planning of the corpus reorganiser (`process_files`): for every
 * selected subdirectory, its kept takes are numbered 1..N in sorted id order,
 * each gets the destination name `<dest>_<category>_<NNN>.<wav|flac>`, a copy
 * or transcode action and one line of `index.tsv`, and the per-category
 * counter grows by one per file.
 */
module Organizer {
  import opened Wrappers
  import opened PyStrings
  import opened Numerals
  import opened PyOrder
  import opened Categories
  import opened Takes

  /** `os.path.join(source_dir, subdir, file)`, relative to the source directory. */
  datatype SrcPath = SrcPath(subdir: string, file: string)

  /** `os.path.join(dest_dir, dest_subdir, name)`, relative to the destination directory. */
  datatype DestPath = DestPath(category: string, name: string)

  /** `shutil.copy2(src, dest)`, or reading src as `dtype` and writing it to
      dest as FLAC with the source's own subtype. */
  datatype Transfer =
    | Copy(src: SrcPath, dest: DestPath)
    | Transcode(src: SrcPath, dest: DestPath, subtype: string, dtype: string)
  {
    function Dest(): DestPath {
      match this
      case Copy(_, d) => d
      case Transcode(_, d, _, _) => d
    }
  }

  /** The options and scripts `process_files` is called with. */
  datatype Config = Config(
    origName: string,
    destName: string,
    emotionScript: map<string, (string, string)>,
    addendaScript: map<string, string>,
    addenda: seq<string>,
    zeroEmotions: seq<string>,
    useFlac: bool)

  /** The numpy dtype the source samples are read as before transcoding. */
  function DecodeDtype(subtype: string): (dtype: string)
    ensures dtype == "int16" <==> subtype == "PCM_16" || subtype == "PCM_U8"
    ensures dtype == "int32" <==> subtype == "PCM_24" || subtype == "PCM_32"
    ensures dtype == "float32" <==> !(subtype in ["PCM_16", "PCM_U8", "PCM_24", "PCM_32"])
  {
    if subtype in ["PCM_16", "PCM_U8"] then "int16"
    else if subtype in ["PCM_24", "PCM_32"] then "int32"
    else if subtype == "FLOAT" then "float32"
    else "float32"
  }

  /** `args.zero_emotion.split(',') if args.zero_emotion else []`: no
      trimming of the names. */
  function ZeroEmotions(option: Option<string>): (r: seq<string>)
    ensures option.None? || option.value == [] ==> r == []
    ensures option.Some? && option.value != [] ==> Join(r, ",") == option.value
    ensures option.Some? && option.value != [] ==> forall k :: 0 <= k < |r| ==> ',' !in r[k]
  {
    match option
    case None => []
    case Some(s) =>
      if s == [] then []
      else
        JoinSplit(s, ",");
        SplitPartsFree(s, ',');
        Split(s, ",")
  }

  function Extension(useFlac: bool): string {
    if useFlac then "flac" else "wav"
  }

  /** `f'{dest_name}_{emotion}_{file_counter:03d}.{ext}'`. */
  function DestName(destName: string, emotion: string, n: nat, useFlac: bool): string {
    destName + "_" + emotion + "_" + ZeroPad3(n) + "." + Extension(useFlac)
  }

  /** Names within one category differ exactly when their numbers do. */
  lemma DestNameInjective(destName: string, emotion: string, n1: nat, n2: nat, useFlac: bool)
    requires DestName(destName, emotion, n1, useFlac) == DestName(destName, emotion, n2, useFlac)
    ensures n1 == n2
  {
    var pre := destName + "_" + emotion + "_";
    var post := "." + Extension(useFlac);
    DestNameParts(destName, emotion, n1, useFlac);
    DestNameParts(destName, emotion, n2, useFlac);
    MiddleEqual(pre, ZeroPad3(n1), ZeroPad3(n2), post);
  }

  /** A destination name is its prefix, its number and its extension. */
  lemma DestNameParts(destName: string, emotion: string, n: nat, useFlac: bool)
    ensures DestName(destName, emotion, n, useFlac) ==
      (destName + "_" + emotion + "_") + (ZeroPad3(n) + ("." + Extension(useFlac)))
  {
  }

  /** Equal texts with the same prefix and suffix have the same middle. */
  lemma MiddleEqual(pre: string, a: string, b: string, post: string)
    requires pre + (a + post) == pre + (b + post)
    ensures a == b
  {
    assert |a| == |b|;
    assert (pre + (a + post))[|pre|..|pre| + |a|] == a;
    assert (pre + (b + post))[|pre|..|pre| + |b|] == b;
  }

  /** The number at the end of a destination name reads back as n. */
  lemma DestNameNumber(destName: string, emotion: string, n: nat, useFlac: bool)
    ensures var name := DestName(destName, emotion, n, useFlac);
      var pre := destName + "_" + emotion + "_";
      var ext := "." + Extension(useFlac);
      StartsWith(name, pre) && EndsWith(name, ext) &&
      AllDigits(name[|pre|..|name| - |ext|]) && |name[|pre|..|name| - |ext|]| >= 3 &&
      ParseNat(name[|pre|..|name| - |ext|]) == n
  {
    var name := DestName(destName, emotion, n, useFlac);
    var pre := destName + "_" + emotion + "_";
    var ext := "." + Extension(useFlac);
    assert name == pre + ZeroPad3(n) + ext;
    assert name[..|pre|] == pre;
    assert name[|name| - |ext|..] == ext;
    assert name[|pre|..|name| - |ext|] == ZeroPad3(n);
  }

  /** The intensity and the text written for one take: addenda are graded
      "0" and take their text from the addenda script; emotion takes take
      both from the emotion script, with the intensity forced to "0" for the
      zero-emotion categories; an id missing from its script gives empty
      fields. */
  function Labels(cfg: Config, emotion: string, baseName: string): (string, string) {
    if emotion in cfg.addenda then
      ("0", if baseName in cfg.addendaScript then cfg.addendaScript[baseName] else "")
    else
      var (intensity, utterance) := if baseName in cfg.emotionScript then cfg.emotionScript[baseName] else ("", "");
      (if emotion in cfg.zeroEmotions then "0" else intensity, utterance)
  }

  /** The intensity rules, case by case. */
  lemma LabelsRule(cfg: Config, emotion: string, baseName: string)
    ensures emotion in cfg.addenda ==> Labels(cfg, emotion, baseName).0 == "0"
    ensures emotion in cfg.addenda && baseName in cfg.addendaScript ==>
      Labels(cfg, emotion, baseName).1 == cfg.addendaScript[baseName]
    ensures emotion in cfg.addenda && baseName !in cfg.addendaScript ==> Labels(cfg, emotion, baseName).1 == ""
    ensures emotion !in cfg.addenda && emotion in cfg.zeroEmotions ==> Labels(cfg, emotion, baseName).0 == "0"
    ensures emotion !in cfg.addenda && baseName in cfg.emotionScript ==>
      Labels(cfg, emotion, baseName).1 == cfg.emotionScript[baseName].1 &&
      (emotion !in cfg.zeroEmotions ==> Labels(cfg, emotion, baseName).0 == cfg.emotionScript[baseName].0)
    ensures emotion !in cfg.addenda && baseName !in cfg.emotionScript ==>
      Labels(cfg, emotion, baseName).1 == "" &&
      Labels(cfg, emotion, baseName).0 == (if emotion in cfg.zeroEmotions then "0" else "")
  {
  }

  /** With the addenda list that discovery computes from the listing, as
      the script's entry point passes it, a selected category is graded as an
      addendum exactly when it starts with `addendum`, and its intensity is
      then "0". */
  lemma AddendaDiscovered(cfg: Config, listing: seq<(string, seq<string>)>, k: nat, emotion: string, baseName: string)
    requires Discover(Subdirs(listing), cfg.origName).Success?
    requires cfg.addenda == Discover(Subdirs(listing), cfg.origName).value.1
    requires k < |listing| && Selected(listing[k].0, cfg.origName) && CategoryOf(listing[k].0) == Success(emotion)
    ensures emotion in cfg.addenda <==> IsAddendum(emotion)
    ensures IsAddendum(emotion) ==> Labels(cfg, emotion, baseName).0 == "0"
  {
    DiscoverPartitions(Subdirs(listing), cfg.origName);
    CategoriesOfMember(Subdirs(listing), cfg.origName, k);
  }

  /** One line of `index.tsv`: name, voice, category, intensity, text. */
  function RowLine(name: string, voice: string, category: string, intensity: string, text: string): string {
    name + "\t" + (voice + "\t" + (category + "\t" + (intensity + "\t" + text))) + "\n"
  }

  /** A row is the tab-join of its five fields and a newline; when no field
      holds a tab, splitting the row on tabs gives the fields back. */
  lemma RowFields(name: string, voice: string, category: string, intensity: string, text: string)
    requires '\t' !in name && '\t' !in voice && '\t' !in category && '\t' !in intensity && '\t' !in text
    ensures var row := RowLine(name, voice, category, intensity, text);
      |row| > 0 && row[|row| - 1] == '\n' &&
      Split(row[..|row| - 1], "\t") == [name, voice, category, intensity, text]
  {
    var f4 := [text];
    var f3 := [intensity, text];
    var f2 := [category, intensity, text];
    var f1 := [voice, category, intensity, text];
    var fields := [name, voice, category, intensity, text];
    assert f3[1..] == f4 && f2[1..] == f3 && f1[1..] == f2 && fields[1..] == f1;
    assert Join(f4, "\t") == text;
    assert Join(f3, "\t") == intensity + "\t" + text;
    assert Join(f2, "\t") == category + "\t" + (intensity + "\t" + text);
    assert Join(f1, "\t") == voice + "\t" + (category + "\t" + (intensity + "\t" + text));
    var body := Join(fields, "\t");
    assert body == name + "\t" + (voice + "\t" + (category + "\t" + (intensity + "\t" + text)));
    var row := RowLine(name, voice, category, intensity, text);
    assert row == body + "\n";
    assert row[..|row| - 1] == body;
    SplitJoin(fields, '\t');
  }

  /** What one kept take turns into. */
  datatype Planned = Planned(transfer: Transfer, row: string)

  /** The take of baseName, kept as file, numbered n within its category. */
  function Entry(cfg: Config, subdir: string, emotion: string, n: nat, baseName: string, file: string,
                 subtypeOf: SrcPath -> string): Planned
  {
    var name := DestName(cfg.destName, emotion, n, cfg.useFlac);
    var src := SrcPath(subdir, file);
    var dest := DestPath(emotion, name);
    var labels := Labels(cfg, emotion, baseName);
    var transfer := if cfg.useFlac then Transcode(src, dest, subtypeOf(src), DecodeDtype(subtypeOf(src))) else Copy(src, dest);
    Planned(transfer, RowLine(name, cfg.destName, emotion, labels.0, labels.1))
  }

  predicate KeysKept(kept: map<string, Take>, keys: seq<string>) {
    forall j :: 0 <= j < |keys| ==> keys[j] in kept
  }

  /** The entries of one category, numbered from 1 in the order of keys. */
  function PlanCategory(cfg: Config, subdir: string, emotion: string, kept: map<string, Take>, keys: seq<string>,
                        subtypeOf: SrcPath -> string): (plan: seq<Planned>)
    requires KeysKept(kept, keys)
    ensures |plan| == |keys|
  {
    seq(|keys|, j requires 0 <= j < |keys| => Entry(cfg, subdir, emotion, j + 1, keys[j], kept[keys[j]].file, subtypeOf))
  }

  /** The j-th entry is the take of the j-th id, numbered j + 1. */
  lemma PlanCategoryAt(cfg: Config, subdir: string, emotion: string, kept: map<string, Take>, keys: seq<string>,
                       subtypeOf: SrcPath -> string, j: nat)
    requires KeysKept(kept, keys) && j < |keys|
    ensures PlanCategory(cfg, subdir, emotion, kept, keys, subtypeOf)[j] ==
      Entry(cfg, subdir, emotion, j + 1, keys[j], kept[keys[j]].file, subtypeOf)
  {
  }

  /** `[f for f in os.listdir(src_subdir) if f.endswith('.wav')]`. */
  function WavFiles(names: seq<string>): (r: seq<string>)
    ensures forall f :: f in r <==> f in names && EndsWith(f, ".wav")
    decreases |names|
  {
    if names == [] then []
    else (if EndsWith(names[0], ".wav") then [names[0]] else []) + WavFiles(names[1..])
  }

  /** The `.wav` files of a prefix of the listing come first. */
  lemma {:induction false} WavFilesPrefix(names: seq<string>, i: nat)
    requires i <= |names|
    ensures WavFiles(names[..i]) <= WavFiles(names)
    decreases i
  {
    if i > 0 {
      assert names[..i][1..] == names[1..][..i - 1];
      WavFilesPrefix(names[1..], i - 1);
    }
  }

  /** The kept takes of a listed subdirectory. */
  function KeptTakes(names: seq<string>): map<string, Take> {
    Best(Candidates(WavFiles(names)))
  }

  /** The entries of one subdirectory: its kept takes in sorted id order. */
  function PlanKept(cfg: Config, subdir: string, emotion: string, kept: map<string, Take>,
                    subtypeOf: SrcPath -> string): seq<Planned>
  {
    PlanCategory(cfg, subdir, emotion, kept, SortedKeys(kept.Keys), subtypeOf)
  }

  /** The index lines, the file actions and the `Counter` of files per
      category. */
  datatype Output = Output(rows: seq<string>, transfers: seq<Transfer>, counts: map<string, nat>)

  /** `counter[key]` of a `Counter`: 0 for a missing key. */
  function Count(counts: map<string, nat>, key: string): nat {
    if key in counts then counts[key] else 0
  }

  /** n times `counter[key] += 1`. */
  function AddCount(counts: map<string, nat>, key: string, n: nat): map<string, nat> {
    if n == 0 then counts else counts[key := Count(counts, key) + n]
  }

  /** `counter[key] += 1`. */
  function Bump(counts: map<string, nat>, key: string): map<string, nat> {
    counts[key := Count(counts, key) + 1]
  }

  /** One more `counter[key] += 1`. */
  lemma AddCountStep(counts: map<string, nat>, key: string, n: nat)
    ensures Bump(AddCount(counts, key, n), key) == AddCount(counts, key, n + 1)
  {
  }

  function RowsOf(plan: seq<Planned>): (r: seq<string>)
    ensures |r| == |plan| && forall j :: 0 <= j < |plan| ==> r[j] == plan[j].row
  {
    seq(|plan|, j requires 0 <= j < |plan| => plan[j].row)
  }

  function TransfersOf(plan: seq<Planned>): (r: seq<Transfer>)
    ensures |r| == |plan| && forall j :: 0 <= j < |plan| ==> r[j] == plan[j].transfer
  {
    seq(|plan|, j requires 0 <= j < |plan| => plan[j].transfer)
  }

  function Extend(out: Output, emotion: string, plan: seq<Planned>): Output {
    Output(out.rows + RowsOf(plan), out.transfers + TransfersOf(plan), AddCount(out.counts, emotion, |plan|))
  }

  /** The entries a selected subdirectory contributes, from its name, its
      category and the names of its files. */
  type Planner = (string, string, seq<string>) -> seq<Planned>

  /** The entries of `process_files` when select(names) gives the kept takes
      of a subdirectory's files. */
  function Planning(cfg: Config, subtypeOf: SrcPath -> string, select: seq<string> -> map<string, Take>): Planner {
    (subdir, emotion, names) => PlanKept(cfg, subdir, emotion, select(names), subtypeOf)
  }

  lemma PlanningApplies(cfg: Config, subtypeOf: SrcPath -> string, select: seq<string> -> map<string, Take>,
                        subdir: string, emotion: string, names: seq<string>)
    ensures Planning(cfg, subtypeOf, select)(subdir, emotion, names) ==
      PlanCategory(cfg, subdir, emotion, select(names), SortedKeys(select(names).Keys), subtypeOf)
  {
  }

  /** The loop of `process_files` over the listed subdirectories, one
      subdirectory's entries at a time. */
  function Fold(origName: string, listing: seq<(string, seq<string>)>, plan: Planner): Result<Output, CategoryError>
    decreases |listing|
  {
    if listing == [] then Success(Output([], [], map[]))
    else
      var (subdir, names) := listing[|listing| - 1];
      match Fold(origName, listing[..|listing| - 1], plan)
      case Failure(e) => Failure(e)
      case Success(out) => Step(origName, out, subdir, names, plan)
  }

  /** One turn of the loop: a subdirectory that is not selected leaves the
      output alone, a selected one without `_` stops the loop. */
  function Step(origName: string, out: Output, subdir: string, names: seq<string>, plan: Planner): Result<Output, CategoryError> {
    if !StartsWith(subdir, origName) then Success(out)
    else match CategoryOf(subdir)
      case Failure(e) => Failure(e)
      case Success(emotion) => Success(Extend(out, emotion, plan(subdir, emotion, names)))
  }

  /** What `process_files` produces for a listing of (subdirectory, file
      names), or the error of the first selected subdirectory without `_`. */
  function Process(cfg: Config, listing: seq<(string, seq<string>)>, subtypeOf: SrcPath -> string): Result<Output, CategoryError> {
    Fold(cfg.origName, listing, Planning(cfg, subtypeOf, KeptTakes))
  }

  /** The numbering loop over the sorted kept ids of one subdirectory. */
  method NumberCategory(cfg: Config, subdir: string, emotion: string, kept: map<string, Take>, keys: seq<string>,
                        subtypeOf: SrcPath -> string, out: Output) returns (next: Output)
    requires KeysKept(kept, keys)
    ensures next == Extend(out, emotion, PlanCategory(cfg, subdir, emotion, kept, keys, subtypeOf))
  {
    var rows, transfers, counts := out.rows, out.transfers, out.counts;
    ghost var plan := PlanCategory(cfg, subdir, emotion, kept, keys, subtypeOf);
    var fileCounter := 1;
    var j := 0;
    while j < |keys|
      invariant 0 <= j <= |keys| && fileCounter == j + 1
      invariant rows == out.rows + RowsOf(plan[..j])
      invariant transfers == out.transfers + TransfersOf(plan[..j])
      invariant counts == AddCount(out.counts, emotion, j)
    {
      var baseName := keys[j];
      var transfer, line := NumberEntry(cfg, subdir, emotion, fileCounter, baseName, kept[baseName].file, subtypeOf);
      PlanCategoryAt(cfg, subdir, emotion, kept, keys, subtypeOf, j);
      PrefixStep(plan, j);
      SnocAssoc(out.rows, RowsOf(plan[..j]), line);
      SnocAssoc(out.transfers, TransfersOf(plan[..j]), transfer);
      AddCountStep(out.counts, emotion, j);
      rows := rows + [line];
      transfers := transfers + [transfer];
      counts := Bump(counts, emotion);
      fileCounter := fileCounter + 1;
      j := j + 1;
    }
    assert plan[..j] == plan;
    next := Output(rows, transfers, counts);
  }

  /** The body of the numbering loop: the action and the index line of the
      take of baseName, kept as file, under number fileCounter. */
  method NumberEntry(cfg: Config, subdir: string, emotion: string, fileCounter: nat, baseName: string, file: string,
                     subtypeOf: SrcPath -> string) returns (transfer: Transfer, line: string)
    ensures Planned(transfer, line) == Entry(cfg, subdir, emotion, fileCounter, baseName, file, subtypeOf)
  {
    var src := SrcPath(subdir, file);
    var intensity, utterance;
    if emotion in cfg.addenda {
      intensity := "0";
      utterance := if baseName in cfg.addendaScript then cfg.addendaScript[baseName] else "";
    } else {
      var entry := if baseName in cfg.emotionScript then cfg.emotionScript[baseName] else ("", "");
      intensity, utterance := entry.0, entry.1;
      if emotion in cfg.zeroEmotions {
        intensity := "0";
      }
    }
    var newFileName := cfg.destName + "_" + emotion + "_" + ZeroPad3(fileCounter) + "." + (if cfg.useFlac then "flac" else "wav");
    var dest := DestPath(emotion, newFileName);
    if cfg.useFlac {
      var originalSubtype := subtypeOf(src);
      transfer := Transcode(src, dest, originalSubtype, DecodeDtype(originalSubtype));
    } else {
      transfer := Copy(src, dest);
    }
    assert (intensity, utterance) == Labels(cfg, emotion, baseName);
    assert newFileName == DestName(cfg.destName, emotion, fileCounter, cfg.useFlac);
    line := newFileName + "\t" + (cfg.destName + "\t" + (emotion + "\t" + (intensity + "\t" + utterance))) + "\n";
  }

  lemma SnocAssoc<T>(a: seq<T>, b: seq<T>, x: T)
    ensures (a + b) + [x] == a + (b + [x])
  {
  }

  lemma PrefixStep(plan: seq<Planned>, j: nat)
    requires j < |plan|
    ensures RowsOf(plan[..j + 1]) == RowsOf(plan[..j]) + [plan[j].row]
    ensures TransfersOf(plan[..j + 1]) == TransfersOf(plan[..j]) + [plan[j].transfer]
  {
    assert RowsOf(plan[..j + 1]) == RowsOf(plan[..j]) + [plan[j].row];
    assert TransfersOf(plan[..j + 1]) == TransfersOf(plan[..j]) + [plan[j].transfer];
  }

  /** `process_files` over the listing of the source directory; file
      `subdir/f` of the source directory has the sample subtype
      `subtypeOf(SrcPath(subdir, f))`. */
  method ProcessFiles(cfg: Config, listing: seq<(string, seq<string>)>, subtypeOf: SrcPath -> string)
    returns (r: Result<Output, CategoryError>)
    ensures r == Process(cfg, listing, subtypeOf)
  {
    var out := Output([], [], map[]);
    ghost var plan := Planning(cfg, subtypeOf, KeptTakes);
    var i := 0;
    while i < |listing|
      invariant 0 <= i <= |listing|
      invariant Fold(cfg.origName, listing[..i], plan) == Success(out)
    {
      var (subdir, names) := listing[i];
      assert listing[..i + 1][..i] == listing[..i] && listing[..i + 1][i] == (subdir, names);
      var next := ProcessSubdir(cfg, subdir, names, subtypeOf, out);
      if next.Failure? {
        FoldFailureStays(cfg.origName, listing, plan, i + 1);
        return next;
      }
      out := next.value;
      i := i + 1;
    }
    assert listing[..i] == listing;
    r := Success(out);
  }

  /** The body of the loop of `process_files` for one listed subdirectory. */
  method ProcessSubdir(cfg: Config, subdir: string, names: seq<string>, subtypeOf: SrcPath -> string, out: Output)
    returns (r: Result<Output, CategoryError>)
    ensures r == Step(cfg.origName, out, subdir, names, Planning(cfg, subtypeOf, KeptTakes))
  {
    if !StartsWith(subdir, cfg.origName) {
      return Success(out);
    }
    var parts := SplitFirst(subdir, '_');
    if parts.None? {
      return Failure(NoUnderscore(subdir));
    }
    var emotion := parts.value.1;
    var kept := CollectTakes(WavFiles(names));
    var keys := SortedKeys(kept.Keys);
    SortedKeysKept(kept);
    var next := NumberCategory(cfg, subdir, emotion, kept, keys, subtypeOf, out);
    StepSelected(cfg, subtypeOf, out, subdir, names, emotion);
    r := Success(next);
  }

  /** The sorted ids of a map are keys of it. */
  lemma SortedKeysKept(kept: map<string, Take>)
    ensures KeysKept(kept, SortedKeys(kept.Keys))
  {
  }

  /** The step of a selected subdirectory with category emotion appends the
      entries of its kept takes. */
  lemma StepSelected(cfg: Config, subtypeOf: SrcPath -> string, out: Output, subdir: string, names: seq<string>, emotion: string)
    requires StartsWith(subdir, cfg.origName) && SplitFirst(subdir, '_').Some? && SplitFirst(subdir, '_').value.1 == emotion
    ensures Step(cfg.origName, out, subdir, names, Planning(cfg, subtypeOf, KeptTakes)) ==
      Success(Extend(out, emotion, PlanCategory(cfg, subdir, emotion, KeptTakes(names), SortedKeys(KeptTakes(names).Keys), subtypeOf)))
  {
    assert CategoryOf(subdir) == Success(emotion);
    PlanningApplies(cfg, subtypeOf, KeptTakes, subdir, emotion, names);
  }

  /** Once a prefix of the listing fails, the whole listing fails the same way. */
  lemma {:induction false} FoldFailureStays(origName: string, listing: seq<(string, seq<string>)>, plan: Planner, n: nat)
    requires n <= |listing| && Fold(origName, listing[..n], plan).Failure?
    ensures Fold(origName, listing, plan) == Fold(origName, listing[..n], plan)
    decreases |listing| - n
  {
    if n < |listing| {
      assert listing[..n + 1][..n] == listing[..n];
      FoldFailureStays(origName, listing, plan, n + 1);
    } else {
      assert listing[..n] == listing;
    }
  }

  /** The destinations of one category: `<dest>_<category>_001`, `_002`, ...
      in the order of keys; the sources are the kept files. */
  lemma PlanCategoryDests(cfg: Config, subdir: string, emotion: string, kept: map<string, Take>, keys: seq<string>,
                          subtypeOf: SrcPath -> string)
    requires KeysKept(kept, keys)
    ensures var plan := PlanCategory(cfg, subdir, emotion, kept, keys, subtypeOf);
      forall j :: 0 <= j < |plan| ==>
        plan[j].transfer.Dest() == DestPath(emotion, DestName(cfg.destName, emotion, j + 1, cfg.useFlac)) &&
        plan[j].transfer.src == SrcPath(subdir, kept[keys[j]].file)
  {
    var plan := PlanCategory(cfg, subdir, emotion, kept, keys, subtypeOf);
    forall j | 0 <= j < |plan|
      ensures plan[j].transfer.Dest() == DestPath(emotion, DestName(cfg.destName, emotion, j + 1, cfg.useFlac))
      ensures plan[j].transfer.src == SrcPath(subdir, kept[keys[j]].file)
    {
      PlanCategoryAt(cfg, subdir, emotion, kept, keys, subtypeOf, j);
      EntryDest(cfg, subdir, emotion, j + 1, keys[j], kept[keys[j]].file, subtypeOf);
    }
  }

  /** An entry copies or transcodes its file to its numbered name. */
  lemma EntryDest(cfg: Config, subdir: string, emotion: string, n: nat, baseName: string, file: string,
                  subtypeOf: SrcPath -> string)
    ensures Entry(cfg, subdir, emotion, n, baseName, file, subtypeOf).transfer.Dest() ==
      DestPath(emotion, DestName(cfg.destName, emotion, n, cfg.useFlac))
    ensures Entry(cfg, subdir, emotion, n, baseName, file, subtypeOf).transfer.src == SrcPath(subdir, file)
  {
  }

  /** Every file of one category goes into that category's directory, each
      under a name of its own. */
  lemma PlanCategoryDistinct(cfg: Config, subdir: string, emotion: string, kept: map<string, Take>, keys: seq<string>,
                             subtypeOf: SrcPath -> string)
    requires KeysKept(kept, keys)
    ensures var plan := PlanCategory(cfg, subdir, emotion, kept, keys, subtypeOf);
      forall j :: 0 <= j < |plan| ==> plan[j].transfer.Dest().category == emotion
    ensures var plan := PlanCategory(cfg, subdir, emotion, kept, keys, subtypeOf);
      forall j1, j2 :: 0 <= j1 < j2 < |plan| ==> plan[j1].transfer.Dest() != plan[j2].transfer.Dest()
  {
    var plan := PlanCategory(cfg, subdir, emotion, kept, keys, subtypeOf);
    PlanCategoryDests(cfg, subdir, emotion, kept, keys, subtypeOf);
    forall j1, j2 | 0 <= j1 < j2 < |plan| ensures plan[j1].transfer.Dest() != plan[j2].transfer.Dest() {
      if plan[j1].transfer.Dest() == plan[j2].transfer.Dest() {
        DestNameInjective(cfg.destName, emotion, j1 + 1, j2 + 1, cfg.useFlac);
      }
    }
  }

  /** A subdirectory keeps a take for exactly the ids of its `.wav` files
      that match. */
  lemma KeptTakesIds(names: seq<string>, id: string)
    ensures id in KeptTakes(names) <==>
      exists f :: f in names && EndsWith(f, ".wav") && TakeOf(f).Some? && TakeOf(f).value.0 == id
  {
    var files := WavFiles(names);
    BestOfFilesIds(files, id);
    if f :| f in names && EndsWith(f, ".wav") && TakeOf(f).Some? && TakeOf(f).value.0 == id {
      var i :| 0 <= i < |files| && files[i] == f;
    }
  }

  /** The kept take of an id is one of the subdirectory's `.wav` files and
      its take is for that id; no `.wav` file of the subdirectory holds a
      take for that id with a higher number. */
  lemma KeptTakeHighest(names: seq<string>, id: string)
    requires id in KeptTakes(names)
    ensures var t := KeptTakes(names)[id];
      t.file in names && EndsWith(t.file, ".wav") && TakeOf(t.file) == Some((id, t.counter))
    ensures var t := KeptTakes(names)[id];
      forall f :: f in names && EndsWith(f, ".wav") && TakeOf(f).Some? && TakeOf(f).value.0 == id ==>
        OnlyDigits(TakeOf(f).value.1) && ParseNat(TakeOf(f).value.1) <= ParseNat(t.counter)
  {
    var files := WavFiles(names);
    assert KeptTakes(names) == Best(Candidates(files));
    BestOfFilesHighest(files, id);
    forall f | f in names && EndsWith(f, ".wav") && TakeOf(f).Some? && TakeOf(f).value.0 == id
      ensures OnlyDigits(TakeOf(f).value.1) && ParseNat(TakeOf(f).value.1) <= ParseNat(KeptTakes(names)[id].counter)
    {
      var i :| 0 <= i < |files| && files[i] == f;
    }
  }

  /** A `.wav` file p is listed among the `.wav` files of the names up to p,
      all of which are names listed up to p. */
  lemma WavWithin(names: seq<string>, p: nat) returns (j: nat, h: nat)
    requires p < |names| && EndsWith(names[p], ".wav")
    ensures h == |WavFiles(names[..p + 1])| && j < h <= |WavFiles(names)|
    ensures WavFiles(names)[j] == names[p]
    ensures forall m :: 0 <= m < h ==> WavFiles(names)[m] in names[..p + 1]
  {
    var pre := names[..p + 1];
    var a := WavFiles(pre);
    WavFilesPrefix(names, p + 1);
    assert pre[p] == names[p];
    j :| 0 <= j < |a| && a[j] == names[p];
    h := |a|;
    forall m | 0 <= m < h ensures WavFiles(names)[m] in pre {
      assert a[m] == WavFiles(names)[m];
    }
  }

  /** On equal take numbers the first-listed `.wav` file stays: a file listed
      later under a new name, with the same id and the same take number, is
      not the kept take. */
  lemma KeptFirstListed(names: seq<string>, p: nat, q: nat)
    requires p < q < |names|
    requires EndsWith(names[p], ".wav") && EndsWith(names[q], ".wav")
    requires TakeOf(names[p]).Some? && TakeOf(names[q]).Some?
    requires TakeOf(names[p]).value.0 == TakeOf(names[q]).value.0
    requires OnlyDigits(TakeOf(names[p]).value.1) && OnlyDigits(TakeOf(names[q]).value.1)
    requires ParseNat(TakeOf(names[p]).value.1) == ParseNat(TakeOf(names[q]).value.1)
    requires names[q] !in names[..q]
    ensures TakeOf(names[p]).value.0 in KeptTakes(names)
    ensures KeptTakes(names)[TakeOf(names[p]).value.0].file != names[q]
  {
    var wf := WavFiles(names);
    var p', h := WavWithin(names, p);
    var q' :| 0 <= q' < |wf| && wf[q'] == names[q];
    assert names[q] !in names[..p + 1] by {
      assert names[..p + 1] == names[..q][..p + 1];
    }
    FirstListedWins(wf, p', q');
  }

  /** Two subdirectories with the same category both start their numbering
      at 1, so their first files get the same destination. */
  lemma NumberingRestarts(cfg: Config, subdir1: string, subdir2: string, emotion: string,
                          kept1: map<string, Take>, kept2: map<string, Take>, subtypeOf: SrcPath -> string)
    requires |PlanKept(cfg, subdir1, emotion, kept1, subtypeOf)| > 0
    requires |PlanKept(cfg, subdir2, emotion, kept2, subtypeOf)| > 0
    ensures PlanKept(cfg, subdir1, emotion, kept1, subtypeOf)[0].transfer.Dest() ==
            PlanKept(cfg, subdir2, emotion, kept2, subtypeOf)[0].transfer.Dest()
  {
    PlanKeptFirst(cfg, subdir1, emotion, kept1, subtypeOf);
    PlanKeptFirst(cfg, subdir2, emotion, kept2, subtypeOf);
  }

  lemma PlanKeptFirst(cfg: Config, subdir: string, emotion: string, kept: map<string, Take>, subtypeOf: SrcPath -> string)
    requires |PlanKept(cfg, subdir, emotion, kept, subtypeOf)| > 0
    ensures PlanKept(cfg, subdir, emotion, kept, subtypeOf)[0].transfer.Dest() ==
            DestPath(emotion, DestName(cfg.destName, emotion, 1, cfg.useFlac))
  {
    var keys := SortedKeys(kept.Keys);
    SortedKeysKept(kept);
    PlanCategoryAt(cfg, subdir, emotion, kept, keys, subtypeOf, 0);
    EntryDest(cfg, subdir, emotion, 1, keys[0], kept[keys[0]].file, subtypeOf);
  }

  /** The subdirectory names of a listing. */
  function Subdirs(listing: seq<(string, seq<string>)>): (r: seq<string>)
    ensures |r| == |listing| && forall i :: 0 <= i < |listing| ==> r[i] == listing[i].0
  {
    seq(|listing|, i requires 0 <= i < |listing| => listing[i].0)
  }

  /** The number of transfers into category. */
  function CountInto(transfers: seq<Transfer>, category: string): nat
    decreases |transfers|
  {
    if transfers == [] then 0
    else
      var last := if transfers[|transfers| - 1].Dest().category == category then 1 else 0;
      CountInto(transfers[..|transfers| - 1], category) + last
  }

  lemma {:induction false} CountIntoAppend(a: seq<Transfer>, b: seq<Transfer>, category: string)
    ensures CountInto(a + b, category) == CountInto(a, category) + CountInto(b, category)
    decreases |b|
  {
    if b == [] {
      assert a + b == a;
    } else {
      var n := |b| - 1;
      assert (a + b)[..|a + b| - 1] == a + b[..n];
      CountIntoAppend(a, b[..n], category);
    }
  }

  /** All transfers go into one category. */
  lemma {:induction false} CountIntoUniform(transfers: seq<Transfer>, emotion: string, category: string)
    requires forall j :: 0 <= j < |transfers| ==> transfers[j].Dest().category == emotion
    ensures CountInto(transfers, category) == if category == emotion then |transfers| else 0
    decreases |transfers|
  {
    if transfers != [] {
      CountIntoUniform(transfers[..|transfers| - 1], emotion, category);
    }
  }

  /** One subdirectory's step keeps the counter equal to the number of
      transfers per category. */
  lemma ExtendCounts(out: Output, emotion: string, plan: seq<Planned>, category: string)
    requires forall j :: 0 <= j < |plan| ==> plan[j].transfer.Dest().category == emotion
    ensures Count(Extend(out, emotion, plan).counts, category) ==
      Count(out.counts, category) + (if category == emotion then |plan| else 0)
    ensures CountInto(Extend(out, emotion, plan).transfers, category) ==
      CountInto(out.transfers, category) + (if category == emotion then |plan| else 0)
  {
    var ts := TransfersOf(plan);
    CountIntoAppend(out.transfers, ts, category);
    CountIntoUniform(ts, emotion, category);
  }

  /** Every entry of a subdirectory goes into the directory of its category. */
  ghost predicate PlansInto(plan: Planner) {
    forall subdir, emotion, names, j :: 0 <= j < |plan(subdir, emotion, names)| ==>
      plan(subdir, emotion, names)[j].transfer.Dest().category == emotion
  }

  /** The entries of a subdirectory have destinations of their own. */
  ghost predicate PlansDistinct(plan: Planner) {
    forall subdir, emotion, names, j1, j2 :: 0 <= j1 < j2 < |plan(subdir, emotion, names)| ==>
      plan(subdir, emotion, names)[j1].transfer.Dest() != plan(subdir, emotion, names)[j2].transfer.Dest()
  }

  lemma PlanningSound(cfg: Config, subtypeOf: SrcPath -> string, select: seq<string> -> map<string, Take>)
    ensures PlansInto(Planning(cfg, subtypeOf, select)) && PlansDistinct(Planning(cfg, subtypeOf, select))
  {
    var plan := Planning(cfg, subtypeOf, select);
    forall subdir, emotion, names
      ensures forall j :: 0 <= j < |plan(subdir, emotion, names)| ==>
        plan(subdir, emotion, names)[j].transfer.Dest().category == emotion
      ensures forall j1, j2 :: 0 <= j1 < j2 < |plan(subdir, emotion, names)| ==>
        plan(subdir, emotion, names)[j1].transfer.Dest() != plan(subdir, emotion, names)[j2].transfer.Dest()
    {
      var kept := select(names);
      PlanningApplies(cfg, subtypeOf, select, subdir, emotion, names);
      PlanCategoryDistinct(cfg, subdir, emotion, kept, SortedKeys(kept.Keys), subtypeOf);
    }
  }

  /** The loop fails exactly when category discovery does, with the same
      error; when it succeeds, every transfer goes into the directory of a
      discovered category, there is one index line per transfer, and the
      counter of each category is the number of transfers into it. */
  lemma {:induction false} FoldAgrees(origName: string, listing: seq<(string, seq<string>)>, plan: Planner)
    requires PlansInto(plan)
    ensures var p := Fold(origName, listing, plan);
      var d := Discover(Subdirs(listing), origName);
      (p.Failure? <==> d.Failure?) && (p.Failure? ==> p.error == d.error)
    ensures var p := Fold(origName, listing, plan);
      var d := Discover(Subdirs(listing), origName);
      p.Success? ==>
        |p.value.rows| == |p.value.transfers| &&
        (forall t :: t in p.value.transfers ==> t.Dest().category in d.value.0 + d.value.1) &&
        (forall c :: Count(p.value.counts, c) == CountInto(p.value.transfers, c))
    decreases |listing|
  {
    if listing != [] {
      var n := |listing| - 1;
      var init := listing[..n];
      var (subdir, names) := listing[n];
      assert Subdirs(listing)[..n] == Subdirs(init);
      FoldAgrees(origName, init, plan);
      var p0 := Fold(origName, init, plan);
      if p0.Success? && StartsWith(subdir, origName) && CategoryOf(subdir).Success? {
        var emotion := CategoryOf(subdir).value;
        var entries := plan(subdir, emotion, names);
        var out := Extend(p0.value, emotion, entries);
        assert Fold(origName, listing, plan) == Success(out);
        forall c ensures Count(out.counts, c) == CountInto(out.transfers, c) {
          ExtendCounts(p0.value, emotion, entries, c);
        }
        var d := Discover(Subdirs(listing), origName).value;
        forall t | t in out.transfers ensures t.Dest().category in d.0 + d.1 {
          if t !in p0.value.transfers {
            var j :| 0 <= j < |entries| && TransfersOf(entries)[j] == t;
          }
        }
      }
    }
  }

  /** No two selected subdirectories have the same category. */
  predicate DistinctCategories(listing: seq<(string, seq<string>)>, origName: string) {
    forall i, j :: 0 <= i < j < |listing| && Selected(listing[i].0, origName) && Selected(listing[j].0, origName) ==>
      CategoryOf(listing[i].0) != CategoryOf(listing[j].0)
  }

  /** The category of the last subdirectory is not among those discovered
      before it. */
  lemma NewCategoryFresh(origName: string, listing: seq<(string, seq<string>)>)
    requires listing != [] && DistinctCategories(listing, origName)
    requires Selected(listing[|listing| - 1].0, origName) && CategoryOf(listing[|listing| - 1].0).Success?
    requires Discover(Subdirs(listing[..|listing| - 1]), origName).Success?
    ensures var d := Discover(Subdirs(listing[..|listing| - 1]), origName).value;
      CategoryOf(listing[|listing| - 1].0).value !in d.0 + d.1
  {
    var n := |listing| - 1;
    var names := Subdirs(listing[..n]);
    var d := Discover(names, origName).value;
    var c := CategoryOf(listing[n].0).value;
    DiscoverMembers(names, origName, c);
    forall i | 0 <= i < n
      ensures !(Selected(names[i], origName) && CategoryOf(names[i]) == Success(c))
    {
      assert names[i] == listing[i].0;
    }
  }

  /** No destination is written twice. */
  predicate DistinctDests(ts: seq<Transfer>) {
    forall k1, k2 :: 0 <= k1 < k2 < |ts| ==> ts[k1].Dest() != ts[k2].Dest()
  }

  /** Transfers into one new category keep the destinations distinct. */
  lemma DistinctAppend(a: seq<Transfer>, b: seq<Transfer>, emotion: string)
    requires DistinctDests(a) && DistinctDests(b)
    requires forall t :: t in a ==> t.Dest().category != emotion
    requires forall k :: 0 <= k < |b| ==> b[k].Dest().category == emotion
    ensures DistinctDests(a + b)
  {
    var ts := a + b;
    forall k1, k2 | 0 <= k1 < k2 < |ts| ensures ts[k1].Dest() != ts[k2].Dest() {
      if k2 < |a| {
        assert ts[k1] == a[k1] && ts[k2] == a[k2];
      } else if |a| <= k1 {
        assert ts[k1] == b[k1 - |a|] && ts[k2] == b[k2 - |a|];
      } else {
        assert ts[k1] == a[k1] && ts[k2] == b[k2 - |a|];
        assert a[k1] in a;
      }
    }
  }

  /** When no two selected subdirectories share a category, no destination
      is written twice. */
  lemma {:induction false} FoldDistinct(origName: string, listing: seq<(string, seq<string>)>, plan: Planner)
    requires PlansInto(plan) && PlansDistinct(plan)
    requires Fold(origName, listing, plan).Success? && DistinctCategories(listing, origName)
    ensures DistinctDests(Fold(origName, listing, plan).value.transfers)
    decreases |listing|
  {
    if listing != [] {
      var n := |listing| - 1;
      var init := listing[..n];
      var (subdir, names) := listing[n];
      var p0 := Fold(origName, init, plan);
      assert forall i :: 0 <= i < n ==> init[i] == listing[i];
      FoldDistinct(origName, init, plan);
      if StartsWith(subdir, origName) {
        var emotion := CategoryOf(subdir).value;
        var entries := TransfersOf(plan(subdir, emotion, names));
        assert Fold(origName, listing, plan).value.transfers == p0.value.transfers + entries;
        FoldAgrees(origName, init, plan);
        NewCategoryFresh(origName, listing);
        DistinctAppend(p0.value.transfers, entries, emotion);
      }
    }
  }

  /** `process_files` fails exactly when category discovery does, with the
      same error; on success, one index line per transfer, every transfer
      into the directory of a discovered category, and the counter of each
      category equal to the number of its transfers. */
  lemma ProcessAgrees(cfg: Config, listing: seq<(string, seq<string>)>, subtypeOf: SrcPath -> string)
    ensures var p := Process(cfg, listing, subtypeOf);
      var d := Discover(Subdirs(listing), cfg.origName);
      (p.Failure? <==> d.Failure?) && (p.Failure? ==> p.error == d.error)
    ensures var p := Process(cfg, listing, subtypeOf);
      var d := Discover(Subdirs(listing), cfg.origName);
      p.Success? ==>
        |p.value.rows| == |p.value.transfers| &&
        (forall t :: t in p.value.transfers ==> t.Dest().category in d.value.0 + d.value.1) &&
        (forall c :: Count(p.value.counts, c) == CountInto(p.value.transfers, c))
  {
    PlanningSound(cfg, subtypeOf, KeptTakes);
    FoldAgrees(cfg.origName, listing, Planning(cfg, subtypeOf, KeptTakes));
  }

  /** When no two selected subdirectories share a category, `process_files`
      never writes the same destination twice. */
  lemma DistinctDestinations(cfg: Config, listing: seq<(string, seq<string>)>, subtypeOf: SrcPath -> string)
    requires Process(cfg, listing, subtypeOf).Success? && DistinctCategories(listing, cfg.origName)
    ensures var ts := Process(cfg, listing, subtypeOf).value.transfers;
      forall k1, k2 :: 0 <= k1 < k2 < |ts| ==> ts[k1].Dest() != ts[k2].Dest()
  {
    PlanningSound(cfg, subtypeOf, KeptTakes);
    FoldDistinct(cfg.origName, listing, Planning(cfg, subtypeOf, KeptTakes));
  }
}
