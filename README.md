# emospeech-scripts in Dafny

This project models the three deterministic pieces of the emospeech-scripts
tool chain for building an emotional speech corpus, and proves properties of
them.

- **The corpus reorganiser** (`organize_voice.py`) has four steps.
  - It reads the Festival-style prompt scripts: emotion scripts
    `( t3_<digits> "<intensity>: <text>" )` and addenda scripts
    `( t3a_<digits> "<text>" )`.
  - It splits the speaker's recording directories into emotion and addendum
    categories.
  - In every category it keeps the highest-numbered take of each utterance id.
  - It numbers the kept takes `<voice>_<category>_001.wav` … in sorted id
    order, and writes one `index.tsv` row per file. The row holds file name,
    voice, category, intensity and text. The intensity is forced to `0` for
    addenda and for the zero-emotion categories. A file can also be
    transcoded to FLAC, read with a numpy dtype chosen from its subtype.
- **The intensity normaliser** (`intensity_norm_script.py`) has four parts.
  - It rewrites the intensity token of an emotion script line by line, with a
    given distribution of values.
  - It applies the same rewrite to the whole script.
  - It extracts the `<digits>:` intensity of every line and gives their
    minimum and maximum.
  - It checks the arguments of the distribution generator.
- **The recording booth** (`rec.py`) has five parts.
  - It reads a Festival-format prompt script into labels and utterances.
  - It counts the takes already on disk.
  - It names new takes `<label>_<k>.wav` and picks the file `playback` plays.
  - It resolves audio devices by index or by name.
  - It moves between prompts with the Up and Down keys.

Customs of the model:

- **File system.** The file system is a value.
  - The reorganiser receives the source directory as a listing of
    (subdirectory, file names). It returns the index lines, the list of
    copy or transcode actions and the per-category `Counter`.
  - The booth's recording directory is the set of its file names.
  - A script file is the sequence of its lines.
- **Decoders.** The audio subtype of a source file is a function parameter,
  because it is decided by the sound file decoder.
- **Python semantics.** Python's own semantics are written out in
  `pystrings.dfy`, `numerals.dfy` and `ordering.dfy`. They cover these
  operations:
  - `strip`, `split`, `split(sep, 1)`, `str.split()`, `join` and `replace`;
  - `isdigit`, `int` and `str` of integers, and `:03d` padding;
  - string ordering and `sorted`;
  - negative list indices;
  - `defaultdict(int)`, whose reads insert 0.
- **Regular expressions.** They are modelled as matchers over the remaining
  text, with `\d` as the ASCII digits and `\s` as Python's whitespace set.
- **Loops.** Loops of the source are methods with loop invariants, proved
  equal to the function that specifies them.
- **State.** The booth's mutable state (index, take counts, files) is a
  class.

## Model

| member | source | states |
|---|---|---|
| ScriptParser.MatchScriptLine | organize_voice.py:94 | defines `re.match` of the prompt pattern on a stripped line: the id and payload groups, or no match; MatchScriptLineSound and MatchScriptLineRoundTrip state what it accepts |
| ScriptParser.LineMatch | organize_voice.py:93-95 | defines the match of one line of the file, `re.match(..., line.strip())` |
| ScriptParser.StepMatch | organize_voice.py:95-101 | defines one turn of `read_script`: a non-match changes nothing, an emotion payload is split at its first `:` (ValueError without one), an addenda payload is stored stripped |
| ScriptParser.ParseFrom | organize_voice.py:93-101 | defines the `for line in f` loop as a fold of StepMatch that stops at the first error |
| ScriptParser.ScriptOf | organize_voice.py:90-102 | defines `read_script(path, is_emotion)` from the empty dict of the chosen form; the ScriptParser lemmas below state its properties |
| ScriptParser.MatchScriptLineSound | organize_voice.py:94 | a match of `\(\s*(t3a?_\d+)\s*"(.*?)"\s*\)` yields a well-formed `t3_`/`t3a_` id and a payload without a newline |
| ScriptParser.LazyPayloadEnd | organize_voice.py:94 | the lazy `(.*?)` ends at a position where `"\s*\)` matches, with no newline before it |
| ScriptParser.LazyPayloadEndFirst | organize_voice.py:94 | the lazy group stops at the first position where the closing part matches |
| ScriptParser.MatchScriptLineRoundTrip | organize_voice.py:94 | any line `(`, blanks, id, blanks, `"payload"`, blanks, `)`, with a payload free of quotes and newlines, matches with exactly that id and payload, whatever follows |
| ScriptParser.LineMatchCanonical | organize_voice.py:94 | the canonical line `( <id> "<payload>" )\n` is matched after `strip()` with its id and payload |
| ScriptParser.CanonicalStrip | organize_voice.py:94 | `strip()` of a canonical line removes only the trailing newline |
| ScriptParser.ReadScript | organize_voice.py:90-102 | the loop of `read_script` computes the script `ScriptOf` specifies, or the first `ValueError` |
| ScriptParser.LineMatchesAppend | organize_voice.py:93-95 | matching is line by line: the matches of two files one after the other are the matches of each |
| ScriptParser.ParseFromAppend | organize_voice.py:93-101 | reading a + b is reading a, then b from where a left off, and a failure in a stops the read |
| ScriptParser.NonMatchingLineIgnored | organize_voice.py:94-95 | a line that does not match leaves the result unchanged, both the map and any error |
| ScriptParser.LastOccurrenceWins | organize_voice.py:93-101 | a repeated id keeps the value of its last matching line, in both script forms |
| ScriptParser.UnmatchedIdKept | organize_voice.py:96-101 | lines for other ids leave an id's entry as it was |
| ScriptParser.ModePreserved | organize_voice.py:97-101 | reading never turns an emotion script into an addenda script or back |
| ScriptParser.AddendaNeverFail | organize_voice.py:100-101 | reading an addenda script never raises |
| ScriptParser.EmotionReadFails | organize_voice.py:97-98 | an emotion script fails to read exactly when one of its matching lines has a payload without `:` |
| ScriptParser.EmotionErrorIsFirst | organize_voice.py:97-98 | the error reports the id of the first matching line without `:` |
| ScriptParser.EmotionLineRead | organize_voice.py:96-99 | an emotion line stores id → (stripped text before the first `:`, stripped rest), and the rest may hold further colons |
| ScriptParser.AddendaLineRead | organize_voice.py:100-101 | an addenda line stores id → the stripped payload, colons included |
| UtteranceIds.UtteranceIdEndSound | organize_voice.py:94 | the group `t3a?_\d+` ends after a well-formed id, and greedily: no digit follows it |
| UtteranceIds.UtteranceIdEndOf | organize_voice.py:94 | a well-formed id followed by a non-digit is matched whole |
| Categories.Discover | organize_voice.py:104-114 | defines `get_emotions_and_addenda` on the listing: the categories of the selected subdirectories, split by the `addendum` prefix, or the first ValueError; DiscoverFails and DiscoverPartitions state it |
| Categories.CategoryOf | organize_voice.py:109 | `_, emotion = subdir.split('_', 1)` fails exactly when there is no `_`; otherwise the category is the text after the first `_` |
| Categories.GetEmotionsAndAddenda | organize_voice.py:104-114 | the loop of `get_emotions_and_addenda` computes `Discover` |
| Categories.DiscoverFails | organize_voice.py:107-109 | discovery fails exactly when a selected subdirectory has no `_`, and reports the first such one |
| Categories.DiscoverFailureStays | organize_voice.py:107-109 | once a prefix of the listing fails, the whole listing fails with the same error |
| Categories.DiscoverMembers | organize_voice.py:107-113 | every discovered category is the category of a listed subdirectory that starts with the speaker's name |
| Categories.CategoriesOfMember | organize_voice.py:107-109 | the category of every selected subdirectory with a `_` is among the discovered ones |
| Categories.DiscoverPartitions | organize_voice.py:107-113 | on success, the emotions and addenda are the categories of the selected subdirectories in listing order, split by the `addendum` prefix |
| Categories.Keep | organize_voice.py:110-113 | a kept category is a listed one on the chosen side of the `addendum` test |
| Categories.KeepAppend | organize_voice.py:110-113 | filtering preserves listing order: it distributes over concatenation |
| Categories.CategoriesOfAppend | organize_voice.py:107-109 | the categories of a joined listing are the categories of each part, in order |
| Categories.KeepSplits | organize_voice.py:110-113 | each category goes to exactly one of the two lists, with its multiplicity |
| PyStrings.RemoveChar | organize_voice.py:142 | `file.replace(' ', '')` keeps every other character and removes every space |
| PyStrings.RemoveCharAppend | organize_voice.py:142 | removing spaces distributes over concatenation |
| Takes.TakeOf | organize_voice.py:142 | defines `re.match(r'(t3a?_\d+)_(\d+)\.wav', file.replace(' ', ''))`; MatchTakeOf, SpacesIgnored and CandidatesSound/Complete state what it accepts |
| Takes.MatchTake | organize_voice.py:142 | a match of `(t3a?_\d+)_(\d+)\.wav` yields a well-formed id and a digit counter |
| Takes.MatchTakeOf | organize_voice.py:142 | `<id>_<counter>.wav`, followed by anything, matches with that id and counter |
| Takes.MatchTakeSound | organize_voice.py:142 | a matched name starts with `<id>_<counter>.wav` |
| Takes.SpacesIgnored | organize_voice.py:142-144 | spaces in the name are ignored: `t3_00007 _1.wav` gives id `t3_00007`, counter `1` |
| Takes.Candidates | organize_voice.py:141-144 | the candidate takes have numeric counters |
| Takes.CandidatesSound | organize_voice.py:141-144 | every candidate is a listed file whose space-free name matches with the candidate's id and counter |
| Takes.CandidatesComplete | organize_voice.py:141-144 | every listed file that matches is a candidate, under its original name |
| Takes.CandidatesPrefix | organize_voice.py:141-144 | the candidates keep listing order: those of a prefix of the files come first |
| Takes.FirstListedWins | organize_voice.py:145-146 | with the strict `>`, a later file of the same id and an equal counter, not listed up to the first one, is not the kept take |
| Takes.Best | organize_voice.py:145-146 | the retained take of an id is a candidate of that id |
| Takes.BestKeys | organize_voice.py:145-146 | an id is retained exactly when it has a candidate |
| Takes.BestWins | organize_voice.py:145-146 | the retained take has the largest counter of its id, and on equal counters the first listed one stays |
| Takes.WinnerUnique | organize_voice.py:145-146 | only one candidate position wins for an id |
| Takes.BestOfFilesIds | organize_voice.py:140-146 | an id is retained exactly when some listed file's take is for that id |
| Takes.BestOfFilesHighest | organize_voice.py:140-146 | the retained file is listed, its take is for that id, and no listed take of that id has a higher counter |
| Takes.CollectTakes | organize_voice.py:140-146 | the selection loop builds `utterance_files` as `Best` specifies |
| PyOrder.LexIrreflexive | organize_voice.py:149 | string order, the order `sorted` uses, is irreflexive |
| PyOrder.LexTransitive | organize_voice.py:149 | string order is transitive |
| PyOrder.LexTotal | organize_voice.py:149 | string order is total on distinct strings |
| PyOrder.LeastExists | organize_voice.py:149 | every non-empty set of ids has a least one |
| PyOrder.SortedKeys | organize_voice.py:149 | the kept ids in strictly increasing string order, each exactly once |
| Numerals.ParseNat | intensity_norm_script.py:102 | defines `int` of a digit string; ParseNatLeadingZeros and NatToString state its round trips |
| Numerals.NatToString | organize_voice.py:145 | `str(n)` is a digit string without leading zeros that `int` reads back as n |
| Numerals.ParseNatLeadingZeros | organize_voice.py:145 | `int` ignores leading zeros, so `_01` and `_1` are the same counter |
| Numerals.ZeroPad3 | organize_voice.py:162 | `:03d` gives at least 3 digits that read back as n, and plain `str(n)` from 100 on |
| Organizer.DecodeDtype | organize_voice.py:171-178 | `PCM_16`/`PCM_U8` give int16, `PCM_24`/`PCM_32` give int32, and every other subtype gives float32 |
| Organizer.ZeroEmotions | organize_voice.py:228 | no option or an empty one gives []; otherwise the option is cut at every comma: the names, untrimmed, contain no `,` and join back with `,` to the option |
| Organizer.DestName | organize_voice.py:162 | defines the new file name `<voice>_<cat>_<NNN>.<ext>`; DestNameNumber and DestNameInjective state its shape and injectivity |
| Organizer.DestNameInjective | organize_voice.py:162 | within one category, destination names differ exactly when their numbers do |
| Organizer.DestNameNumber | organize_voice.py:162 | a destination name is `<voice>_<category>_` plus at least 3 digits that read back as the number, then the extension |
| Organizer.Labels | organize_voice.py:152-160 | defines the intensity and text of a row from the scripts; LabelsRule states the rule case by case |
| Organizer.LabelsRule | organize_voice.py:152-160 | the intensity is `0` for addenda and zero-emotion categories, otherwise the script's; an id missing from the script gives empty text (and empty intensity for emotions) |
| Organizer.AddendaDiscovered | organize_voice.py:225-229 | with the addenda list discovery returns, as `main` passes it, a selected category is graded as an addendum exactly when it starts with `addendum`, and its intensity is then `0` |
| Organizer.RowLine | organize_voice.py:190 | defines the tab-separated `index.tsv` row; RowFields states that it splits back into its fields |
| Organizer.RowFields | organize_voice.py:190 | a row ends in a newline, and without tabs in the fields it splits on tabs into name, voice, category, intensity, text |
| Organizer.Entry | organize_voice.py:150-190 | defines the action and row for the n-th kept take of a category, copy or transcode with the dtype of its subtype; PlanCategoryDests, LabelsRule and RowFields state its parts |
| Organizer.PlanCategory | organize_voice.py:148-193 | one entry per kept id |
| Organizer.PlanCategoryDests | organize_voice.py:148-192 | the destinations of one category are `<voice>_<cat>_001` … `_N` in sorted id order, and the sources are the kept files under their original names |
| Organizer.PlanCategoryDistinct | organize_voice.py:148-192 | every entry of a category goes into that category's directory, each under a name of its own |
| Organizer.WavFiles | organize_voice.py:138 | exactly the listed files ending in `.wav` |
| Organizer.WavFilesPrefix | organize_voice.py:138 | the filter keeps listing order: the `.wav` files of a prefix of the listing come first |
| Organizer.KeptTakesIds | organize_voice.py:138-146 | a subdirectory keeps a take for exactly the ids of its matching `.wav` files |
| Organizer.KeptTakeHighest | organize_voice.py:138-146 | the kept take is one of the subdirectory's `.wav` files, and no `.wav` take of its id has a higher counter |
| Organizer.KeptFirstListed | organize_voice.py:138-146 | on equal take numbers the first-listed file stays: a `.wav` file listed later under a new name, with the same id and number, is not the kept take |
| Organizer.NumberEntry | organize_voice.py:150-190 | one turn of the numbering loop produces exactly the planned action and index line of its take |
| Organizer.NumberCategory | organize_voice.py:148-193 | the numbering loop appends exactly the planned rows and actions, and adds N to the category's counter |
| Organizer.ProcessSubdir | organize_voice.py:129-193 | one turn of the outer loop: skips an unselected subdirectory, raises on a selected one without `_`, and otherwise appends its planned entries |
| Organizer.StepSelected | organize_voice.py:129-149 | a selected subdirectory with a `_` appends the entries of its kept takes in sorted id order |
| Organizer.ProcessFiles | organize_voice.py:120-199 | the loop of `process_files` computes `Process` |
| Organizer.Step | organize_voice.py:129-193 | defines one turn of the outer loop: skip an unselected subdirectory, raise without `_`, otherwise append the category's planned entries and counts; StepSelected states it for the kept takes |
| Organizer.Fold | organize_voice.py:129-195 | defines the outer loop as a fold of Step that stops at the first error |
| Organizer.Process | organize_voice.py:120-199 | defines `process_files` on the listing; ProcessAgrees and DistinctDestinations state its properties |
| Organizer.FoldFailureStays | organize_voice.py:129-133 | the first selected subdirectory without `_` aborts the whole run with its error |
| Organizer.NumberingRestarts | organize_voice.py:148-162 | two selected subdirectories with the same category both start at 001, so their first files get the same destination |
| Organizer.CountIntoAppend | organize_voice.py:193 | the number of actions into a category distributes over concatenation |
| Organizer.ExtendCounts | organize_voice.py:187-193 | each category's step keeps the counter equal to the number of actions into each category |
| Organizer.PlanningSound | organize_voice.py:148-192 | every subdirectory's entries go into its category, under distinct names |
| Organizer.FoldAgrees | organize_voice.py:129-193 | the outer loop fails exactly when category discovery does, with the same error; on success there is one row per action, every action is into a discovered category, and each counter is the number of actions into its category |
| Organizer.NewCategoryFresh | organize_voice.py:129-135 | with distinct categories, the last subdirectory's category is not among the earlier ones |
| Organizer.DistinctAppend | organize_voice.py:187 | actions into a fresh category keep the destinations distinct |
| Organizer.FoldDistinct | organize_voice.py:129-193 | when no two selected subdirectories share a category, no destination is written twice |
| Organizer.ProcessAgrees | organize_voice.py:104-199 | `process_files` fails exactly when `get_emotions_and_addenda` does, with the same error; on success one row per action, and `file_counts[cat]` equals the number of files copied into cat |
| Organizer.DistinctDestinations | organize_voice.py:120-199 | when no two selected subdirectories share a category, `process_files` never writes the same destination twice |
| PyStrings.SplitFirst | intensity_norm_script.py:65 | `split(':', 1)` fails to unpack exactly when there is no colon; otherwise the text is head + `:` + rest, and the head has no colon |
| PyStrings.SplitWhitespace | intensity_norm_script.py:66 | `str.split()` gives non-empty words free of whitespace, and gives [] exactly for blank text |
| PyStrings.SplitJoinWords | intensity_norm_script.py:66-68 | splitting words joined with single spaces gives the words back |
| Numerals.IntToString | intensity_norm_script.py:67 | `str(v)` is the decimal of v, with a `-` for negative values |
| IntensityNorm.TokenWord | intensity_norm_script.py:67 | the replacement token `"<value>` is one word without a colon |
| IntensityNorm.RewriteLine | intensity_norm_script.py:65-68 | defines the rewrite of one line: ValueError without `:`, IndexError for a blank head, otherwise the head's last word replaced by `"<value>`; RewriteErrors and RewriteReparse state it |
| IntensityNorm.RewriteErrors | intensity_norm_script.py:65-67 | a rewrite raises `ValueError` exactly for a line without `:`, and `IndexError` exactly when the text before the first `:` is blank |
| IntensityNorm.RewriteReparse | intensity_norm_script.py:65-68 | a rewritten line keeps the text from its first `:` on, and its head's words are the old ones with the last replaced by the token |
| IntensityNorm.RewriteTwice | intensity_norm_script.py:65-68 | rewriting a rewritten line with v2 is rewriting the original with v2 |
| IntensityNorm.SearchValue | intensity_norm_script.py:80 | defines `int(re.search(r'(\d+):', line).group(1))`, or None without a match; SearchValueSpec states it |
| IntensityNorm.FindValueFrom | intensity_norm_script.py:80 | `re.search(r'(\d+):')` from p finds the leftmost position where the pattern matches, or reports that none does |
| IntensityNorm.FindValueFromIs | intensity_norm_script.py:80 | the search returns the first matching position |
| IntensityNorm.SearchValueSpec | intensity_norm_script.py:80-82 | a line yields a value exactly when some digit run in it is followed by `:`, and it yields the value of the leftmost such run |
| IntensityNorm.ValueBeforeColon | intensity_norm_script.py:80-82 | a line whose first `:` follows a non-digit and then digits yields those digits |
| IntensityNorm.RewriteValue | intensity_norm_script.py:65-102 | the extractor reads back the value a rewrite wrote, without its sign |
| IntensityNorm.Values | intensity_norm_script.py:94-104 | defines the values of `extract_values_from_script`, one per matching line; ValuesMembers and ValuesEach state it |
| IntensityNorm.ExtractValues | intensity_norm_script.py:94-104 | the loop of `extract_values_from_script` computes `Values` |
| IntensityNorm.ValuesAppend | intensity_norm_script.py:99-102 | values are taken line by line and in order |
| IntensityNorm.ValuesMembers | intensity_norm_script.py:99-102 | every value comes from a line, and every line with a match contributes its value |
| IntensityNorm.ValuesEach | intensity_norm_script.py:99-102 | when every line yields a value, the values are those, in line order |
| IntensityNorm.MinOf | intensity_norm_script.py:87 | `min` returns an element no larger than any other |
| IntensityNorm.MaxOf | intensity_norm_script.py:88 | `max` returns an element no smaller than any other |
| IntensityNorm.AnalyzeScript | intensity_norm_script.py:74-91 | None exactly when no line yields a value; otherwise the min and max are extracted values that bound all the others |
| IntensityNorm.ProcessLine | intensity_norm_script.py:63-71 | the body of the loop writes the rewrite of line i while i < len(distribution), otherwise the line unchanged |
| IntensityNorm.ProcessScript | intensity_norm_script.py:60-71 | each output line is the rewrite of its input line, or the input line itself from index len(distribution) on; without an error there is one output line per input line; on an error, the first failing line is rewritten and the lines before it are written |
| IntensityNorm.ProcessedValues | intensity_norm_script.py:60-104 | extracting values from a fully rewritten script gives the absolute values of the distribution, in order |
| IntensityNorm.CheckDistribution | intensity_norm_script.py:8-14 | `n <= 0`, then `std_dev <= 0`, then `min_val >= max_val` raise `ValueError`; no error exactly when all three checks pass |
| IntensityNorm.EffectiveN | intensity_norm_script.py:144-151 | N defaults to the line count, and a larger N is clamped to it |
| IntensityNorm.EmptyScriptRejected | intensity_norm_script.py:144-154 | processing a script with no lines always stops at the `n <= 0` check |
| IntensityNorm.IntToStringParses | intensity_norm_script.py:155 | `int(str(v)) == v`, and `str(v)` is one word |
| IntensityNorm.StringsWords | intensity_norm_script.py:24 | every element of `map(str, values)` is one word |
| IntensityNorm.ParseAllStrings | intensity_norm_script.py:155 | `map(int, ...)` over `map(str, values)` gives the values back |
| IntensityNorm.DistributionRoundTrip | intensity_norm_script.py:24-155 | `list(map(int, ' '.join(map(str, values)).split())) == values` |
| Recorder.Bits2Dtype | rec.py:132-139 | 24 bits gives (int32, PCM_24); every other value gives (int16, PCM_16) |
| Recorder.FindDeviceIndices | rec.py:161-173 | an all-digit argument is its integer value; otherwise the lowest usable device index with that name; `ValueError` naming the argument exactly when no device is usable |
| PyStrings.StripBy | rec.py:213 | defines `str.strip(chars)`; StripByOf states what it removes |
| PyStrings.Strip | organize_voice.py:99 | defines `str.strip()` as StripBy on Python's whitespace |
| PyStrings.Split | rec.py:213 | defines `str.split(sep)`; JoinSplit states it round-trips with Join |
| PyStrings.Join | intensity_norm_script.py:68 | defines `sep.join(parts)`; JoinSplit and SplitJoinWords state its round trips |
| PyStrings.StripByOf | rec.py:213 | `strip(chars)` leaves the core between runs of stripped characters |
| PyStrings.JoinSplit | rec.py:213 | joining the parts of a split with its separator gives the text back |
| PyStrings.SplitPartsFree | organize_voice.py:228 | no part of a split on a one-character separator contains that character |
| Recorder.SplitScriptLine | rec.py:213 | defines `line.strip('( )"\n').split(' "')`; SplitOnce and FestivalLineSplits state it on prompt lines |
| Recorder.ReadPrompts | rec.py:212-214 | defines the script rows and `labels, utts = zip(*script)`, failing unless every row has two fields; ReadPromptsOf and ReadPromptsOneField state it |
| Recorder.SplitOnce | rec.py:213 | `split(' "')` of `id + ' "' + utt` gives [id, utt] when neither holds `' "'` |
| Recorder.FestivalLineSplits | rec.py:213 | a well-formed prompt line `( id "utt" )\n` splits into its label and utterance |
| Recorder.MinWidth | rec.py:214 | the width of `zip(*rows)` is the length of the shortest row |
| Recorder.ReadPromptsOf | rec.py:212-214 | a script of well-formed prompt lines reads back as its labels and utterances |
| Recorder.ReadPromptsOneField | rec.py:213-214 | a line that splits into one field makes the unpacking of `zip(*script)` raise |
| Recorder.TakeNameInjective | rec.py:120 | distinct take numbers give distinct file names |
| Recorder.FoundStep | rec.py:216-218 | each turn of the scan loop finds one more file, so the loop ends |
| Recorder.ScanTakes | rec.py:215-218 | after the scan, every label has a count k with takes 1 to k present and take k + 1 absent |
| Recorder.ScanCountLargest | rec.py:216-218 | the count is the largest k with takes 1 to k all present |
| Recorder.TakeName | rec.py:120 | defines `<name>_<k>.wav`; TakeNameInjective states it is injective in k |
| Recorder.TakeCount | rec.py:119 | defines the `defaultdict(int)` read `takes[name]` |
| Recorder.NextTakeName | rec.py:119-120 | defines the file `rec` writes after its increment; NextTakeIsNew and GapOverwrite state when it is new |
| Recorder.PlayTarget | rec.py:101-104 | defines the file `playback` plays; PlaybackAfterRec states it right after a recording |
| Recorder.NextTakeIsNew | rec.py:119-120 | a new take is numbered after the count, so it never has a counted take's name |
| Recorder.PlaybackAfterRec | rec.py:102-120 | playing right after a recording plays that recording |
| Recorder.GapOverwrite | rec.py:119-120 | when take k + 1 is missing and take k + 2 is on disk after a count of k, the first new take is a new file and the second is written to the existing take k + 2 |
| Recorder.RecOverGap | rec.py:119-120 | two `rec` calls after such a gap: the first file is new, the second was already on disk, and the directory gains only the first |
| Recorder.PyIndex | rec.py:64-78 | `labels[i]` succeeds exactly for -len ≤ i < len, and a negative i counts from the end |
| Recorder.UpIndex | rec.py:59-63 | Up sets i to -1 from i ≤ 0, otherwise decrements it by 1 |
| Recorder.DownIndex | rec.py:68-76 | Down sets i to len(utts) from the last prompt, otherwise increments it by 1 |
| Recorder.UpAfterDown | rec.py:57-78 | Up undoes Down from every index from -1 on |
| Recorder.DownAfterUp | rec.py:57-78 | Down undoes Up from every positive index |
| Recorder.UpAtStartSelectsLast | rec.py:59-94 | after Up on the first prompt, the index -1 selects the last label for recording |
| Recorder.DownPastEnd | rec.py:68-78 | Down past the end and Down again leaves an index with no label, where Python raises `IndexError` |
| Recorder.Shown | rec.py:64-78 | a prompt is shown exactly when the index is valid in Python's sense, with that utterance and label |
| Recorder.Booth.constructor | rec.py:212-222 | from the script lines, the booth holds the labels and utterances ReadPrompts reads, the directory listing and the start index, and has scanned every label's takes |
| Recorder.Booth.Up | rec.py:57-65 | Up moves the index per `UpIndex` and shows the first-sentence message or the new prompt |
| Recorder.Booth.Down | rec.py:66-78 | Down moves the index per `DownIndex` and shows the end-of-list message or the new prompt |
| Recorder.Booth.Rec | rec.py:110-120 | `rec` increments the take count first, then writes `<name>_<count>.wav` and adds it to the directory |
| Recorder.Booth.Playback | rec.py:101-104 | `playback` plays `<name>_<count>.wav` if it exists, or `not_found.wav`; reading the count inserts 0 for a new name |
| Interplay.RecordedTakeFound | rec.py:120 | a take the booth saves for an utterance id is found by the reorganiser with that id and its number as counter |
| Interplay.RecordedSubtypeTranscodes | rec.py:123-125 | the reorganiser reads a recorded take with the sample type it was recorded with |

## Left out

- **User interaction.** Argument parsing and the interactive overwrite prompts are left out, and so are the `rmtree` and `mkdir` calls, the progress bar and every `print`. They are user interaction, not logic.
- **File operations.** Opening, reading, listing, copying and writing files are left out, as is `os.makedirs` and the writing of `index.tsv` itself. They are library side effects. The model produces the listing's rows (the lines `writelines` gets), the copy or transcode actions and the counters.
- **Listing order.** `os.listdir` returns files in an arbitrary order. The listing is an input in a given order, and the results follow that order.
- **Audio data.** Reading the audio samples, the decoder's subtype detection and the FLAC writer are left out. The subtype is a parameter, and a transcode is an action that records the source, the destination, the dtype and the subtype.
- **`vadiate.py`.** This file is not part of this model. It runs a neural voice activity detector.
- **Statistics and plots.** Truncated-normal sampling and `np.round` are random and floating-point work. So are the mean and standard deviation of the analysis and the plots. `AnalyzeScript` returns only the minimum and maximum.
- **Intensity-normaliser modes.** `main`'s choice between analysis, processing and generation mode is left out. It tests the arguments for truthiness, so a mean of 0, say, counts as missing. The model covers what processing mode computes from its arguments.
- CheckDistribution: does not take the mean, which the checks of `create_normal_distribution` never read.
- CheckDistribution: takes the standard deviation and the bounds as reals. The argparse floats can also be NaN or infinite. `--std_dev nan` is truthy and `nan <= 0` is false, so it passes both checks and reaches the sampler. Those inputs are outside the model's domain.
- **Booth runtime.** The tkinter window, the sounddevice streams, the audio process, shared flags and queues, `test_recording`, the colour changes and the record/play/quit keys are left out. They are GUI, device I/O and concurrency.
- Recorder.Booth.Down: does not model restarting a recording that is in progress, which happens when Down is pressed while recording (rec.py:79-84). It does not model stopping one at the end of the list either (rec.py:71-74). These are concurrency with the audio process.
- Recorder.Booth.Rec: records under the label the caller names. In `rec.py` the audio process reads the label through the shared index `i_mp`, which `key` sets to the current index at every key press (rec.py:40) and, when Down is pressed during a recording, to the new index (rec.py:80). So only a recording still running across an Up keeps the old label.
- **Start-up display.** The display at start-up (rec.py:230-231) is not modelled separately. For a start index outside the script it raises `IndexError`, which `Shown` describes as `IndexFault`.
- Numerals.AllDigits: `str.isdigit` and the regex `\d` also accept non-ASCII Unicode digits. The model accepts only `0`-`9`.
- IntensityNorm.ParseInt: reads only what `str()` of an integer produces. `int` also accepts a sign `+`, underscores and surrounding blanks, which such strings never contain.
- Organizer.NumberingRestarts: two selected subdirectories with the same category (for example `voice_happy` and `voice2_happy` when the speaker's name is `voice`) overwrite each other's destinations. The model states this as it happens, and proves distinct destinations only under `DistinctCategories`.
