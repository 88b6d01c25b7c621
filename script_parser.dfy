/**
 * The prompt-script reader of the corpus reorganiser (`read_script`). Each line
 * is stripped and matched, from its start, against
 * `\(\s*(t3a?_\d+)\s*"(.*?)"\s*\)`; a matching line sets one entry of the
 * script, every other line is skipped. Emotion scripts map an id to
 * (intensity, utterance), split at the first `:` of the payload; addenda
 * scripts map an id to the whole payload.
 */
module ScriptParser {
  import opened Wrappers
  import opened PyStrings
  import opened Numerals
  import opened UtteranceIds

  /** `"\s*\)` matches at the start of u. */
  predicate Closes(u: string) {
    |u| > 0 && u[0] == '"' && SpanEnd(u, 1, IsSpace) < |u| && u[SpanEnd(u, 1, IsSpace)] == ')'
  }

  /** The lazy `(.*?)"\s*\)` over r from position k: the first position at
      which the closing part matches, provided no newline (which `.` refuses)
      comes before it. */
  function LazyPayloadEnd(r: string, k: nat): (e: Option<nat>)
    requires k <= |r|
    ensures e.Some? ==> k <= e.value < |r| && Closes(r[e.value..])
    ensures e.Some? ==> forall q :: k <= q < e.value ==> r[q] != '\n'
    decreases |r| - k
  {
    if k == |r| then None
    else if Closes(r[k..]) then Some(k)
    else if r[k] == '\n' then None
    else LazyPayloadEnd(r, k + 1)
  }

  /** The match is lazy: no earlier position closes the payload. */
  lemma {:induction false} LazyPayloadEndFirst(r: string, k: nat, q: nat)
    requires k <= q <= |r| && LazyPayloadEnd(r, k).Some? && q < LazyPayloadEnd(r, k).value
    ensures !Closes(r[q..])
    decreases |r| - k
  {
    if q > k {
      LazyPayloadEndFirst(r, k + 1, q);
    }
  }

  /** A payload free of quotes and newlines ends where the closing part starts. */
  lemma {:induction false} LazyPayloadEndIs(r: string, k: nat, m: nat)
    requires k <= m <= |r|
    requires forall q :: k <= q < m ==> r[q] != '"' && r[q] != '\n'
    requires Closes(r[m..])
    ensures LazyPayloadEnd(r, k) == Some(m)
    decreases m - k
  {
    if k < m {
      assert r[k..][0] == r[k];
      LazyPayloadEndIs(r, k + 1, m);
    }
  }

  /** How far the pattern has been matched: the opening parenthesis is next,
      the id group is next, the id group has been read and the opening quote
      is next, or the lazy payload group is next. */
  datatype Stage = Paren | Id | Quote(id: string) | Payload(id: string)

  function StageRank(s: Stage): nat {
    match s
    case Paren => 3
    case Id => 2
    case Quote(_) => 1
    case Payload(_) => 0
  }

  /** The match of the rest r of the text from stage s, one element of the
      pattern at a time: `\(`, then `\s*` and the id group `(t3a?_\d+)`, then
      `\s*"`, then the lazy payload group `(.*?)` closed by `"\s*\)`. */
  function MatchFrom(r: string, s: Stage): Option<(string, string)>
    decreases StageRank(s)
  {
    match s
    case Paren =>
      if |r| == 0 || r[0] != '(' then None else MatchFrom(r[1..], Id)
    case Id =>
      var r1 := r[SpanEnd(r, 0, IsSpace)..];
      (match UtteranceIdEnd(r1, 0)
       case None => None
       case Some(e) => MatchFrom(r1[e..], Quote(r1[..e])))
    case Quote(id) =>
      var r2 := r[SpanEnd(r, 0, IsSpace)..];
      if |r2| > 0 && r2[0] == '"' then MatchFrom(r2[1..], Payload(id)) else None
    case Payload(id) =>
      (match LazyPayloadEnd(r, 0)
       case None => None
       case Some(k) => Some((id, r[..k])))
  }

  /** `re.match(r'\(\s*(t3a?_\d+)\s*"(.*?)"\s*\)', t)`: the id and the payload
      groups, or None. Only the start of t is anchored. */
  function MatchScriptLine(t: string): Option<(string, string)> {
    MatchFrom(t, Paren)
  }

  /** What a match yields: a well-formed utterance id and a payload on one line. */
  lemma MatchScriptLineSound(t: string)
    ensures MatchScriptLine(t).Some? ==>
      IsUtteranceId(MatchScriptLine(t).value.0) && '\n' !in MatchScriptLine(t).value.1
  {
    if MatchScriptLine(t).Some? {
      var r := t[1..];
      assert MatchFrom(t, Paren) == MatchFrom(r, Id);
      var r1 := r[SpanEnd(r, 0, IsSpace)..];
      UtteranceIdEndSound(r1, 0);
      var e := UtteranceIdEnd(r1, 0).value;
      assert r1[0..e] == r1[..e];
      assert MatchFrom(r, Id) == MatchFrom(r1[e..], Quote(r1[..e]));
      var r2 := r1[e..][SpanEnd(r1[e..], 0, IsSpace)..];
      assert MatchFrom(r1[e..], Quote(r1[..e])) == MatchFrom(r2[1..], Payload(r1[..e]));
      var k := LazyPayloadEnd(r2[1..], 0).value;
      NoNewlineBefore(r2[1..], k);
    }
  }

  lemma NoNewlineBefore(u: string, k: nat)
    requires k <= |u|
    requires forall q :: 0 <= q < k ==> u[q] != '\n'
    ensures '\n' !in u[..k]
  {
    forall j | 0 <= j < k
      ensures u[..k][j] != '\n'
    {
      assert u[..k][j] == u[j];
    }
  }

  /** A whitespace block w at the start of w + b is skipped whole. */
  lemma SpanSkip(w: string, b: string)
    requires AllSpace(w)
    requires b == [] || !IsSpace(b[0])
    ensures SpanEnd(w + b, 0, IsSpace) == |w|
    ensures (w + b)[|w|..] == b
  {
    assert forall k :: 0 <= k < |w| ==> (w + b)[k] == w[k];
    assert |w| < |w + b| ==> (w + b)[|w|] == b[0];
    SpanEndIs(w + b, 0, IsSpace, |w|);
  }

  /** The closing `"\s*\)`, whatever follows it. */
  lemma CloseOf(w: string, tail: string)
    requires AllSpace(w)
    ensures Closes("\"" + (w + (")" + tail)))
  {
    var u := "\"" + (w + (")" + tail));
    assert forall k :: 1 <= k < 1 + |w| ==> u[k] == w[k - 1];
    assert u[1 + |w|] == ')';
    SpanEndIs(u, 1, IsSpace, 1 + |w|);
  }

  /** The lazy payload group stops at the first closing quote. */
  lemma PayloadOf(payload: string, close: string)
    requires '"' !in payload && '\n' !in payload
    requires Closes(close)
    ensures LazyPayloadEnd(payload + close, 0) == Some(|payload|)
    ensures (payload + close)[..|payload|] == payload
  {
    var r := payload + close;
    assert forall q :: 0 <= q < |payload| ==> r[q] == payload[q];
    assert r[|payload|..] == close;
    LazyPayloadEndIs(r, 0, |payload|);
  }

  /** The stages of a match of a line in the script format, one part of the
      line at a time. */
  lemma ParenStep(a: string)
    ensures MatchFrom("(" + a, Paren) == MatchFrom(a, Id)
  {
    assert ("(" + a)[1..] == a;
  }

  lemma IdStep(w1: string, id: string, w2: string, d: string)
    requires AllSpace(w1) && AllSpace(w2) && IsUtteranceId(id)
    requires |d| > 0 && d[0] == '"'
    ensures MatchFrom(w1 + (id + (w2 + d)), Id) == MatchFrom(w2 + d, Quote(id))
  {
    var c := w2 + d;
    var b := id + c;
    assert c[0] == (if |w2| > 0 then w2[0] else d[0]);
    UtteranceIdEndOf(id, c);
    assert b[0] == id[0] == 't';
    SpanSkip(w1, b);
    assert b[..|id|] == id && b[|id|..] == c;
  }

  lemma QuoteStep(w2: string, e: string, id: string)
    requires AllSpace(w2)
    ensures MatchFrom(w2 + ("\"" + e), Quote(id)) == MatchFrom(e, Payload(id))
  {
    var d := "\"" + e;
    SpanSkip(w2, d);
    assert d[0] == '"' && d[1..] == e;
  }

  lemma PayloadStep(payload: string, w3: string, tail: string, id: string)
    requires AllSpace(w3)
    requires '"' !in payload && '\n' !in payload
    ensures MatchFrom(payload + ("\"" + (w3 + (")" + tail))), Payload(id)) == Some((id, payload))
  {
    CloseOf(w3, tail);
    PayloadOf(payload, "\"" + (w3 + (")" + tail)));
  }

  /** A line in the script format is matched with its id and payload, for any
      whitespace around the parts and any text after the closing parenthesis,
      as long as the payload holds no quote and no newline. */
  lemma MatchScriptLineRoundTrip(w1: string, id: string, w2: string, payload: string, w3: string, tail: string)
    requires AllSpace(w1) && AllSpace(w2) && AllSpace(w3)
    requires IsUtteranceId(id)
    requires '"' !in payload && '\n' !in payload
    ensures MatchScriptLine("(" + (w1 + (id + (w2 + ("\"" + (payload + ("\"" + (w3 + (")" + tail)))))))))
      == Some((id, payload))
  {
    var e := payload + ("\"" + (w3 + (")" + tail)));
    ParenStep(w1 + (id + (w2 + ("\"" + e))));
    IdStep(w1, id, w2, "\"" + e);
    QuoteStep(w2, e, id);
    PayloadStep(payload, w3, tail, id);
  }

  /** The canonical script line `( <id> "<payload>" )` and its newline. */
  lemma LineMatchCanonical(id: string, payload: string)
    requires IsUtteranceId(id)
    requires '"' !in payload && '\n' !in payload
    ensures LineMatch("( " + id + " \"" + payload + "\" )\n") == Some((id, payload))
  {
    CanonicalStrip(id, payload);
    MatchScriptLineRoundTrip(" ", id, " ", payload, " ", "");
  }

  /** Stripping the canonical line leaves the parenthesised part. */
  lemma CanonicalStrip(id: string, payload: string)
    ensures Strip("( " + id + " \"" + payload + "\" )\n") ==
      "(" + (" " + (id + (" " + ("\"" + (payload + ("\"" + (" " + (")" + ""))))))))
  {
    var core := "(" + (" " + (id + (" " + ("\"" + (payload + ("\"" + (" " + (")" + ""))))))));
    assert "( " + id + " \"" + payload + "\" )\n" == [] + core + "\n";
    assert core[0] == '(' && core[|core| - 1] == ')';
    StripByOf([], core, "\n", IsSpace);
  }

  /** A script being read: the emotion form maps an id to (intensity, utterance),
      the addenda form maps an id to its text. */
  datatype ScriptData = Emotion(graded: map<string, (string, string)>) | Addenda(texts: map<string, string>)

  /** Unpacking `text.split(':', 1)` into two names fails for a payload
      without a colon. */
  datatype ScriptError = MissingColon(uid: string)

  function EmptyScript(isEmotion: bool): ScriptData {
    if isEmotion then Emotion(map[]) else Addenda(map[])
  }

  /** The match of one raw line (it is stripped first). */
  function LineMatch(line: string): Option<(string, string)> {
    MatchScriptLine(Strip(line))
  }

  /** The matches of all lines of a file, in order. */
  function LineMatches(lines: seq<string>): (ms: seq<Option<(string, string)>>)
    ensures |ms| == |lines| && forall i :: 0 <= i < |lines| ==> ms[i] == LineMatch(lines[i])
  {
    seq(|lines|, i requires 0 <= i < |lines| => LineMatch(lines[i]))
  }

  /** The effect of one line's match on the script read so far. */
  function StepMatch(acc: ScriptData, m: Option<(string, string)>): Result<ScriptData, ScriptError> {
    match m
    case None => Success(acc)
    case Some((uid, text)) =>
      match acc
      case Emotion(g) =>
        (match SplitFirst(text, ':')
         case None => Failure(MissingColon(uid))
         case Some((intensity, utterance)) => Success(Emotion(g[uid := (Strip(intensity), Strip(utterance))])))
      case Addenda(a) => Success(Addenda(a[uid := Strip(text)]))
  }

  /** The matches consumed in order, starting from acc; the first failure stops. */
  function ParseFrom(acc: ScriptData, ms: seq<Option<(string, string)>>): Result<ScriptData, ScriptError>
    decreases |ms|
  {
    if ms == [] then Success(acc)
    else match StepMatch(acc, ms[0])
      case Failure(e) => Failure(e)
      case Success(next) => ParseFrom(next, ms[1..])
  }

  /** What `read_script` returns for a file with these lines. */
  function ScriptOf(lines: seq<string>, isEmotion: bool): Result<ScriptData, ScriptError> {
    ParseFrom(EmptyScript(isEmotion), LineMatches(lines))
  }

  /** `read_script(script_path, is_emotion)` on the lines of the file. */
  method ReadScript(lines: seq<string>, isEmotion: bool) returns (r: Result<ScriptData, ScriptError>)
    ensures r == ScriptOf(lines, isEmotion)
  {
    ghost var ms := LineMatches(lines);
    var graded: map<string, (string, string)> := map[];
    var texts: map<string, string> := map[];
    var i := 0;
    while i < |lines|
      invariant 0 <= i <= |lines|
      invariant ScriptOf(lines, isEmotion) == ParseFrom(if isEmotion then Emotion(graded) else Addenda(texts), ms[i..])
    {
      assert ms[i..][0] == ms[i] && ms[i..][1..] == ms[i + 1..];
      var m := LineMatch(lines[i]);
      if m.Some? {
        var (uid, text) := m.value;
        if isEmotion {
          var parts := SplitFirst(text, ':');
          if parts.None? {
            return Failure(MissingColon(uid));
          }
          var (intensity, utterance) := parts.value;
          graded := graded[uid := (Strip(intensity), Strip(utterance))];
        } else {
          texts := texts[uid := Strip(text)];
        }
      }
      i := i + 1;
    }
    r := Success(if isEmotion then Emotion(graded) else Addenda(texts));
  }

  /** Reading a + b is reading a, then b from where a left off. */
  lemma {:induction false} ParseFromAppend(acc: ScriptData, a: seq<Option<(string, string)>>, b: seq<Option<(string, string)>>)
    ensures ParseFrom(acc, a + b) ==
      match ParseFrom(acc, a)
      case Failure(e) => Failure(e)
      case Success(mid) => ParseFrom(mid, b)
    decreases |a|
  {
    if a == [] {
      assert a + b == b;
    } else {
      assert (a + b)[0] == a[0] && (a + b)[1..] == a[1..] + b;
      match StepMatch(acc, a[0])
      case Failure(e) =>
      case Success(next) => ParseFromAppend(next, a[1..], b);
    }
  }

  /** A line that does not match the pattern can be deleted without changing
      the result. */
  lemma NonMatchingLineIgnored(a: seq<string>, line: string, b: seq<string>, isEmotion: bool)
    requires LineMatch(line).None?
    ensures ScriptOf(a + [line] + b, isEmotion) == ScriptOf(a + b, isEmotion)
  {
    var acc := EmptyScript(isEmotion);
    var ma, mb := LineMatches(a), LineMatches(b);
    LineMatchesAppend(a, [line] + b);
    LineMatchesAppend([line], b);
    LineMatchesAppend(a, b);
    assert LineMatches([line]) == [LineMatch(line)];
    assert a + [line] + b == a + ([line] + b);
    ParseFromAppend(acc, ma, [LineMatch(line)] + mb);
    ParseFromAppend(acc, ma, mb);
    assert ([LineMatch(line)] + mb)[1..] == mb;
  }

  /** Matching lines one by one commutes with joining files. */
  lemma LineMatchesAppend(a: seq<string>, b: seq<string>)
    ensures LineMatches(a + b) == LineMatches(a) + LineMatches(b)
  {
    var l, r := LineMatches(a + b), LineMatches(a) + LineMatches(b);
    forall j | 0 <= j < |a + b|
      ensures l[j] == r[j]
    {
      if j < |a| {
        assert (a + b)[j] == a[j];
      } else {
        assert (a + b)[j] == b[j - |a|];
      }
    }
  }

  /** Both scripts hold the same entry (or none) for id, in the same form. */
  predicate SameEntry(d1: ScriptData, d2: ScriptData, id: string) {
    match (d1, d2)
    case (Emotion(m1), Emotion(m2)) => (id in m1 <==> id in m2) && (id in m1 ==> m1[id] == m2[id])
    case (Addenda(m1), Addenda(m2)) => (id in m1 <==> id in m2) && (id in m1 ==> m1[id] == m2[id])
    case _ => false
  }

  predicate OtherId(m: Option<(string, string)>, id: string) {
    m.None? || m.value.0 != id
  }

  /** One match for another id keeps id's entry and the script's form. */
  lemma StepKeeps(acc: ScriptData, m: Option<(string, string)>, id: string)
    requires OtherId(m, id)
    ensures StepMatch(acc, m).Success? ==> SameEntry(acc, StepMatch(acc, m).value, id)
  {
  }

  /** Matches for other ids leave id's entry, and the script's form, as they were. */
  lemma {:induction false} UnmatchedIdKept(acc: ScriptData, ms: seq<Option<(string, string)>>, id: string)
    requires forall j :: 0 <= j < |ms| ==> OtherId(ms[j], id)
    ensures ParseFrom(acc, ms).Success? ==> SameEntry(acc, ParseFrom(acc, ms).value, id)
    decreases |ms|
  {
    if ms != [] {
      StepKeeps(acc, ms[0], id);
      match StepMatch(acc, ms[0])
      case Failure(e) =>
      case Success(next) =>
        assert forall j :: 0 <= j < |ms[1..]| ==> ms[1..][j] == ms[j + 1];
        UnmatchedIdKept(next, ms[1..], id);
        if ParseFrom(next, ms[1..]).Success? {
          SameEntryTrans(acc, next, ParseFrom(next, ms[1..]).value, id);
        }
    }
  }

  lemma SameEntryTrans(d1: ScriptData, d2: ScriptData, d3: ScriptData, id: string)
    requires SameEntry(d1, d2, id) && SameEntry(d2, d3, id)
    ensures SameEntry(d1, d3, id)
  {
  }

  /** A repeated id keeps the value of its last matching line. */
  lemma LastOccurrenceWins(lines: seq<string>, isEmotion: bool, k: nat, id: string, payload: string)
    requires k < |lines| && LineMatch(lines[k]) == Some((id, payload))
    requires forall j :: k < j < |lines| ==> OtherId(LineMatch(lines[j]), id)
    ensures ScriptOf(lines, isEmotion).Success? && isEmotion ==>
      ScriptOf(lines, isEmotion).value.Emotion? && SplitFirst(payload, ':').Some? &&
      id in ScriptOf(lines, isEmotion).value.graded &&
      ScriptOf(lines, isEmotion).value.graded[id] ==
        (Strip(SplitFirst(payload, ':').value.0), Strip(SplitFirst(payload, ':').value.1))
    ensures ScriptOf(lines, isEmotion).Success? && !isEmotion ==>
      ScriptOf(lines, isEmotion).value.Addenda? &&
      id in ScriptOf(lines, isEmotion).value.texts &&
      ScriptOf(lines, isEmotion).value.texts[id] == Strip(payload)
  {
    LastMatchWins(EmptyScript(isEmotion), LineMatches(lines), k, id, payload);
  }

  /** The entry of id after reading matches whose last one for id is at k
      comes from the match at k. */
  lemma LastMatchWins(start: ScriptData, ms: seq<Option<(string, string)>>, k: nat, id: string, payload: string)
    requires k < |ms| && ms[k] == Some((id, payload))
    requires forall j :: k < j < |ms| ==> OtherId(ms[j], id)
    ensures ParseFrom(start, ms).Success? && start.Emotion? ==>
      ParseFrom(start, ms).value.Emotion? && SplitFirst(payload, ':').Some? &&
      id in ParseFrom(start, ms).value.graded &&
      ParseFrom(start, ms).value.graded[id] ==
        (Strip(SplitFirst(payload, ':').value.0), Strip(SplitFirst(payload, ':').value.1))
    ensures ParseFrom(start, ms).Success? && start.Addenda? ==>
      ParseFrom(start, ms).value.Addenda? &&
      id in ParseFrom(start, ms).value.texts &&
      ParseFrom(start, ms).value.texts[id] == Strip(payload)
  {
    var pre, rest := ms[..k], ms[k + 1..];
    assert ms == pre + ([ms[k]] + rest);
    ParseFromAppend(start, pre, [ms[k]] + rest);
    ModePreserved(start, pre);
    match ParseFrom(start, pre)
    case Failure(e) =>
    case Success(mid) =>
      assert ([ms[k]] + rest)[0] == ms[k] && ([ms[k]] + rest)[1..] == rest;
      match StepMatch(mid, ms[k])
      case Failure(e) =>
      case Success(after) =>
        assert forall j :: 0 <= j < |rest| ==> rest[j] == ms[k + 1 + j];
        UnmatchedIdKept(after, rest, id);
  }

  /** Reading never changes the script's form. */
  lemma {:induction false} ModePreserved(acc: ScriptData, ms: seq<Option<(string, string)>>)
    ensures ParseFrom(acc, ms).Success? ==> ParseFrom(acc, ms).value.Emotion? == acc.Emotion?
    decreases |ms|
  {
    if ms != [] {
      match StepMatch(acc, ms[0])
      case Failure(e) =>
      case Success(next) => ModePreserved(next, ms[1..]);
    }
  }

  /** An addenda script never fails to read, and stays an addenda script. */
  lemma {:induction false} AddendaNeverFail(a: map<string, string>, ms: seq<Option<(string, string)>>)
    ensures ParseFrom(Addenda(a), ms).Success?
    ensures ParseFrom(Addenda(a), ms).value.Addenda?
    decreases |ms|
  {
    if ms != [] {
      match StepMatch(Addenda(a), ms[0])
      case Success(next) =>
        AddendaNeverFail(next.texts, ms[1..]);
    }
  }

  /** A match whose payload has no colon. */
  predicate Colonless(m: Option<(string, string)>) {
    m.Some? && ':' !in m.value.1
  }

  /** An emotion script fails to read exactly when one of its matching lines
      has no colon in its payload. */
  lemma {:induction false} EmotionReadFails(g: map<string, (string, string)>, ms: seq<Option<(string, string)>>)
    ensures ParseFrom(Emotion(g), ms).Failure? <==> exists k :: 0 <= k < |ms| && Colonless(ms[k])
    decreases |ms|
  {
    if ms != [] {
      match StepMatch(Emotion(g), ms[0])
      case Failure(e) =>
        assert Colonless(ms[0]);
      case Success(next) =>
        assert !Colonless(ms[0]);
        EmotionReadFails(next.graded, ms[1..]);
        assert forall j :: 0 <= j < |ms[1..]| ==> ms[1..][j] == ms[j + 1];
        if exists k :: 0 <= k < |ms| && Colonless(ms[k]) {
          var k :| 0 <= k < |ms| && Colonless(ms[k]);
          assert ms[1..][k - 1] == ms[k];
        }
    }
  }

  /** The error names the id of the first colonless line. */
  lemma {:induction false} EmotionErrorIsFirst(g: map<string, (string, string)>, ms: seq<Option<(string, string)>>, k: nat)
    requires k < |ms| && Colonless(ms[k])
    requires forall j :: 0 <= j < k ==> !Colonless(ms[j])
    ensures ParseFrom(Emotion(g), ms) == Failure(MissingColon(ms[k].value.0))
    decreases k
  {
    if k > 0 {
      assert !Colonless(ms[0]);
      match StepMatch(Emotion(g), ms[0])
      case Success(next) =>
        assert forall j :: 0 <= j < |ms[1..]| ==> ms[1..][j] == ms[j + 1];
        EmotionErrorIsFirst(next.graded, ms[1..], k - 1);
    }
  }

  /** A line in the emotion format `( <id> "<intensity>:<utterance>" )` sets the
      id to the trimmed intensity and the trimmed utterance; the utterance may
      itself contain colons. */
  lemma EmotionLineRead(g: map<string, (string, string)>, id: string, intensity: string, utterance: string)
    requires IsUtteranceId(id)
    requires ':' !in intensity
    requires '"' !in intensity && '"' !in utterance && '\n' !in intensity && '\n' !in utterance
    ensures StepMatch(Emotion(g), LineMatch("( " + id + " \"" + intensity + ":" + utterance + "\" )\n")) ==
      Success(Emotion(g[id := (Strip(intensity), Strip(utterance))]))
  {
    var payload := intensity + ":" + utterance;
    assert '"' !in payload && '\n' !in payload;
    assert "( " + id + " \"" + intensity + ":" + utterance + "\" )\n" == "( " + id + " \"" + payload + "\" )\n";
    LineMatchCanonical(id, payload);
    SplitFirstOf(intensity, ':', utterance);
  }

  /** A line in the addenda format `( <id> "<text>" )` sets the id to the
      trimmed text, colons included. */
  lemma AddendaLineRead(a: map<string, string>, id: string, text: string)
    requires IsUtteranceId(id)
    requires '"' !in text && '\n' !in text
    ensures StepMatch(Addenda(a), LineMatch("( " + id + " \"" + text + "\" )\n")) == Success(Addenda(a[id := Strip(text)]))
  {
    LineMatchCanonical(id, text);
  }
}
