/**
 * The intensity normaliser (`intensity_norm_script.py`): it rewrites the
 * intensity token in the first lines of a prompt script, reads intensity
 * values back out of a script, and checks its arguments before sampling. A
 * script is its sequence of lines, each with its line terminator.
 */
module IntensityNorm {
  import opened Wrappers
  import opened PyStrings
  import opened Numerals

  /** Why rewriting a line raises: `ValueError` when the line has no `:` (the
      two-way unpacking of `split(':', 1)` fails), `IndexError` when only
      whitespace precedes the first `:` (`parts[-1]` of an empty list). */
  datatype RewriteError = NoColon | NoToken

  /** `f'"{str(value)}'`: the token that replaces the old intensity. */
  function Token(value: int): string {
    "\"" + IntToString(value)
  }

  /** The rewrite of one line in `process_script`: the last word before the
      first `:` becomes the token of value, the words before the colon are
      joined with single spaces, and the rest of the line is kept. */
  function RewriteLine(line: string, value: int): Result<string, RewriteError> {
    match SplitFirst(line, ':')
    case None => Failure(NoColon)
    case Some((before, after)) =>
      var parts := SplitWhitespace(before);
      if parts == [] then Failure(NoToken)
      else Success(Join(parts[..|parts| - 1] + [Token(value)], " ") + ":" + after)
  }

  /** The token is one word, with no colon in it. */
  lemma TokenWord(value: int)
    ensures IsWord(Token(value)) && ':' !in Token(value)
  {
    var d := NatToString(if value < 0 then -value else value);
    var pre := if value < 0 then "\"-" else "\"";
    TokenParts(value);
    DigitsPlain(d);
    PlainConcat(pre, d);
  }

  /** The token is a quote, a minus sign for a negative value, and digits. */
  lemma TokenParts(value: int)
    ensures Token(value) == (if value < 0 then "\"-" else "\"") + NatToString(if value < 0 then -value else value)
  {
  }

  /** A character that is neither whitespace nor a colon. */
  predicate Plain(c: char) {
    !IsSpace(c) && c != ':'
  }

  /** Digits are neither whitespace nor colons. */
  lemma DigitsPlain(d: string)
    requires AllDigits(d)
    ensures forall k :: 0 <= k < |d| ==> Plain(d[k])
  {
  }

  lemma PlainConcat(a: string, b: string)
    requires a != []
    requires forall k :: 0 <= k < |a| ==> Plain(a[k])
    requires forall k :: 0 <= k < |b| ==> Plain(b[k])
    ensures IsWord(a + b) && ':' !in a + b
  {
    assert forall k :: 0 <= k < |a + b| ==> (a + b)[k] == if k < |a| then a[k] else b[k - |a|];
  }

  /** Rewriting fails with `ValueError` exactly for a line without `:`, and
      with `IndexError` exactly when only whitespace precedes its first `:`. */
  lemma RewriteErrors(line: string, value: int)
    ensures RewriteLine(line, value) == Failure(NoColon) <==> ':' !in line
    ensures RewriteLine(line, value) == Failure(NoToken) <==>
      ':' in line && AllSpace(SplitFirst(line, ':').value.0)
  {
  }

  /** What a rewritten line holds: the text from its first `:` on is that of
      the original line, and the words before it are the original words with
      the last one replaced by the token of the value. */
  lemma RewriteReparse(line: string, value: int)
    requires RewriteLine(line, value).Success?
    ensures var (before, after) := SplitFirst(line, ':').value;
      var words := SplitWhitespace(before);
      var r := RewriteLine(line, value).value;
      SplitFirst(r, ':').Some? && SplitFirst(r, ':').value.1 == after &&
      SplitWhitespace(SplitFirst(r, ':').value.0) == words[..|words| - 1] + [Token(value)]
  {
    var (before, after) := SplitFirst(line, ':').value;
    var words := SplitWhitespace(before);
    var ws := words[..|words| - 1] + [Token(value)];
    var head := Join(ws, " ");
    SplitWhitespaceAbsent(before, ':');
    TokenWord(value);
    assert forall k :: 0 <= k < |ws| ==> ':' !in ws[k] && IsWord(ws[k]) by {
      forall k | 0 <= k < |ws| ensures ':' !in ws[k] && IsWord(ws[k]) {
        if k < |words| - 1 {
          assert ws[k] == words[k];
        }
      }
    }
    JoinAbsent(ws, " ", ':');
    SplitFirstOf(head, ':', after);
    assert head + ":" + after == head + [':'] + after;
    SplitJoinWords(ws);
  }

  /** Rewriting an already rewritten line is the same as rewriting the
      original with the second value: only the last value shows. */
  lemma RewriteTwice(line: string, v1: int, v2: int)
    requires RewriteLine(line, v1).Success?
    ensures RewriteLine(RewriteLine(line, v1).value, v2) == RewriteLine(line, v2)
  {
    RewriteReparse(line, v1);
    var words := SplitWhitespace(SplitFirst(line, ':').value.0);
    var init := words[..|words| - 1];
    assert (init + [Token(v1)])[..|init|] == init;
  }

  /** `re.match(r'(\d+):', line[p:])` succeeds: a digit starts at p and the
      run of digits from there is followed by `:`. */
  predicate ValueAt(line: string, p: nat) {
    p < |line| && IsDigit(line[p]) && SpanEnd(line, p, IsDigit) < |line| && line[SpanEnd(line, p, IsDigit)] == ':'
  }

  /** The leftmost position at or after p where the pattern matches. */
  function FindValueFrom(line: string, p: nat): (r: Option<nat>)
    requires p <= |line|
    ensures r.Some? ==> p <= r.value && ValueAt(line, r.value)
    ensures r.Some? ==> forall q :: p <= q < r.value ==> !ValueAt(line, q)
    ensures r.None? ==> forall q :: p <= q < |line| ==> !ValueAt(line, q)
    decreases |line| - p
  {
    if p == |line| then None
    else if ValueAt(line, p) then Some(p)
    else FindValueFrom(line, p + 1)
  }

  lemma {:induction false} FindValueFromIs(line: string, p: nat, k: nat)
    requires p <= k && ValueAt(line, k)
    requires forall q :: p <= q < k ==> !ValueAt(line, q)
    ensures FindValueFrom(line, p) == Some(k)
    decreases k - p
  {
    if p < k {
      FindValueFromIs(line, p + 1, k);
    }
  }

  /** `int(m.group(1))` for `m = re.search(r'(\d+):', line)`, or None when
      nothing matches. */
  function SearchValue(line: string): Option<nat> {
    match FindValueFrom(line, 0)
    case None => None
    case Some(p) =>
      var e := SpanEnd(line, p, IsDigit);
      DigitRun(line, p, e);
      Some(ParseNat(line[p..e]))
  }

  /** A line yields a value exactly when some digit run in it is followed by
      `:`, and the value is that of the leftmost such run. */
  lemma SearchValueSpec(line: string)
    ensures SearchValue(line).None? <==> forall q :: 0 <= q < |line| ==> !ValueAt(line, q)
    ensures SearchValue(line).Some? ==>
      exists p: nat :: ValueAt(line, p) && (forall q :: 0 <= q < p ==> !ValueAt(line, q)) &&
        SearchValue(line).value == ParseNat(line[p..SpanEnd(line, p, IsDigit)])
  {
    if FindValueFrom(line, 0).Some? {
      var p := FindValueFrom(line, 0).value;
      assert ValueAt(line, p);
    }
  }

  /** A line whose first `:` follows a non-digit and a run of digits yields
      those digits. */
  lemma ValueBeforeColon(head: string, pre: string, c: char, d: string, after: string)
    requires head == pre + [c] + d && ':' !in pre && c != ':' && !IsDigit(c) && AllDigits(d)
    ensures SearchValue(head + ":" + after) == Some(ParseNat(d))
  {
    var s := head + ":" + after;
    var m, e := |pre| + 1, |pre| + 1 + |d|;
    assert s[|pre|] == c && s[e] == ':';
    assert forall k :: 0 <= k < |pre| ==> s[k] == pre[k];
    assert forall k :: m <= k < e ==> s[k] == d[k - m];
    SpanEndIs(s, m, IsDigit, e);
    assert ValueAt(s, m);
    forall q | 0 <= q < m ensures !ValueAt(s, q) {
      var f := SpanEnd(s, q, IsDigit);
      assert f <= |pre|;
      if f < |pre| {
        assert s[f] == pre[f] && pre[f] in pre;
      }
    }
    FindValueFromIs(s, 0, m);
    assert s[m..e] == d;
  }

  function Abs(v: int): nat {
    if v < 0 then -v else v
  }

  /** The analysis reads back the value a rewrite wrote, without its sign:
      the leftmost digits followed by `:` are those of the new token. */
  lemma RewriteValue(line: string, value: int)
    requires RewriteLine(line, value).Success?
    ensures SearchValue(RewriteLine(line, value).value) == Some(Abs(value))
  {
    var (before, after) := SplitFirst(line, ':').value;
    var words := SplitWhitespace(before);
    var init := words[..|words| - 1];
    SplitWhitespaceAbsent(before, ':');
    assert forall k :: 0 <= k < |init| ==> ':' !in init[k] by {
      forall k | 0 <= k < |init| ensures ':' !in init[k] {
        assert init[k] == words[k];
      }
    }
    TokenValue(init, value, after);
  }

  lemma Regroup(a: string, b: string, c: char, d: string)
    ensures a + (b + [c] + d) == (a + b) + [c] + d
  {
  }

  /** The words before the colon end in the token, and none has a colon. */
  lemma TokenValue(init: seq<string>, value: int, after: string)
    requires forall k :: 0 <= k < |init| ==> ':' !in init[k]
    ensures SearchValue(Join(init + [Token(value)], " ") + ":" + after) == Some(Abs(value))
  {
    var d := NatToString(Abs(value));
    var c, lead := '"', "";
    if value < 0 {
      c, lead := '-', "\"";
    }
    var tok := Token(value);
    assert tok == lead + [c] + d;
    JoinSnoc(init, tok, " ");
    JoinAbsent(init, " ", ':');
    var joined := if init == [] then "" else Join(init, " ") + " ";
    var head := Join(init + [tok], " ");
    assert head == joined + tok;
    var pre := joined + lead;
    assert ':' !in pre;
    Regroup(joined, lead, c, d);
    ValueBeforeColon(head, pre, c, d, after);
  }

  /** The values of a script's lines, in line order (`extract_values_from_script`). */
  function Values(lines: seq<string>): seq<nat>
    decreases |lines|
  {
    if lines == [] then []
    else
      var init := Values(lines[..|lines| - 1]);
      match SearchValue(lines[|lines| - 1])
      case None => init
      case Some(v) => init + [v]
  }

  /** `extract_values_from_script` on the lines of the input file. */
  method ExtractValues(lines: seq<string>) returns (values: seq<nat>)
    ensures values == Values(lines)
  {
    values := [];
    var i := 0;
    while i < |lines|
      invariant 0 <= i <= |lines|
      invariant values == Values(lines[..i])
    {
      assert lines[..i + 1][..i] == lines[..i];
      var m := SearchValue(lines[i]);
      if m.Some? {
        values := values + [m.value];
      }
      i := i + 1;
    }
    assert lines[..i] == lines;
  }

  /** The values of two scripts one after the other are the values of the
      first followed by those of the second. */
  lemma {:induction false} ValuesAppend(a: seq<string>, b: seq<string>)
    ensures Values(a + b) == Values(a) + Values(b)
    decreases |b|
  {
    if b == [] {
      assert a + b == a;
    } else {
      var n := |b| - 1;
      assert (a + b)[..|a + b| - 1] == a + b[..n];
      ValuesAppend(a, b[..n]);
    }
  }

  /** Every value comes from a line, and every line with a match gives one. */
  lemma {:induction false} ValuesMembers(lines: seq<string>, v: nat)
    ensures v in Values(lines) <==> exists i :: 0 <= i < |lines| && SearchValue(lines[i]) == Some(v)
    decreases |lines|
  {
    if lines != [] {
      var n := |lines| - 1;
      ValuesMembers(lines[..n], v);
      assert forall i :: 0 <= i < n ==> lines[..n][i] == lines[i];
      if i :| 0 <= i < |lines| && SearchValue(lines[i]) == Some(v) {
        if i < n {
          assert lines[..n][i] == lines[i];
        }
      }
    }
  }

  /** When every line yields a value, the values are those, in order. */
  lemma {:induction false} ValuesEach(lines: seq<string>, vals: seq<nat>)
    requires |vals| == |lines|
    requires forall i :: 0 <= i < |lines| ==> SearchValue(lines[i]) == Some(vals[i])
    ensures Values(lines) == vals
    decreases |lines|
  {
    if lines != [] {
      var n := |lines| - 1;
      assert forall i :: 0 <= i < n ==> lines[..n][i] == lines[i];
      ValuesEach(lines[..n], vals[..n]);
      assert vals[..n] + [vals[n]] == vals;
    }
  }

  /** `min(values)`. */
  function MinOf(s: seq<int>): (m: int)
    requires s != []
    ensures m in s && forall x :: x in s ==> m <= x
    decreases |s|
  {
    if |s| == 1 then s[0]
    else
      var m := MinOf(s[1..]);
      assert forall x :: x in s ==> x == s[0] || x in s[1..];
      if s[0] <= m then s[0] else m
  }

  /** `max(values)`. */
  function MaxOf(s: seq<int>): (m: int)
    requires s != []
    ensures m in s && forall x :: x in s ==> x <= m
    decreases |s|
  {
    if |s| == 1 then s[0]
    else
      var m := MaxOf(s[1..]);
      assert forall x :: x in s ==> x == s[0] || x in s[1..];
      if s[0] >= m then s[0] else m
  }

  /** `analyze_script` without its mean and standard deviation: None exactly
      when no line yields a value, otherwise the smallest and largest value. */
  method AnalyzeScript(lines: seq<string>) returns (r: Option<(int, int)>)
    ensures r.None? <==> forall i :: 0 <= i < |lines| ==> SearchValue(lines[i]).None?
    ensures r.Some? ==> r.value.0 in Values(lines) && r.value.1 in Values(lines)
    ensures r.Some? ==> forall v :: v in Values(lines) ==> r.value.0 <= v <= r.value.1
  {
    var values := ExtractValues(lines);
    if values == [] {
      forall i | 0 <= i < |lines| ensures SearchValue(lines[i]).None? {
        if SearchValue(lines[i]).Some? {
          ValuesMembers(lines, SearchValue(lines[i]).value);
        }
      }
      return None;
    }
    ValuesMembers(lines, values[0]);
    r := Some((MinOf(values), MaxOf(values)));
  }

  /** What `process_script` writes for line i: the rewrite while i is below
      the length of the distribution, the line itself after that. */
  function OutputLine(lines: seq<string>, distribution: seq<int>, i: nat): Result<string, RewriteError>
    requires i < |lines|
  {
    if i < |distribution| then RewriteLine(lines[i], distribution[i]) else Success(lines[i])
  }

  /** The body of the loop of `process_script` for line i. */
  method ProcessLine(lines: seq<string>, distribution: seq<int>, i: nat) returns (r: Result<string, RewriteError>)
    requires i < |lines|
    ensures r == OutputLine(lines, distribution, i)
  {
    var line := lines[i];
    if i >= |distribution| {
      return Success(line);
    }
    var split := SplitFirst(line, ':');
    if split.None? {
      return Failure(NoColon);
    }
    var (beforeColon, afterColon) := split.value;
    var parts := SplitWhitespace(beforeColon);
    if parts == [] {
      return Failure(NoToken);
    }
    parts := parts[..|parts| - 1] + [Token(distribution[i])];
    r := Success(Join(parts, " ") + ":" + afterColon);
  }

  /** `process_script`: the lines written to the output file, and the error
      that stopped it, if any. Every line before the failing one has been
      written. */
  method ProcessScript(lines: seq<string>, distribution: seq<int>) returns (written: seq<string>, err: Option<RewriteError>)
    ensures |written| <= |lines|
    ensures forall i :: 0 <= i < |written| ==> OutputLine(lines, distribution, i) == Success(written[i])
    ensures forall i :: |distribution| <= i < |written| ==> written[i] == lines[i]
    ensures err.None? ==> |written| == |lines|
    ensures err.Some? ==> |written| < |lines| && |written| < |distribution|
    ensures err.Some? ==> OutputLine(lines, distribution, |written|) == Failure(err.value)
  {
    written := [];
    var i := 0;
    while i < |lines|
      invariant i == |written| <= |lines|
      invariant forall k :: 0 <= k < i ==> OutputLine(lines, distribution, k) == Success(written[k])
    {
      var r := ProcessLine(lines, distribution, i);
      if r.Failure? {
        return written, Some(r.error);
      }
      written := written + [r.value];
      i := i + 1;
    }
    err := None;
  }

  /** Once every line has been rewritten, the analysis of the output gives
      back the distribution, each value without its sign. */
  lemma ProcessedValues(lines: seq<string>, distribution: seq<int>, written: seq<string>)
    requires |distribution| == |lines| == |written|
    requires forall i :: 0 <= i < |written| ==> OutputLine(lines, distribution, i) == Success(written[i])
    ensures Values(written) == seq(|distribution|, i requires 0 <= i < |distribution| => Abs(distribution[i]))
  {
    var vals := seq(|distribution|, i requires 0 <= i < |distribution| => Abs(distribution[i]));
    forall i | 0 <= i < |written| ensures SearchValue(written[i]) == Some(vals[i]) {
      RewriteValue(lines[i], distribution[i]);
    }
    ValuesEach(written, vals);
  }

  /** The `ValueError`s of `create_normal_distribution`, checked in this order. */
  datatype DistributionError = NonPositiveN | NonPositiveStdDev | EmptyRange

  /** The argument checks of `create_normal_distribution`, made before any
      sampling; None when all pass. */
  function CheckDistribution(n: int, stdDev: real, minVal: int, maxVal: int): (r: Option<DistributionError>)
    ensures r.None? <==> n > 0 && stdDev > 0.0 && minVal < maxVal
    ensures r == Some(NonPositiveN) <==> n <= 0
    ensures r == Some(NonPositiveStdDev) <==> n > 0 && stdDev <= 0.0
    ensures r == Some(EmptyRange) <==> n > 0 && stdDev > 0.0 && minVal >= maxVal
  {
    if n <= 0 then Some(NonPositiveN)
    else if stdDev <= 0.0 then Some(NonPositiveStdDev)
    else if minVal >= maxVal then Some(EmptyRange)
    else None
  }

  /** `args.N` as processing mode fixes it: the line count when it is not
      given, and never more than the line count. */
  function EffectiveN(requested: Option<int>, numLines: nat): (n: int)
    ensures n <= numLines
    ensures requested.None? ==> n == numLines
    ensures requested.Some? && requested.value <= numLines ==> n == requested.value
    ensures requested.Some? && requested.value > numLines ==> n == numLines
  {
    if requested.None? then numLines
    else if requested.value > numLines then numLines
    else requested.value
  }

  /** Processing an empty script always stops at the first check. */
  lemma EmptyScriptRejected(requested: Option<int>, stdDev: real, minVal: int, maxVal: int)
    ensures CheckDistribution(EffectiveN(requested, 0), stdDev, minVal, maxVal) == Some(NonPositiveN)
  {
  }

  /** `' '.join(map(str, values))`, the string `create_normal_distribution`
      returns. */
  function FormatDistribution(values: seq<int>): string {
    Join(Strings(values), " ")
  }

  /** `map(str, values)`. */
  function Strings(values: seq<int>): (ws: seq<string>)
    ensures |ws| == |values|
    decreases |values|
  {
    if values == [] then [] else [IntToString(values[0])] + Strings(values[1..])
  }

  /** `int(w)` on the words that `str()` of an integer produces; None for
      any other word. */
  function ParseInt(w: string): Option<int> {
    if |w| > 1 && w[0] == '-' && AllDigits(w[1..]) then Some(0 - ParseNat(w[1..]) as int)
    else if AllDigits(w) then Some(ParseNat(w))
    else None
  }

  function ParseAll(words: seq<string>): Option<seq<int>>
    decreases |words|
  {
    if words == [] then Some([])
    else match (ParseInt(words[0]), ParseAll(words[1..]))
      case (Some(v), Some(rest)) => Some([v] + rest)
      case _ => None
  }

  /** `list(map(int, s.split()))`, or None where `int` would raise. */
  function ParseDistribution(s: string): Option<seq<int>> {
    ParseAll(SplitWhitespace(s))
  }

  lemma IntToStringParses(v: int)
    ensures IsWord(IntToString(v)) && ParseInt(IntToString(v)) == Some(v)
  {
    var r := IntToString(v);
    if v < 0 {
      assert r[1..] == NatToString(-v);
    }
    forall k | 0 <= k < |r| ensures !IsSpace(r[k]) {
      if v < 0 && k > 0 {
        assert r[k] == r[1..][k - 1];
      }
    }
  }

  lemma {:induction false} ParseAllStrings(values: seq<int>)
    ensures ParseAll(Strings(values)) == Some(values)
    decreases |values|
  {
    if values != [] {
      var ws := Strings(values);
      IntToStringParses(values[0]);
      ParseAllStrings(values[1..]);
      assert ws[0] == IntToString(values[0]) && ws[1..] == Strings(values[1..]);
      assert [values[0]] + values[1..] == values;
    }
  }

  /** Every string of an integer is one word. */
  lemma {:induction false} StringsWords(values: seq<int>)
    ensures forall k :: 0 <= k < |Strings(values)| ==> IsWord(Strings(values)[k])
    decreases |values|
  {
    if values != [] {
      IntToStringParses(values[0]);
      StringsWords(values[1..]);
      var ws := Strings(values);
      assert forall k :: 1 <= k < |ws| ==> ws[k] == Strings(values[1..])[k - 1];
    }
  }

  /** Reading the distribution back from its string, as processing mode
      does, gives the sampled values. */
  lemma DistributionRoundTrip(values: seq<int>)
    ensures ParseDistribution(FormatDistribution(values)) == Some(values)
  {
    StringsWords(values);
    SplitJoinWords(Strings(values));
    ParseAllStrings(values);
  }
}
