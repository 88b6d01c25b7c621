/**
 * Take selection of the corpus reorganiser (`process_files`): a recording
 * file is named `<id>_<counter>.wav`, possibly with stray spaces; for every
 * utterance id the file with the highest counter is kept, and among equal
 * counters the first one listed.
 */
module Takes {
  import opened Wrappers
  import opened PyStrings
  import opened Numerals
  import opened UtteranceIds

  /** `re.match(r'(t3a?_\d+)_(\d+)\.wav', name)`: the id and counter groups,
      or None. Only the start of the name is anchored. */
  function MatchTake(name: string): (r: Option<(string, string)>)
    ensures r.Some? ==> IsUtteranceId(r.value.0) && AllDigits(r.value.1)
  {
    UtteranceIdEndSound(name, 0);
    match UtteranceIdEnd(name, 0)
    case None => None
    case Some(e) =>
      if e + 1 < |name| && name[e] == '_' && IsDigit(name[e + 1]) then
        var c := SpanEnd(name, e + 1, IsDigit);
        DigitRun(name, e + 1, c);
        assert name[0..e] == name[..e];
        if StartsWith(name[c..], ".wav") then Some((name[..e], name[e + 1..c])) else None
      else None
  }

  /** A take name `<id>_<counter>.wav`, followed by anything, yields its id
      and its counter. */
  lemma MatchTakeOf(id: string, counter: string, rest: string)
    requires IsUtteranceId(id) && AllDigits(counter)
    ensures MatchTake(id + ("_" + (counter + (".wav" + rest)))) == Some((id, counter))
  {
    var d := ".wav" + rest;
    var c := counter + d;
    var b := "_" + c;
    var name := id + b;
    UtteranceIdEndOf(id, b);
    assert name[..|id|] == id && name[|id|..] == b;
    assert name[|id|] == '_' && name[|id| + 1] == counter[0];
    CounterRun(id, counter, d);
  }

  lemma CounterRun(id: string, counter: string, d: string)
    requires AllDigits(counter) && |d| > 0 && d[0] == '.'
    ensures var name := id + ("_" + (counter + d));
      |id| + 1 + |counter| <= |name| &&
      SpanEnd(name, |id| + 1, IsDigit) == |id| + 1 + |counter| &&
      name[|id| + 1..|id| + 1 + |counter|] == counter && name[|id| + 1 + |counter|..] == d
  {
    var name := id + ("_" + (counter + d));
    var s := |id| + 1;
    assert forall k :: s <= k < s + |counter| ==> name[k] == counter[k - s];
    assert name[s + |counter|] == d[0];
    SpanEndIs(name, s, IsDigit, s + |counter|);
    assert name[s..s + |counter|] == counter;
    assert name[s + |counter|..] == d;
  }

  /** What a match tells about the name: it starts with `<id>_<counter>.wav`. */
  lemma MatchTakeSound(name: string)
    ensures MatchTake(name).Some? ==>
      var (id, counter) := MatchTake(name).value;
      StartsWith(name, id + "_" + counter + ".wav")
  {
    if MatchTake(name).Some? {
      var e := UtteranceIdEnd(name, 0).value;
      var c := SpanEnd(name, e + 1, IsDigit);
      var (id, counter) := MatchTake(name).value;
      var p := id + "_" + counter + ".wav";
      assert |p| == c + 4;
      forall k | 0 <= k < |p|
        ensures name[k] == p[k]
      {
        if k < e {
          assert p[k] == id[k];
        } else if k == e {
          assert p[k] == '_';
        } else if k < c {
          assert p[k] == counter[k - e - 1];
        } else {
          assert p[k] == ".wav"[k - c] == name[c..][k - c];
        }
      }
      assert name[..|p|] == p;
    }
  }

  /** The match is made on the name with every space removed. */
  function TakeOf(file: string): Option<(string, string)> {
    MatchTake(RemoveChar(file, ' '))
  }

  /** Spaces before the `_` and before the `.wav` of a take name, as in
      `t3_00007 _1.wav`, do not hide the take. */
  lemma SpacesIgnored(id: string, w1: string, counter: string, w2: string)
    requires IsUtteranceId(id) && AllDigits(counter)
    requires forall k :: 0 <= k < |w1| ==> w1[k] == ' '
    requires forall k :: 0 <= k < |w2| ==> w2[k] == ' '
    ensures TakeOf(id + (w1 + ("_" + (counter + (w2 + ".wav"))))) == Some((id, counter))
  {
    NoSpaceInId(id);
    assert ' ' !in counter;
    RemoveCharAbsent(id, ' ');
    RemoveCharAbsent(counter, ' ');
    RemoveCharAbsent("_", ' ');
    RemoveCharAbsent(".wav", ' ');
    OnlySpaces(w1);
    OnlySpaces(w2);
    var r4 := w2 + ".wav";
    var r3 := counter + r4;
    var r2 := "_" + r3;
    var r1 := w1 + r2;
    RemoveCharAppend(w2, ".wav", ' ');
    assert RemoveChar(r4, ' ') == ".wav";
    RemoveCharAppend(counter, r4, ' ');
    RemoveCharAppend("_", r3, ' ');
    RemoveCharAppend(w1, r2, ' ');
    assert RemoveChar(r1, ' ') == "_" + (counter + ".wav");
    RemoveCharAppend(id, r1, ' ');
    assert ".wav" + "" == ".wav";
    MatchTakeOf(id, counter, "");
  }

  lemma OnlySpaces(w: string)
    requires forall k :: 0 <= k < |w| ==> w[k] == ' '
    ensures RemoveChar(w, ' ') == []
  {
  }

  lemma NoSpaceInId(id: string)
    requires IsUtteranceId(id)
    ensures ' ' !in id
  {
    var n := if StartsWith(id, "t3a_") then 4 else 3;
    assert id[..n] == (if n == 4 then "t3a_" else "t3_");
    forall k | 0 <= k < |id|
      ensures id[k] != ' '
    {
      if k < n {
        assert id[k] == id[..n][k];
      } else {
        assert id[k] == id[n..][k - n];
      }
    }
  }

  /** A matching file: its name as listed, its id and its counter. */
  datatype Take = Take(file: string, id: string, counter: string)

  predicate Numeric(ts: seq<Take>) {
    forall k :: 0 <= k < |ts| ==> OnlyDigits(ts[k].counter)
  }

  /** `int(counter)`. */
  function Num(t: Take): nat
    requires OnlyDigits(t.counter)
  {
    ParseNat(t.counter)
  }

  /** The candidate of one file: its take, or nothing when it does not match. */
  function TakeList(file: string): (r: seq<Take>)
    ensures TakeOf(file).None? ==> r == []
    ensures TakeOf(file).Some? ==> r == [Take(file, TakeOf(file).value.0, TakeOf(file).value.1)]
    ensures Numeric(r)
  {
    match TakeOf(file)
    case None => []
    case Some((id, counter)) => [Take(file, id, counter)]
  }

  /** The matching files among files, in order. */
  function Candidates(files: seq<string>): (ts: seq<Take>)
    ensures Numeric(ts)
    decreases |files|
  {
    if files == [] then []
    else Candidates(files[..|files| - 1]) + TakeList(files[|files| - 1])
  }

  /** Every candidate is a listed file that matches with its id and counter. */
  lemma {:induction false} CandidatesSound(files: seq<string>, k: nat)
    requires k < |Candidates(files)|
    ensures Candidates(files)[k].file in files
    ensures TakeOf(Candidates(files)[k].file) == Some((Candidates(files)[k].id, Candidates(files)[k].counter))
    decreases |files|
  {
    var n := |files| - 1;
    var init := Candidates(files[..n]);
    if k < |init| {
      CandidatesSound(files[..n], k);
      assert Candidates(files)[k] == init[k];
      assert files[..n][..] <= files;
    }
  }

  /** Every matching file is a candidate. */
  lemma {:induction false} CandidatesComplete(files: seq<string>, k: nat)
    requires k < |files| && TakeOf(files[k]).Some?
    ensures Take(files[k], TakeOf(files[k]).value.0, TakeOf(files[k]).value.1) in Candidates(files)
    decreases |files|
  {
    var n := |files| - 1;
    var t := Take(files[k], TakeOf(files[k]).value.0, TakeOf(files[k]).value.1);
    var init := Candidates(files[..n]);
    assert Candidates(files) == init + TakeList(files[n]);
    if k < n {
      assert files[..n][k] == files[k];
      CandidatesComplete(files[..n], k);
      assert t in init;
    } else {
      assert TakeList(files[n]) == [t];
    }
  }

  /** The candidates of a prefix of the files come first. */
  lemma {:induction false} CandidatesPrefix(files: seq<string>, i: nat)
    requires i <= |files|
    ensures Candidates(files[..i]) <= Candidates(files)
    decreases |files|
  {
    if i < |files| {
      var n := |files| - 1;
      assert files[..n][..i] == files[..i];
      CandidatesPrefix(files[..n], i);
    } else {
      assert files[..i] == files;
    }
  }

  /** A matching file p has its candidate among the candidates of the files
      up to p, all of which are files listed up to p. */
  lemma CandidateWithin(files: seq<string>, p: nat) returns (j: nat, h: nat)
    requires p < |files| && TakeOf(files[p]).Some?
    ensures h == |Candidates(files[..p + 1])| && j < h <= |Candidates(files)|
    ensures Candidates(files)[j] == Take(files[p], TakeOf(files[p]).value.0, TakeOf(files[p]).value.1)
    ensures forall m :: 0 <= m < h ==> Candidates(files)[m].file in files[..p + 1]
  {
    var pre := files[..p + 1];
    var head := Candidates(pre);
    CandidatesPrefix(files, p + 1);
    assert pre[p] == files[p];
    CandidatesComplete(pre, p);
    j :| 0 <= j < |head| && head[j] == Take(files[p], TakeOf(files[p]).value.0, TakeOf(files[p]).value.1);
    h := |head|;
    forall m | 0 <= m < h ensures Candidates(files)[m].file in pre {
      assert head[m] == Candidates(files)[m];
      CandidatesSound(pre, m);
    }
  }

  /** On equal counters the file listed first stays: a later file of the
      same id with the same take number that is not listed up to the first
      one is not the kept take. */
  lemma FirstListedWins(files: seq<string>, p: nat, q: nat)
    requires p < q < |files|
    requires TakeOf(files[p]).Some? && TakeOf(files[q]).Some?
    requires TakeOf(files[p]).value.0 == TakeOf(files[q]).value.0
    requires OnlyDigits(TakeOf(files[p]).value.1) && OnlyDigits(TakeOf(files[q]).value.1)
    requires ParseNat(TakeOf(files[p]).value.1) == ParseNat(TakeOf(files[q]).value.1)
    requires forall m :: 0 <= m <= p ==> files[m] != files[q]
    ensures TakeOf(files[p]).value.0 in Best(Candidates(files))
    ensures Best(Candidates(files))[TakeOf(files[p]).value.0].file != files[q]
  {
    var id := TakeOf(files[p]).value.0;
    var ts := Candidates(files);
    var j, h := CandidateWithin(files, p);
    BestOfFilesIds(files, id);
    BestWins(ts, id);
    var k :| 0 <= k < |ts| && ts[k] == Best(ts)[id] && Wins(ts, k);
    CandidatesSound(files, k);
    if k >= h {
      assert Num(ts[j]) < Num(ts[k]);
      assert Num(ts[j]) == ParseNat(TakeOf(files[q]).value.1);
    }
  }

  /** An id is kept exactly when one of the files matches with it. */
  lemma BestOfFilesIds(files: seq<string>, id: string)
    ensures id in Best(Candidates(files)) <==>
      exists i :: 0 <= i < |files| && TakeOf(files[i]).Some? && TakeOf(files[i]).value.0 == id
  {
    var ts := Candidates(files);
    BestKeys(ts);
    if id in Best(ts) {
      var k :| 0 <= k < |ts| && ts[k].id == id;
      CandidatesSound(files, k);
    }
    if i :| 0 <= i < |files| && TakeOf(files[i]).Some? && TakeOf(files[i]).value.0 == id {
      CandidatesComplete(files, i);
    }
  }

  /** The kept take of an id is a listed file that matches with that id,
      and no listed file matches with that id and a higher take number. */
  lemma BestOfFilesHighest(files: seq<string>, id: string)
    requires id in Best(Candidates(files))
    ensures var t := Best(Candidates(files))[id];
      t.file in files && TakeOf(t.file) == Some((id, t.counter)) && OnlyDigits(t.counter)
    ensures var t := Best(Candidates(files))[id];
      forall i :: 0 <= i < |files| && TakeOf(files[i]).Some? && TakeOf(files[i]).value.0 == id ==>
        OnlyDigits(TakeOf(files[i]).value.1) && ParseNat(TakeOf(files[i]).value.1) <= ParseNat(t.counter)
  {
    var ts := Candidates(files);
    BestWins(ts, id);
    var k :| 0 <= k < |ts| && ts[k] == Best(ts)[id] && Wins(ts, k);
    CandidatesSound(files, k);
    forall i | 0 <= i < |files| && TakeOf(files[i]).Some? && TakeOf(files[i]).value.0 == id
      ensures OnlyDigits(TakeOf(files[i]).value.1) && ParseNat(TakeOf(files[i]).value.1) <= ParseNat(ts[k].counter)
    {
      WinnerBeatsFile(files, k, i);
    }
  }

  /** A winning take has a number at least that of every listed file that
      matches with its id. */
  lemma WinnerBeatsFile(files: seq<string>, k: nat, i: nat)
    requires k < |Candidates(files)| && Wins(Candidates(files), k)
    requires i < |files| && TakeOf(files[i]).Some? && TakeOf(files[i]).value.0 == Candidates(files)[k].id
    ensures OnlyDigits(TakeOf(files[i]).value.1)
    ensures ParseNat(TakeOf(files[i]).value.1) <= ParseNat(Candidates(files)[k].counter)
  {
    var ts := Candidates(files);
    var m := TakeOf(files[i]).value;
    CandidatesComplete(files, i);
    var j :| 0 <= j < |ts| && ts[j] == Take(files[i], m.0, m.1);
    assert Num(ts[j]) <= Num(ts[k]);
  }

  /** The kept take for each id: a later take replaces the kept one only with
      a strictly higher counter. */
  function Best(ts: seq<Take>): (r: map<string, Take>)
    requires Numeric(ts)
    ensures forall id :: id in r ==> r[id].id == id && r[id] in ts
    decreases |ts|
  {
    if ts == [] then map[]
    else
      var n := |ts| - 1;
      var t := ts[n];
      assert forall k :: 0 <= k < |ts[..n]| ==> ts[..n][k] == ts[k];
      var kept := Best(ts[..n]);
      if t.id !in kept || Num(t) > Num(kept[t.id]) then kept[t.id := t] else kept
  }

  /** One more take: it replaces the kept one for its id only with a strictly
      higher counter. */
  lemma BestSnoc(ts: seq<Take>, t: Take)
    requires Numeric(ts) && OnlyDigits(t.counter)
    ensures Numeric(ts + [t])
    ensures Best(ts + [t]) ==
      if t.id !in Best(ts) || Num(t) > Num(Best(ts)[t.id]) then Best(ts)[t.id := t] else Best(ts)
  {
    assert (ts + [t])[..|ts|] == ts;
  }

  /** The ids with a kept take are exactly the ids of the candidates. */
  lemma {:induction false} BestKeys(ts: seq<Take>)
    requires Numeric(ts)
    ensures forall id :: id in Best(ts) <==> exists k :: 0 <= k < |ts| && ts[k].id == id
    decreases |ts|
  {
    if ts != [] {
      var n := |ts| - 1;
      assert forall k :: 0 <= k < |ts[..n]| ==> ts[..n][k] == ts[k];
      BestKeys(ts[..n]);
    }
  }

  /** Take k wins for its id: no take for that id has a higher counter, and
      every earlier take for it has a lower one. */
  predicate Wins(ts: seq<Take>, k: nat)
    requires Numeric(ts) && k < |ts|
  {
    (forall j :: 0 <= j < |ts| && ts[j].id == ts[k].id ==> Num(ts[j]) <= Num(ts[k])) &&
    (forall j :: 0 <= j < k && ts[j].id == ts[k].id ==> Num(ts[j]) < Num(ts[k]))
  }

  /** The kept take of every id is the winning take for it. */
  lemma {:induction false} BestWins(ts: seq<Take>, id: string)
    requires Numeric(ts) && id in Best(ts)
    ensures exists k :: 0 <= k < |ts| && ts[k] == Best(ts)[id] && Wins(ts, k)
    decreases |ts|
  {
    var n := |ts| - 1;
    var init := ts[..n];
    var t := ts[n];
    assert forall k :: 0 <= k < |init| ==> init[k] == ts[k];
    var kept := Best(init);
    if t.id == id && id !in kept {
      BestKeys(init);
      WinsLast(ts);
    } else if t.id == id && Num(t) > Num(kept[id]) {
      BestWins(init, id);
      var m :| 0 <= m < |init| && init[m] == kept[id] && Wins(init, m);
      WinsLast(ts);
    } else {
      BestWins(init, id);
      var m :| 0 <= m < |init| && init[m] == kept[id] && Wins(init, m);
      WinsKeep(ts, m);
    }
  }

  /** The last take wins when every earlier take for its id has a lower counter. */
  lemma WinsLast(ts: seq<Take>)
    requires Numeric(ts) && |ts| > 0
    requires forall j :: 0 <= j < |ts| - 1 && ts[j].id == ts[|ts| - 1].id ==> Num(ts[j]) < Num(ts[|ts| - 1])
    ensures Wins(ts, |ts| - 1)
  {
  }

  /** A winner stays one when a take that does not beat it is appended. */
  lemma WinsKeep(ts: seq<Take>, m: nat)
    requires Numeric(ts) && m < |ts| - 1
    requires Numeric(ts[..|ts| - 1]) && Wins(ts[..|ts| - 1], m)
    requires ts[|ts| - 1].id != ts[m].id || Num(ts[|ts| - 1]) <= Num(ts[m])
    ensures Wins(ts, m)
  {
    var init := ts[..|ts| - 1];
    assert forall k :: 0 <= k < |init| ==> init[k] == ts[k];
  }

  /** There is one winning take per id, so the kept one is determined. */
  lemma WinnerUnique(ts: seq<Take>, k1: nat, k2: nat)
    requires Numeric(ts) && k1 < |ts| && k2 < |ts|
    requires ts[k1].id == ts[k2].id && Wins(ts, k1) && Wins(ts, k2)
    ensures k1 == k2
  {
  }

  /** The loop over the `.wav` files of one subdirectory that fills
      `utterance_files`. */
  method CollectTakes(files: seq<string>) returns (kept: map<string, Take>)
    ensures kept == Best(Candidates(files))
  {
    kept := map[];
    ghost var ts: seq<Take> := [];
    var i := 0;
    while i < |files|
      invariant 0 <= i <= |files|
      invariant ts == Candidates(files[..i])
      invariant kept == Best(ts)
    {
      var file := files[i];
      assert files[..i + 1][..i] == files[..i] && files[..i + 1][i] == file;
      var m := MatchTake(RemoveChar(file, ' '));
      if m.Some? {
        var (baseName, counter) := m.value;
        BestSnoc(ts, Take(file, baseName, counter));
        if baseName !in kept || ParseNat(counter) > ParseNat(kept[baseName].counter) {
          kept := kept[baseName := Take(file, baseName, counter)];
        }
        ts := ts + [Take(file, baseName, counter)];
      }
      i := i + 1;
    }
    assert files[..i] == files;
  }
}
