/**
 * Utterance identifiers `t3_<digits>` (emotion scripts) and `t3a_<digits>`
 * (addenda scripts), matched as the regular expression `t3a?_\d+`.
 */
module UtteranceIds {
  import opened Wrappers
  import opened PyStrings
  import opened Numerals

  predicate IsUtteranceId(s: string) {
    (StartsWith(s, "t3_") && AllDigits(s[3..])) || (StartsWith(s, "t3a_") && AllDigits(s[4..]))
  }

  /** Where a match of `t3a?_\d+` starting at position i of t ends. The
      regular expression cannot backtrack usefully: `a`, `_` and the digits are
      distinct characters, so the digit run is taken whole. */
  function UtteranceIdEnd(t: string, i: nat): (r: Option<nat>)
    requires i <= |t|
    ensures r.Some? ==> i < r.value <= |t|
  {
    var j := if i + 2 < |t| && t[i + 2] == 'a' then i + 3 else i + 2;
    if i + 2 <= |t| && t[i] == 't' && t[i + 1] == '3' && j + 1 < |t| && t[j] == '_' && IsDigit(t[j + 1])
    then Some(SpanEnd(t, j + 1, IsDigit))
    else None
  }

  /** A match of `t3a?_\d+` is a well-formed identifier, followed by a
      non-digit or by the end of the text. */
  lemma UtteranceIdEndSound(t: string, i: nat)
    requires i <= |t|
    ensures UtteranceIdEnd(t, i).Some? ==>
      var e := UtteranceIdEnd(t, i).value;
      i < e <= |t| && IsUtteranceId(t[i..e]) && (e == |t| || !IsDigit(t[e]))
  {
    if UtteranceIdEnd(t, i).Some? {
      var j := if i + 2 < |t| && t[i + 2] == 'a' then i + 3 else i + 2;
      var e := SpanEnd(t, j + 1, IsDigit);
      var s := t[i..e];
      var n := j + 1 - i;
      assert s[..n] == t[i..j + 1];
      if j == i + 2 {
        assert s[..n] == "t3_";
      } else {
        assert s[..n] == "t3a_";
      }
      assert forall k :: 0 <= k < |s[n..]| ==> s[n..][k] == t[j + 1 + k];
    }
  }

  /** A well-formed identifier at the start of a text is matched whole when
      a non-digit (or the end of the text) follows it. */
  lemma UtteranceIdEndOf(id: string, post: string)
    requires IsUtteranceId(id)
    requires post == [] || !IsDigit(post[0])
    ensures UtteranceIdEnd(id + post, 0) == Some(|id|)
  {
    var t := id + post;
    var n := if StartsWith(id, "t3a_") then 4 else 3;
    assert id[..n] == (if n == 4 then "t3a_" else "t3_");
    assert t[0] == id[0] == 't' && t[1] == id[1] == '3' && t[2] == id[2];
    assert t[n - 1] == '_';
    assert IsDigit(id[n]);
    assert t[n] == id[n];
    assert forall k :: n <= k < |id| ==> IsDigit(t[k]) by {
      forall k | n <= k < |id| ensures IsDigit(t[k]) {
        assert t[k] == id[k] == id[n..][k - n];
      }
    }
    assert |id| < |t| ==> t[|id|] == post[0];
    SpanEndIs(t, n, IsDigit, |id|);
  }
}
