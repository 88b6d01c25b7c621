/**
 * Models of the Python `str` operations the voice-corpus scripts rely on:
 * `isspace`, `strip`, `startswith`, `endswith`, `replace`, `split` with and
 * without a separator, and `join`.
 */
module PyStrings {
  import opened Wrappers

  /** `str.isspace()` of one character: the set `\s` matches in a `str` regex. */
  predicate IsSpace(c: char) {
    ('\t' <= c <= '\r') || ('\U{1C}' <= c <= '\U{1F}') || c == ' ' || c == '\U{85}' || c == '\U{A0}'
    || c == '\U{1680}' || ('\U{2000}' <= c <= '\U{200A}') || c == '\U{2028}' || c == '\U{2029}'
    || c == '\U{202F}' || c == '\U{205F}' || c == '\U{3000}'
  }

  predicate AllSpace(s: string) {
    forall k :: 0 <= k < |s| ==> IsSpace(s[k])
  }

  /** The first index j >= i such that s[j] does not satisfy p (or |s|). */
  function SpanEnd(s: string, i: nat, p: char -> bool): (j: nat)
    requires i <= |s|
    ensures i <= j <= |s|
    ensures j < |s| ==> !p(s[j])
    ensures forall k :: i <= k < j ==> p(s[k])
    decreases |s| - i
  {
    if i == |s| || !p(s[i]) then i else SpanEnd(s, i + 1, p)
  }

  /** The span end is determined by the characters alone. */
  lemma SpanEndIs(s: string, i: nat, p: char -> bool, j: nat)
    requires i <= j <= |s|
    requires forall k :: i <= k < j ==> p(s[k])
    requires j < |s| ==> !p(s[j])
    ensures SpanEnd(s, i, p) == j
  {
  }

  /** The least index j <= hi, not below lo, such that s[j..hi] consists of
      p-characters only. */
  function SpanBack(s: string, lo: nat, hi: nat, p: char -> bool): (j: nat)
    requires lo <= hi <= |s|
    ensures lo <= j <= hi
    ensures j > lo ==> !p(s[j - 1])
    ensures forall k :: j <= k < hi ==> p(s[k])
    decreases hi - lo
  {
    if hi == lo || !p(s[hi - 1]) then hi else SpanBack(s, lo, hi - 1, p)
  }

  /** The backward span end is determined by the characters alone. */
  lemma {:induction false} SpanBackIs(s: string, lo: nat, hi: nat, p: char -> bool, j: nat)
    requires lo <= j <= hi <= |s|
    requires forall k :: j <= k < hi ==> p(s[k])
    requires j > lo ==> !p(s[j - 1])
    ensures SpanBack(s, lo, hi, p) == j
    decreases hi - lo
  {
    if hi > j {
      SpanBackIs(s, lo, hi - 1, p, j);
    }
  }

  /** `str.strip(chars)` with the character set given as a predicate: the
      longest runs of p-characters at both ends are removed. */
  function StripBy(s: string, p: char -> bool): string {
    var a := SpanEnd(s, 0, p);
    s[a..SpanBack(s, a, |s|, p)]
  }

  /** `str.strip()`: removes leading and trailing whitespace. */
  function Strip(s: string): string {
    StripBy(s, IsSpace)
  }

  /** Stripping removes exactly a run of p-characters on each side of a core
      whose two ends do not satisfy p. */
  lemma StripByOf(pre: string, core: string, post: string, p: char -> bool)
    requires forall k :: 0 <= k < |pre| ==> p(pre[k])
    requires forall k :: 0 <= k < |post| ==> p(post[k])
    requires core != [] && !p(core[0]) && !p(core[|core| - 1])
    ensures StripBy(pre + core + post, p) == core
  {
    var t := pre + core + post;
    var a, b := |pre|, |pre| + |core|;
    assert forall k :: 0 <= k < a ==> t[k] == pre[k];
    assert t[a] == core[0] && t[b - 1] == core[|core| - 1];
    assert forall k :: b <= k < |t| ==> t[k] == post[k - b];
    SpanEndIs(t, 0, p, a);
    SpanBackIs(t, a, |t|, p, b);
    assert t[a..b] == core;
  }

  predicate StartsWith(s: string, prefix: string) {
    |prefix| <= |s| && s[..|prefix|] == prefix
  }

  predicate EndsWith(s: string, suffix: string) {
    |suffix| <= |s| && s[|s| - |suffix|..] == suffix
  }

  /** `s.replace(c, '')` for a single character c. */
  function RemoveChar(s: string, c: char): (r: string)
    ensures c !in r
    ensures forall x :: x in r <==> x in s && x != c
  {
    if s == [] then [] else (if s[0] == c then [] else [s[0]]) + RemoveChar(s[1..], c)
  }

  lemma {:induction false} RemoveCharAppend(s: string, t: string, c: char)
    ensures RemoveChar(s + t, c) == RemoveChar(s, c) + RemoveChar(t, c)
  {
    if s != [] {
      assert (s + t)[1..] == s[1..] + t;
      RemoveCharAppend(s[1..], t, c);
    } else {
      assert s + t == t;
    }
  }

  lemma {:induction false} RemoveCharAbsent(s: string, c: char)
    requires c !in s
    ensures RemoveChar(s, c) == s
  {
    if s != [] {
      RemoveCharAbsent(s[1..], c);
    }
  }

  /** The index of the first occurrence of c in s. */
  function FirstIndexOf(s: string, c: char): (r: Option<nat>)
    ensures r.Some? ==> r.value < |s| && s[r.value] == c && c !in s[..r.value]
    ensures r.None? <==> c !in s
  {
    if s == [] then None
    else if s[0] == c then Some(0)
    else match FirstIndexOf(s[1..], c)
      case None => None
      case Some(k) =>
        assert s[..k + 1] == [s[0]] + s[1..][..k];
        Some(k + 1)
  }

  /** `a, b = s.split(c, 1)`: None when the unpacking would raise, because c
      does not occur in s. */
  function SplitFirst(s: string, c: char): (r: Option<(string, string)>)
    ensures r.None? <==> c !in s
    ensures r.Some? ==> s == r.value.0 + [c] + r.value.1 && c !in r.value.0
  {
    match FirstIndexOf(s, c)
    case None => None
    case Some(k) =>
      assert s == s[..k] + [c] + s[k + 1..];
      Some((s[..k], s[k + 1..]))
  }

  /** The split happens at the first c, so the second part may contain c. */
  lemma SplitFirstOf(a: string, c: char, b: string)
    requires c !in a
    ensures SplitFirst(a + [c] + b, c) == Some((a, b))
  {
    var s := a + [c] + b;
    assert s[..|a|] == a;
    FirstIndexOfIs(s, c, |a|);
    assert s[|a| + 1..] == b;
  }

  lemma {:induction false} FirstIndexOfIs(s: string, c: char, k: nat)
    requires k < |s| && s[k] == c && c !in s[..k]
    ensures FirstIndexOf(s, c) == Some(k)
  {
    if k > 0 {
      assert s[0] == s[..k][0];
      assert s[1..][..k - 1] == s[..k][1..];
      FirstIndexOfIs(s[1..], c, k - 1);
    }
  }

  predicate OccursAt(s: string, sep: string, p: nat) {
    p + |sep| <= |s| && s[p..p + |sep|] == sep
  }

  /** The leftmost occurrence of sep in s at or after position p. */
  function IndexFrom(s: string, sep: string, p: nat): (r: Option<nat>)
    requires |sep| > 0 && p <= |s|
    ensures r.Some? ==> p <= r.value && OccursAt(s, sep, r.value)
    ensures r.Some? ==> forall q :: p <= q < r.value ==> !OccursAt(s, sep, q)
    ensures r.None? ==> forall q :: p <= q <= |s| ==> !OccursAt(s, sep, q)
    decreases |s| - p
  {
    if p + |sep| > |s| then None
    else if OccursAt(s, sep, p) then Some(p)
    else IndexFrom(s, sep, p + 1)
  }

  lemma IndexFromIs(s: string, sep: string, p: nat, k: nat)
    requires |sep| > 0 && p <= k
    requires OccursAt(s, sep, k)
    requires forall q :: p <= q < k ==> !OccursAt(s, sep, q)
    ensures IndexFrom(s, sep, p) == Some(k)
  {
  }

  /** `s.split(sep)` for a non-empty separator. */
  function Split(s: string, sep: string): (r: seq<string>)
    requires |sep| > 0
    ensures |r| >= 1
    decreases |s|
  {
    match IndexFrom(s, sep, 0)
    case None => [s]
    case Some(k) => [s[..k]] + Split(s[k + |sep|..], sep)
  }

  /** No part of a split on a one-character separator contains it. */
  lemma {:induction false} SplitPartsFree(s: string, c: char)
    ensures forall k :: 0 <= k < |Split(s, [c])| ==> c !in Split(s, [c])[k]
    decreases |s|
  {
    match IndexFrom(s, [c], 0)
    case None =>
      forall q | 0 <= q < |s| ensures s[q] != c {
        if s[q] == c {
          assert s[q..q + 1] == [c];
          assert OccursAt(s, [c], q);
        }
      }
    case Some(k) =>
      SplitPartsFree(s[k + 1..], c);
      forall q | 0 <= q < k ensures s[..k][q] != c {
        if s[q] == c {
          assert s[q..q + 1] == [c];
          assert OccursAt(s, [c], q);
        }
      }
  }

  /** `sep.join(parts)`. */
  function Join(parts: seq<string>, sep: string): string {
    if |parts| == 0 then ""
    else if |parts| == 1 then parts[0]
    else parts[0] + sep + Join(parts[1..], sep)
  }

  /** Joining the parts of a split restores the string. */
  lemma {:induction false} JoinSplit(s: string, sep: string)
    requires |sep| > 0
    ensures Join(Split(s, sep), sep) == s
    decreases |s|
  {
    match IndexFrom(s, sep, 0)
    case None =>
    case Some(k) =>
      var rest := Split(s[k + |sep|..], sep);
      JoinSplit(s[k + |sep|..], sep);
      assert ([s[..k]] + rest)[1..] == rest;
      assert s == s[..k] + sep + s[k + |sep|..];
  }

  /** Splitting a join on a one-character separator that no part contains
      gives the parts back. */
  lemma {:induction false} SplitJoin(parts: seq<string>, c: char)
    requires |parts| >= 1
    requires forall k :: 0 <= k < |parts| ==> c !in parts[k]
    ensures Split(Join(parts, [c]), [c]) == parts
    decreases |parts|
  {
    var s := Join(parts, [c]);
    if |parts| == 1 {
      forall q | 0 <= q <= |s| ensures !OccursAt(s, [c], q) {
        if q < |s| {
          assert s[q..q + 1][0] == s[q];
        }
      }
    } else {
      var a := parts[0];
      var t := Join(parts[1..], [c]);
      assert s == a + [c] + t;
      forall q | 0 <= q < |a| ensures !OccursAt(s, [c], q) {
        assert s[q..q + 1][0] == s[q] == a[q];
      }
      assert s[|a|..|a| + 1] == [c];
      IndexFromIs(s, [c], 0, |a|);
      assert s[..|a|] == a;
      assert s[|a| + 1..] == t;
      SplitJoin(parts[1..], c);
      assert [a] + parts[1..] == parts;
    }
  }

  predicate IsNotSpace(c: char) {
    !IsSpace(c)
  }

  /** A word of `s.split()`: non-empty, without whitespace. */
  predicate IsWord(w: string) {
    w != [] && forall k :: 0 <= k < |w| ==> !IsSpace(w[k])
  }

  /** `s.split()`: the maximal runs of non-whitespace characters, in order. */
  function SplitWhitespace(s: string): (r: seq<string>)
    ensures forall k :: 0 <= k < |r| ==> IsWord(r[k])
    ensures r == [] <==> AllSpace(s)
    decreases |s|
  {
    if s == [] then []
    else if IsSpace(s[0]) then
      assert forall k :: 0 <= k < |s| - 1 ==> s[1..][k] == s[k + 1];
      SplitWhitespace(s[1..])
    else
      var e := SpanEnd(s, 0, IsNotSpace);
      assert IsNotSpace(s[0]);
      assert IsWord(s[..e]) by {
        forall j | 0 <= j < e ensures !IsSpace(s[..e][j]) {
          assert s[..e][j] == s[j];
        }
      }
      [s[..e]] + SplitWhitespace(s[e..])
  }

  /** A character absent from s is absent from every word of `s.split()`. */
  lemma {:induction false} SplitWhitespaceAbsent(s: string, c: char)
    requires c !in s
    ensures forall k :: 0 <= k < |SplitWhitespace(s)| ==> c !in SplitWhitespace(s)[k]
    decreases |s|
  {
    if s != [] && IsSpace(s[0]) {
      assert c !in s[1..] by {
        forall j | 0 <= j < |s| - 1 ensures s[1..][j] != c {
          assert s[1..][j] == s[j + 1];
        }
      }
      SplitWhitespaceAbsent(s[1..], c);
    } else if s != [] {
      var e := SpanEnd(s, 0, IsNotSpace);
      assert IsNotSpace(s[0]);
      assert c !in s[..e] by {
        forall j | 0 <= j < e ensures s[..e][j] != c {
          assert s[..e][j] == s[j];
        }
      }
      assert c !in s[e..] by {
        forall j | 0 <= j < |s| - e ensures s[e..][j] != c {
          assert s[e..][j] == s[e + j];
        }
      }
      SplitWhitespaceAbsent(s[e..], c);
    }
  }

  /** Leading whitespace does not change `s.split()`. */
  lemma SplitWhitespaceSpace(c: char, s: string)
    requires IsSpace(c)
    ensures SplitWhitespace([c] + s) == SplitWhitespace(s)
  {
    assert ([c] + s)[1..] == s;
  }

  /** The first word of a text that starts with word w followed by nothing or
      by whitespace is w. */
  lemma SplitWhitespaceWord(w: string, t: string)
    requires IsWord(w) && (t == [] || IsSpace(t[0]))
    ensures SplitWhitespace(w + t) == [w] + SplitWhitespace(t)
  {
    var s := w + t;
    assert s[0] == w[0];
    assert forall k :: 0 <= k < |w| ==> s[k] == w[k];
    assert |w| < |s| ==> s[|w|] == t[0];
    SpanEndIs(s, 0, IsNotSpace, |w|);
    assert s[..|w|] == w;
    assert s[|w|..] == t;
  }

  /** `" ".join(words).split()` gives the words back. */
  lemma {:induction false} SplitJoinWords(ws: seq<string>)
    requires forall k :: 0 <= k < |ws| ==> IsWord(ws[k])
    ensures SplitWhitespace(Join(ws, " ")) == ws
    decreases |ws|
  {
    if |ws| == 1 {
      SplitWhitespaceWord(ws[0], "");
      assert ws[0] + "" == ws[0];
    } else if |ws| > 1 {
      var w, rest := ws[0], Join(ws[1..], " ");
      assert w + " " + rest == w + (" " + rest);
      SplitWhitespaceWord(w, " " + rest);
      SplitWhitespaceSpace(' ', rest);
      SplitJoinWords(ws[1..]);
      assert [w] + ws[1..] == ws;
    }
  }

  lemma {:induction false} JoinSnoc(parts: seq<string>, x: string, sep: string)
    ensures Join(parts + [x], sep) == if parts == [] then x else Join(parts, sep) + sep + x
    decreases |parts|
  {
    if |parts| > 1 {
      assert (parts + [x])[1..] == parts[1..] + [x];
      JoinSnoc(parts[1..], x, sep);
    } else if |parts| == 1 {
      assert parts + [x] == [parts[0], x];
    }
  }

  /** A character in neither the parts nor the separator is not in the join. */
  lemma {:induction false} JoinAbsent(parts: seq<string>, sep: string, c: char)
    requires c !in sep && forall k :: 0 <= k < |parts| ==> c !in parts[k]
    ensures c !in Join(parts, sep)
    decreases |parts|
  {
    if |parts| > 1 {
      JoinAbsent(parts[1..], sep, c);
    }
  }
}
