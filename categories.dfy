/**
 * Category discovery of the corpus reorganiser (`get_emotions_and_addenda`):
 * every subdirectory of the source directory whose name starts with the
 * speaker's original name contributes its category, the part after the first
 * `_` of the name; a category starting with `addendum` is an addendum, every
 * other one an emotion.
 */
module Categories {
  import opened Wrappers
  import opened PyStrings

  /** Unpacking `subdir.split('_', 1)` into two names fails for a name
      without an underscore. */
  datatype CategoryError = NoUnderscore(subdir: string)

  /** The category of a subdirectory: everything after its first `_`. */
  function CategoryOf(subdir: string): (r: Result<string, CategoryError>)
    ensures r.Failure? <==> '_' !in subdir
    ensures r.Failure? ==> r.error == NoUnderscore(subdir)
    ensures r.Success? ==> exists head :: '_' !in head && subdir == head + "_" + r.value
  {
    match SplitFirst(subdir, '_')
    case None => Failure(NoUnderscore(subdir))
    case Some((head, rest)) => Success(rest)
  }

  predicate IsAddendum(category: string) {
    StartsWith(category, "addendum")
  }

  /** The two category lists for the subdirectories of a listing, in listing
      order, or the error of the first selected subdirectory without `_`. */
  function Discover(listing: seq<string>, origName: string): Result<(seq<string>, seq<string>), CategoryError>
    decreases |listing|
  {
    if listing == [] then Success(([], []))
    else
      var subdir := listing[|listing| - 1];
      match Discover(listing[..|listing| - 1], origName)
      case Failure(e) => Failure(e)
      case Success((emotions, addenda)) =>
        if !StartsWith(subdir, origName) then Success((emotions, addenda))
        else match CategoryOf(subdir)
          case Failure(e) => Failure(e)
          case Success(c) =>
            if IsAddendum(c) then Success((emotions, addenda + [c])) else Success((emotions + [c], addenda))
  }

  /** `get_emotions_and_addenda(source_dir, orig_name)` on the listing of the
      source directory. */
  method GetEmotionsAndAddenda(listing: seq<string>, origName: string) returns (r: Result<(seq<string>, seq<string>), CategoryError>)
    ensures r == Discover(listing, origName)
  {
    var emotions: seq<string> := [];
    var addenda: seq<string> := [];
    var i := 0;
    while i < |listing|
      invariant 0 <= i <= |listing|
      invariant Discover(listing[..i], origName) == Success((emotions, addenda))
    {
      var subdir := listing[i];
      assert listing[..i + 1][..i] == listing[..i];
      if StartsWith(subdir, origName) {
        var parts := SplitFirst(subdir, '_');
        if parts.None? {
          DiscoverFailureStays(listing, origName, i + 1);
          return Failure(NoUnderscore(subdir));
        }
        var emotion := parts.value.1;
        if StartsWith(emotion, "addendum") {
          addenda := addenda + [emotion];
        } else {
          emotions := emotions + [emotion];
        }
      }
      i := i + 1;
    }
    assert listing[..i] == listing;
    r := Success((emotions, addenda));
  }

  /** Once a prefix of the listing fails, the whole listing fails the same way. */
  lemma {:induction false} DiscoverFailureStays(listing: seq<string>, origName: string, n: nat)
    requires n <= |listing| && Discover(listing[..n], origName).Failure?
    ensures Discover(listing, origName) == Discover(listing[..n], origName)
    decreases |listing| - n
  {
    if n < |listing| {
      assert listing[..n + 1][..n] == listing[..n];
      DiscoverFailureStays(listing, origName, n + 1);
    } else {
      assert listing[..n] == listing;
    }
  }

  /** The subdirectories the reorganiser looks at. */
  predicate Selected(subdir: string, origName: string) {
    StartsWith(subdir, origName)
  }

  /** A selected subdirectory whose name has no underscore. */
  predicate Unsplittable(subdir: string, origName: string) {
    Selected(subdir, origName) && '_' !in subdir
  }

  /** Discovery fails exactly when a selected subdirectory has no `_`, and
      then it names the first one. */
  lemma {:induction false} DiscoverFails(listing: seq<string>, origName: string)
    ensures Discover(listing, origName).Failure? <==>
      exists k :: 0 <= k < |listing| && Unsplittable(listing[k], origName)
    ensures Discover(listing, origName).Failure? ==>
      exists k :: 0 <= k < |listing| && Unsplittable(listing[k], origName) &&
        Discover(listing, origName).error == NoUnderscore(listing[k]) &&
        forall j :: 0 <= j < k ==> !Unsplittable(listing[j], origName)
    decreases |listing|
  {
    if listing != [] {
      var n := |listing| - 1;
      var init := listing[..n];
      DiscoverFails(init, origName);
      assert forall j :: 0 <= j < n ==> init[j] == listing[j];
      if Discover(init, origName).Failure? {
        var k :| 0 <= k < n && Unsplittable(init[k], origName) &&
          Discover(init, origName).error == NoUnderscore(init[k]) &&
          forall j :: 0 <= j < k ==> !Unsplittable(init[j], origName);
        assert Unsplittable(listing[k], origName);
      } else if Unsplittable(listing[n], origName) {
        assert Discover(listing, origName).error == NoUnderscore(listing[n]);
      }
    }
  }

  /** Every discovered category is the category of a selected subdirectory. */
  lemma {:induction false} DiscoverMembers(listing: seq<string>, origName: string, c: string)
    requires Discover(listing, origName).Success?
    ensures c in Discover(listing, origName).value.0 + Discover(listing, origName).value.1 ==>
      exists i :: 0 <= i < |listing| && Selected(listing[i], origName) && CategoryOf(listing[i]) == Success(c)
    decreases |listing|
  {
    if listing != [] {
      var n := |listing| - 1;
      var init := listing[..n];
      var d0 := Discover(init, origName).value;
      DiscoverMembers(init, origName, c);
      if c in d0.0 + d0.1 {
        var i :| 0 <= i < n && Selected(init[i], origName) && CategoryOf(init[i]) == Success(c);
        assert init[i] == listing[i];
      } else if c in Discover(listing, origName).value.0 + Discover(listing, origName).value.1 {
        assert Selected(listing[n], origName) && CategoryOf(listing[n]) == Success(c);
      }
    }
  }

  /** The categories of the selected subdirectories that have one, in
      listing order; defined front to back and independently of the split into
      two lists. */
  function CategoriesOf(listing: seq<string>, origName: string): seq<string>
    decreases |listing|
  {
    if listing == [] then []
    else
      var rest := CategoriesOf(listing[1..], origName);
      match CategoryOf(listing[0])
      case Success(c) => if Selected(listing[0], origName) then [c] + rest else rest
      case Failure(_) => rest
  }

  /** The category of every selected subdirectory is listed. */
  lemma {:induction false} CategoriesOfMember(listing: seq<string>, origName: string, k: nat)
    requires k < |listing| && Selected(listing[k], origName) && CategoryOf(listing[k]).Success?
    ensures CategoryOf(listing[k]).value in CategoriesOf(listing, origName)
    decreases k
  {
    if k > 0 {
      assert listing[1..][k - 1] == listing[k];
      CategoriesOfMember(listing[1..], origName, k - 1);
    }
  }

  /** The categories c with IsAddendum(c) == addendum, in order. */
  function Keep(cats: seq<string>, addendum: bool): (r: seq<string>)
    ensures forall x :: x in r <==> x in cats && IsAddendum(x) == addendum
    decreases |cats|
  {
    if cats == [] then []
    else if IsAddendum(cats[0]) == addendum then [cats[0]] + Keep(cats[1..], addendum)
    else Keep(cats[1..], addendum)
  }

  lemma {:induction false} KeepAppend(a: seq<string>, b: seq<string>, addendum: bool)
    ensures Keep(a + b, addendum) == Keep(a, addendum) + Keep(b, addendum)
    decreases |a|
  {
    if a == [] {
      assert a + b == b;
    } else {
      assert (a + b)[0] == a[0] && (a + b)[1..] == a[1..] + b;
      KeepAppend(a[1..], b, addendum);
    }
  }

  lemma {:induction false} CategoriesOfAppend(a: seq<string>, b: seq<string>, origName: string)
    ensures CategoriesOf(a + b, origName) == CategoriesOf(a, origName) + CategoriesOf(b, origName)
    decreases |a|
  {
    if a == [] {
      assert a + b == b;
    } else {
      assert (a + b)[0] == a[0] && (a + b)[1..] == a[1..] + b;
      CategoriesOfAppend(a[1..], b, origName);
    }
  }

  /** A successful discovery splits the categories of the selected
      subdirectories into emotions and addenda, each in listing order. */
  lemma {:induction false} DiscoverPartitions(listing: seq<string>, origName: string)
    requires Discover(listing, origName).Success?
    ensures forall k :: 0 <= k < |listing| ==> !Unsplittable(listing[k], origName)
    ensures Discover(listing, origName).value.0 == Keep(CategoriesOf(listing, origName), false)
    ensures Discover(listing, origName).value.1 == Keep(CategoriesOf(listing, origName), true)
    decreases |listing|
  {
    DiscoverFails(listing, origName);
    if listing != [] {
      var n := |listing| - 1;
      var init, last := listing[..n], listing[n];
      assert listing == init + [last];
      DiscoverPartitions(init, origName);
      CategoriesOfAppend(init, [last], origName);
      var cats := CategoriesOf([last], origName);
      KeepAppend(CategoriesOf(init, origName), cats, false);
      KeepAppend(CategoriesOf(init, origName), cats, true);
    }
  }

  /** Each category of a selected subdirectory lands in exactly one list; the
      two lists hold as many names as there are selected subdirectories. */
  lemma {:induction false} KeepSplits(cats: seq<string>)
    ensures |Keep(cats, false)| + |Keep(cats, true)| == |cats|
    ensures multiset(Keep(cats, false)) + multiset(Keep(cats, true)) == multiset(cats)
    decreases |cats|
  {
    if cats != [] {
      KeepSplits(cats[1..]);
      assert cats == [cats[0]] + cats[1..];
    }
  }
}
