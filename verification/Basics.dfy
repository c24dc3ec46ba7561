/** Small vocabulary shared by the other modules. */
module Basics {

  datatype Option<+T> = None | Some(value: T)

  ghost predicate Distinct<T>(s: seq<T>) {
    forall i, j :: 0 <= i < j < |s| ==> s[i] != s[j]
  }

  function Max(a: int, b: int): int {
    if a < b then b else a
  }

  function Min(a: int, b: int): int {
    if a < b then a else b
  }

  function MaxReal(a: real, b: real): real {
    if a < b then b else a
  }

  function MinReal(a: real, b: real): real {
    if a < b then a else b
  }

  lemma ConcatAssociates<T>(a: seq<T>, b: seq<T>, c: seq<T>)
    ensures (a + b) + c == a + (b + c)
  {}

  /** A sequence is its first element in front of the others, also when something follows. */
  lemma HeadInFront<T>(a: seq<T>, b: seq<T>)
    requires a != []
    ensures a == [a[0]] + a[1..] && a + b == [a[0]] + (a[1..] + b)
  {}

  lemma TailInFront<T>(s: seq<T>, k: nat)
    requires k < |s|
    ensures s[k..] == [s[k]] + s[k + 1..]
  {}

  lemma SplitAround<T>(s: seq<T>, i: nat)
    requires i < |s|
    ensures s == (s[..i] + [s[i]]) + s[i + 1..]
  {}

  /** A ratio reaches a threshold when the part reaches that share of the whole. */
  lemma RatioAtLeast(part: real, whole: real, threshold: real)
    requires whole > 0.0
    ensures part / whole >= threshold <==> part >= threshold * whole
  {
    var ratio := part / whole;
    assert ratio * whole == part;
    if ratio >= threshold {
      assert (ratio - threshold) * whole >= 0.0;
    } else {
      assert (threshold - ratio) * whole > 0.0;
    }
  }

  lemma RatioAtMost(part: real, whole: real, threshold: real)
    requires whole > 0.0
    ensures part / whole <= threshold <==> part <= threshold * whole
  {
    var ratio := part / whole;
    assert ratio * whole == part;
    if ratio <= threshold {
      assert (threshold - ratio) * whole >= 0.0;
    } else {
      assert (ratio - threshold) * whole > 0.0;
    }
  }

  /** The set of values of a sequence has as many members as the sequence has positions
      exactly when no value repeats. */
  lemma {:induction false} DistinctIffSetIsAsLarge<T>(s: seq<T>)
    ensures |set x | x in s| <= |s|
    ensures Distinct(s) <==> |set x | x in s| == |s|
  {
    var members := set x | x in s;
    if s == [] {
      assert members == {};
    } else {
      var init, last := s[..|s| - 1], s[|s| - 1];
      var initMembers := set x | x in init;
      DistinctIffSetIsAsLarge(init);
      assert s == init + [last];
      assert members == initMembers + {last};
      if last in init {
        assert members == initMembers;
        var i :| 0 <= i < |init| && init[i] == last;
        assert s[i] == s[|s| - 1];
      } else {
        assert |members| == |initMembers| + 1;
        if Distinct(init) {
          forall i, j | 0 <= i < j < |s| ensures s[i] != s[j] {
            assert s[i] == init[i];
            if j < |init| { assert s[j] == init[j]; }
          }
        } else {
          var i, j :| 0 <= i < j < |init| && init[i] == init[j];
          assert s[i] == s[j];
        }
      }
    }
  }
}
