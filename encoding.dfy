/**
 * The two array encodings the enumerator works on. A set of objects is an
 * array of n slots where slot i holds i when object i is present and -1
 * when it is absent; a set of attributes is an array of m slots holding 1
 * for a present attribute and 0 for an absent one.
 */
module Encodings {

  predicate IsExtentArray(e: seq<int>, n: nat) {
    |e| == n && forall i :: 0 <= i < n ==> e[i] == i || e[i] == -1
  }

  predicate IsIntentArray(s: seq<int>, m: nat) {
    |s| == m && forall a :: 0 <= a < m ==> s[a] == 0 || s[a] == 1
  }

  /** The objects an object array holds: the slots other than -1. */
  function ObjectsOf(e: seq<int>): set<int> {
    set i | 0 <= i < |e| && e[i] != -1
  }

  /** The attributes an attribute array holds: the slots other than 0. */
  function AttributesOf(s: seq<int>): set<int> {
    set a | 0 <= a < |s| && s[a] != 0
  }

  /** The object array of n slots that holds exactly the objects of E below n. */
  function ExtentArray(E: set<int>, n: nat): (e: seq<int>)
    ensures IsExtentArray(e, n)
    ensures ObjectsOf(e) == set i | 0 <= i < n && i in E
  {
    seq(n, i => if i in E then i else -1)
  }

  /** The attribute array of m slots that holds exactly the attributes of I below m. */
  function IntentArray(I: set<int>, m: nat): (s: seq<int>)
    ensures IsIntentArray(s, m)
    ensures AttributesOf(s) == set a | 0 <= a < m && a in I
  {
    seq(m, a => if a in I then 1 else 0)
  }

  /**
   * How many elements of s satisfy p: the value of a counter that a loop
   * over s increments at each such element. It reaches |s| exactly when
   * every element satisfies p.
   */
  function CountOf(s: seq<int>, p: int -> bool): (r: nat)
    ensures r <= |s|
    ensures r == |s| <==> forall i :: 0 <= i < |s| ==> p(s[i])
  {
    if s == [] then 0
    else
      var init := s[..|s| - 1];
      assert forall i :: 0 <= i < |init| ==> init[i] == s[i];
      CountOf(init, p) + if p(s[|s| - 1]) then 1 else 0
  }
}
