/**
 * The canonicity test that decides whether the enumerator descends into a
 * child (extent, intent) reached by adding attribute k to a parent whose
 * intent is attr. Both intents are 0/1 attribute arrays.
 *
 * CanonicalAsWritten is the closed form of the test as the code computes
 * it; TextbookCanonical is the Close-by-One test of the literature. The
 * lemmas at the end say where the two agree and where they part.
 */
module Canonicity {
  import opened Encodings

  /** Every slot of s is 0: the "empty set" test of the code. */
  predicate AllZero(s: seq<int>) {
    forall i :: 0 <= i < |s| ==> s[i] == 0
  }

  /** Exactly one of attr and intent holds 1 at slot i. */
  predicate Disagree(attr: seq<int>, intent: seq<int>, i: nat)
    requires i < |attr| && i < |intent|
  {
    (attr[i] == 1) != (intent[i] == 1)
  }

  /** No disagreement below k. */
  predicate AgreeBelow(attr: seq<int>, intent: seq<int>, k: nat)
    requires k <= |attr| && k <= |intent|
  {
    forall i :: 0 <= i < k ==> !Disagree(attr, intent, i)
  }

  /** Some attribute below k is held by both. */
  predicate SharedBelow(attr: seq<int>, intent: seq<int>, k: nat)
    requires k <= |attr| && k <= |intent|
  {
    exists i :: 0 <= i < k && attr[i] == 1 && intent[i] == 1
  }

  /**
   * The test as the code computes it. The emptiness check meant for intent
   * scans attr, so "both empty" is "attr is all zeros" and accepts whatever
   * intent holds. Otherwise a scan of the slots below k stops at the first
   * disagreement and rejects, except that a stop at slot 0 (or no slot to
   * scan, k == 0) accepts; a scan without disagreement accepts exactly when
   * it met a slot where both hold 1.
   */
  predicate CanonicalAsWritten(attr: seq<int>, intent: seq<int>, k: nat)
    requires |attr| == |intent| && k <= |attr|
  {
    || AllZero(attr)
    || k == 0
    || Disagree(attr, intent, 0)
    || (AgreeBelow(attr, intent, k) && SharedBelow(attr, intent, k))
  }

  /** The Close-by-One test: the two intents agree on every attribute below k. */
  predicate TextbookCanonical(attr: seq<int>, intent: seq<int>, k: nat)
    requires k <= |attr| && k <= |intent|
  {
    forall i :: 0 <= i < k ==> attr[i] == intent[i]
  }

  /**
   * On 0/1 arrays, once the parent intent is not empty, k > 0 and slot 0
   * agrees, the code's test is the textbook test strengthened by "the two
   * intents share an attribute below k".
   */
  lemma AsWrittenIsTextbookAndShared(attr: seq<int>, intent: seq<int>, k: nat)
    requires IsIntentArray(attr, |attr|) && IsIntentArray(intent, |attr|)
    requires 0 < k <= |attr|
    requires !AllZero(attr) && attr[0] == intent[0]
    ensures CanonicalAsWritten(attr, intent, k)
        <==> TextbookCanonical(attr, intent, k) && SharedBelow(attr, intent, k)
  {
    if TextbookCanonical(attr, intent, k) {
      assert AgreeBelow(attr, intent, k);
    }
    if AgreeBelow(attr, intent, k) {
      forall i | 0 <= i < k
        ensures attr[i] == intent[i]
      {
        assert !Disagree(attr, intent, i);
      }
    }
  }

  /**
   * An all-zero parent intent accepts every child, in particular one whose
   * intent gained an attribute g below k, which the textbook test rejects.
   */
  lemma AsWrittenAcceptsWhenParentEmpty(attr: seq<int>, intent: seq<int>, k: nat, g: nat)
    requires |attr| == |intent| && k <= |attr|
    requires AllZero(attr) && g < k && intent[g] == 1
    ensures CanonicalAsWritten(attr, intent, k)
    ensures !TextbookCanonical(attr, intent, k)
  {
    assert attr[g] != intent[g];
  }

  /**
   * A child whose intent gained attribute 0 is accepted whatever k > 0 is,
   * because the scan stops at slot 0; the textbook test rejects it.
   */
  lemma AsWrittenAcceptsGainAtZero(attr: seq<int>, intent: seq<int>, k: nat)
    requires |attr| == |intent| && 0 < k <= |attr|
    requires attr[0] != 1 && intent[0] == 1
    ensures CanonicalAsWritten(attr, intent, k)
    ensures !TextbookCanonical(attr, intent, k)
  {
    assert Disagree(attr, intent, 0);
  }

  /**
   * For k >= 1, a non-empty parent intent with no attribute below k rejects
   * a child that has none there either, which the textbook test accepts.
   */
  lemma AsWrittenRejectsWhenNothingShared(attr: seq<int>, intent: seq<int>, k: nat)
    requires |attr| == |intent| && 0 < k <= |attr|
    requires !AllZero(attr)
    requires forall i :: 0 <= i < k ==> attr[i] == 0 && intent[i] == 0
    ensures !CanonicalAsWritten(attr, intent, k)
    ensures TextbookCanonical(attr, intent, k)
  {
    assert !Disagree(attr, intent, 0);
    assert !SharedBelow(attr, intent, k);
  }

  /** With k == 0 there is nothing to scan, and the code accepts with nothing shared. */
  lemma AsWrittenAcceptsAtIndexZero(attr: seq<int>, intent: seq<int>)
    requires |attr| == |intent|
    ensures CanonicalAsWritten(attr, intent, 0)
    ensures !SharedBelow(attr, intent, 0)
  {
  }
}
