/**
 * Two small contexts on which the search as written neither avoids
 * duplicates nor finds every concept: the whole output of the search from
 * the top concept is computed and compared with the concepts of the context.
 */
module Witnesses {
  import opened FormalContexts
  import opened Encodings
  import opened Canonicity
  import opened Search

  /** Object 0 has attributes 0 and 1, object 1 has none. */
  function TwoRows(): Context {
    FormalContext(2, 2, [[1, 1], [0, 0]])
  }

  /**
   * The top intent of TwoRows is empty, and an all-zero parent intent passes
   * every canonicity test: the concept ({0}, {0, 1}) is stored twice, once
   * through attribute 0 and once through attribute 1.
   */
  lemma SearchStoresDuplicate()
    ensures Emit(TwoRows(), Top(TwoRows()).objects, Top(TwoRows()).attributes, 0)
         == [Concept([0, 1], [0, 0]), Concept([0, -1], [1, 1]), Concept([0, -1], [1, 1])]
  {
    var ctx := TwoRows();
    assert ctx.AllObjects() == {0, 1};
    assert !ctx.Has(1, 0) && !ctx.Has(1, 1) && ctx.Has(0, 0) && ctx.Has(0, 1);
    assert ctx.Up({0, 1}) == {} by {
      forall a | 0 <= a < 2 ensures !ctx.SharedBy({0, 1}, a) {
        assert !ctx.Has(1, a);
      }
    }
    var top: seq<int>, none: seq<int> := [0, 1], [0, 0];
    assert Top(ctx) == Concept(top, none);
    assert ObjectsOf(top) == {0, 1};
    assert ctx.Column(0) == {0} && ctx.Column(1) == {0};
    var only0: seq<int>, both: seq<int> := [0, -1], [1, 1];
    assert ExtentStep(ctx, top, 0) == only0 && ExtentStep(ctx, top, 1) == only0;
    assert ObjectsOf(only0) == {0};
    assert ctx.Up({0}) == {0, 1};
    assert IntentStep(ctx, only0) == both;
    assert AllZero(none);
    var child := Concept(only0, both);
    assert Children(ctx, only0, both, 2) == [];
    assert Branch(ctx, only0, both, 1) == [];
    assert Emit(ctx, only0, both, 2) == [child];
    assert Emit(ctx, only0, both, 1) == [child];
    assert Branch(ctx, top, none, 0) == [child];
    assert Branch(ctx, top, none, 1) == [child];
    assert Children(ctx, top, none, 1) == [child];
  }

  /** Object 0 has attributes 1 and 2, object 1 has 2, object 2 has 0 and 2. */
  function ThreeRows(): Context {
    FormalContext(3, 3, [[0, 1, 1], [0, 0, 1], [1, 0, 1]])
  }

  /** ({0}, {1, 2}) is a concept of ThreeRows. */
  lemma ThreeRowsConcept()
    ensures ThreeRows().IsConcept({0}, {1, 2})
  {
    var ctx := ThreeRows();
    assert ctx.Has(0, 1) && ctx.Has(0, 2) && !ctx.Has(0, 0) && !ctx.Has(1, 1) && !ctx.Has(2, 1);
    assert ctx.Up({0}) == {1, 2} by {
      forall a | a in ctx.Up({0}) ensures a in {1, 2} {
        assert ctx.Has(0, a);
      }
    }
    assert ctx.Down({1, 2}) == {0} by {
      forall i | i in ctx.Down({1, 2}) ensures i == 0 {
        assert ctx.Has(i, 1);
      }
    }
  }

  lemma ThreeRowsTop()
    ensures Top(ThreeRows()) == Concept([0, 1, 2], [0, 0, 1])
  {
    var ctx := ThreeRows();
    assert ctx.Has(0, 2) && ctx.Has(1, 2) && ctx.Has(2, 2) && !ctx.Has(1, 0) && !ctx.Has(1, 1);
    assert ctx.AllObjects() == {0, 1, 2};
    assert ctx.Up({0, 1, 2}) == {2} by {
      forall a | a in ctx.Up({0, 1, 2}) ensures a == 2 {
        assert ctx.Has(1, a);
      }
    }
  }

  /** Below ({2}, {0, 2}), attribute 1 leads to the bottom, ({}, all attributes). */
  lemma ThreeRowsBelowTwo()
    ensures Emit(ThreeRows(), [-1, -1, 2], [1, 0, 1], 1)
         == [Concept([-1, -1, 2], [1, 0, 1]), Concept([-1, -1, -1], [1, 1, 1])]
  {
    var ctx := ThreeRows();
    var only2: seq<int>, int02: seq<int> := [-1, -1, 2], [1, 0, 1];
    var none: seq<int>, all: seq<int> := [-1, -1, -1], [1, 1, 1];
    assert !ctx.Has(2, 1);
    assert ObjectsOf(only2) == {2};
    assert ctx.Column(1) * {2} == {};
    assert ExtentStep(ctx, only2, 1) == none;
    assert ObjectsOf(none) == {};
    assert ctx.AllObjects() != {} by {
      assert 0 in ctx.AllObjects();
    }
    assert ctx.Up({}) == {0, 1, 2};
    assert IntentStep(ctx, none) == all;
    assert CanonicalAsWritten(int02, all, 1) by {
      assert AgreeBelow(int02, all, 1);
    }
    assert Emit(ctx, none, all, 2) == [Concept(none, all)];
    assert Branch(ctx, only2, int02, 2) == [];
  }

  /** From the top, attribute 0 gives ({2}, {0, 2}), accepted because attr_index is 0. */
  lemma ThreeRowsFirstChild()
    ensures Branch(ThreeRows(), [0, 1, 2], [0, 0, 1], 0) == Emit(ThreeRows(), [-1, -1, 2], [1, 0, 1], 1)
  {
    var ctx := ThreeRows();
    var top: seq<int> := [0, 1, 2];
    assert ctx.Has(2, 0) && ctx.Has(2, 2) && !ctx.Has(0, 0) && !ctx.Has(1, 0) && !ctx.Has(2, 1);
    assert ObjectsOf(top) == {0, 1, 2};
    assert ctx.Column(0) == {2};
    var only2: seq<int> := [-1, -1, 2];
    assert ExtentStep(ctx, top, 0) == only2;
    assert ObjectsOf(only2) == {2};
    assert ctx.AllObjects() != {2} by {
      assert 0 in ctx.AllObjects();
    }
    assert ctx.Up({2}) == {0, 2} by {
      forall a | a in ctx.Up({2}) ensures a in {0, 2} {
        assert ctx.Has(2, a);
      }
    }
    assert IntentStep(ctx, only2) == [1, 0, 1];
  }

  /** From the top, attribute 1 gives ({0}, {1, 2}), which the canonicity test rejects. */
  lemma ThreeRowsSecondChildRejected()
    ensures Branch(ThreeRows(), [0, 1, 2], [0, 0, 1], 1) == []
  {
    var ctx := ThreeRows();
    var top: seq<int>, topIntent: seq<int> := [0, 1, 2], [0, 0, 1];
    assert ctx.Has(0, 1) && ctx.Has(0, 2) && !ctx.Has(0, 0) && !ctx.Has(1, 1) && !ctx.Has(2, 1);
    assert ObjectsOf(top) == {0, 1, 2};
    assert ctx.Column(1) == {0};
    var only0: seq<int>, int12: seq<int> := [0, -1, -1], [0, 1, 1];
    assert ExtentStep(ctx, top, 1) == only0;
    assert ObjectsOf(only0) == {0};
    assert ctx.AllObjects() != {0} by {
      assert 1 in ctx.AllObjects();
    }
    assert ctx.Up({0}) == {1, 2} by {
      forall a | a in ctx.Up({0}) ensures a in {1, 2} {
        assert ctx.Has(0, a);
      }
    }
    assert IntentStep(ctx, only0) == int12;
    assert !CanonicalAsWritten(topIntent, int12, 1) by {
      assert topIntent[2] != 0;
      assert !SharedBelow(topIntent, int12, 1);
    }
  }

  /**
   * ({0}, {1, 2}) is a concept of ThreeRows, but the search from the top
   * stores only the top, ({2}, {0, 2}) and the bottom: the child for
   * attribute 1 is rejected because the parent intent {2} holds nothing
   * below 1.
   */
  lemma SearchOmitsConcept()
    ensures ThreeRows().IsConcept({0}, {1, 2})
    ensures Emit(ThreeRows(), Top(ThreeRows()).objects, Top(ThreeRows()).attributes, 0)
         == [Concept([0, 1, 2], [0, 0, 1]), Concept([-1, -1, 2], [1, 0, 1]), Concept([-1, -1, -1], [1, 1, 1])]
    ensures Concept([0, -1, -1], [0, 1, 1]) !in
      Emit(ThreeRows(), Top(ThreeRows()).objects, Top(ThreeRows()).attributes, 0)
  {
    var ctx := ThreeRows();
    ThreeRowsConcept();
    ThreeRowsTop();
    ThreeRowsBelowTwo();
    ThreeRowsFirstChild();
    ThreeRowsSecondChildRejected();
    var top: seq<int>, topIntent: seq<int> := [0, 1, 2], [0, 0, 1];
    assert Branch(ctx, top, topIntent, 2) == [];
    assert Children(ctx, top, topIntent, 1) == [];
  }
}
