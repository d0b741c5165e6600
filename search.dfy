/**
 * The Close-by-One search as a function of its inputs: the sequence of
 * (extent, intent) entries that one call of the recursion appends to the
 * concept lattice, in discovery order, with the extent, intent and
 * canonicity steps exactly as the code computes them. The lemmas prove
 * that every entry reached from the top concept is a formal concept.
 */
module Search {
  import opened FormalContexts
  import opened Encodings
  import opened Canonicity

  /** One lattice slot: copies of an object array and an attribute array. */
  datatype Concept = Concept(objects: seq<int>, attributes: seq<int>)

  /**
   * The intent makeIntent derives from the objects E: every attribute when
   * E holds every object, and otherwise the attributes every object of E has
   * (so every attribute again when E is empty).
   */
  function IntentAsWritten(ctx: Context, E: set<int>): set<int> {
    if E == ctx.AllObjects() then ctx.AllAttributes() else ctx.Up(E)
  }

  /** The object array makeExtent writes for parent objects obj and attribute j. */
  function ExtentStep(ctx: Context, obj: seq<int>, j: nat): (e: seq<int>)
    ensures IsExtentArray(e, ctx.n)
    ensures ObjectsOf(e) == ObjectsOf(obj) * ctx.Column(j)
  {
    ExtentArray(ObjectsOf(obj) * ctx.Column(j), ctx.n)
  }

  /** The attribute array makeIntent writes for the object array extent. */
  function IntentStep(ctx: Context, extent: seq<int>): (s: seq<int>)
    ensures IsIntentArray(s, ctx.m)
    ensures AttributesOf(s) == IntentAsWritten(ctx, ObjectsOf(extent))
  {
    IntentArray(IntentAsWritten(ctx, ObjectsOf(extent)), ctx.m)
  }

  /** The top concept: every object, and the attributes they all share. */
  function Top(ctx: Context): Concept {
    Concept(ExtentArray(ctx.AllObjects(), ctx.n), IntentArray(ctx.Up(ctx.AllObjects()), ctx.m))
  }

  /**
   * The entries appended by the call on (obj, attr, idx): the pair itself,
   * then what the loop over j = idx .. m-1 appends.
   */
  function Emit(ctx: Context, obj: seq<int>, attr: seq<int>, idx: nat): seq<Concept>
    requires |attr| == ctx.m && idx <= ctx.m
    decreases ctx.m - idx, 2
  {
    [Concept(obj, attr)] + Children(ctx, obj, attr, idx)
  }

  /** What the loop appends from iteration j on. */
  function Children(ctx: Context, obj: seq<int>, attr: seq<int>, j: nat): seq<Concept>
    requires |attr| == ctx.m && j <= ctx.m
    decreases ctx.m - j, 1
  {
    if j == ctx.m then [] else Branch(ctx, obj, attr, j) + Children(ctx, obj, attr, j + 1)
  }

  /**
   * What iteration j appends: nothing when attr already holds j or the
   * child fails the canonicity test, else all the child call appends.
   */
  function Branch(ctx: Context, obj: seq<int>, attr: seq<int>, j: nat): seq<Concept>
    requires |attr| == ctx.m && j < ctx.m
    decreases ctx.m - j, 0
  {
    if attr[j] != 0 then []
    else
      var extent := ExtentStep(ctx, obj, j);
      var intent := IntentStep(ctx, extent);
      if CanonicalAsWritten(attr, intent, j) then Emit(ctx, extent, intent, j + 1) else []
  }

  /** A stored entry is well encoded and its two sets form a formal concept. */
  predicate IsConceptEntry(ctx: Context, c: Concept) {
    && IsExtentArray(c.objects, ctx.n)
    && IsIntentArray(c.attributes, ctx.m)
    && ctx.IsConcept(ObjectsOf(c.objects), AttributesOf(c.attributes))
  }

  /** The top pair is a formal concept. */
  lemma TopIsConcept(ctx: Context)
    ensures IsConceptEntry(ctx, Top(ctx))
  {
    var all := ctx.AllObjects();
    forall i | i in all
      ensures i in ctx.Down(ctx.Up(all))
    {
      assert ctx.HasAll(i, ctx.Up(all));
    }
  }

  /**
   * Extending a concept (E, I) by an attribute j outside I yields an extent
   * that is not the whole object set, so makeIntent's all-ones branch is not
   * taken, and the child pair is again a formal concept.
   */
  lemma ChildIsConcept(ctx: Context, E: set<int>, I: set<int>, j: nat)
    requires ctx.IsConcept(E, I)
    requires j < ctx.m && j !in I
    ensures E * ctx.Column(j) != ctx.AllObjects()
    ensures IntentAsWritten(ctx, E * ctx.Column(j)) == ctx.Up(E * ctx.Column(j))
    ensures ctx.IsConcept(E * ctx.Column(j), ctx.Up(E * ctx.Column(j)))
  {
    var child := E * ctx.Column(j);
    var childIntent := ctx.Up(child);
    // some object of E lacks j, and it is missing from the child
    assert !ctx.SharedBy(E, j);
    var lacking :| lacking in E && !ctx.Has(lacking, j);
    assert lacking !in child && lacking in ctx.AllObjects();
    // the child's intent holds the parent's intent and j
    UpAntitone(ctx, child, E);
    assert j in childIntent;
    forall i | i in ctx.Down(childIntent)
      ensures i in child
    {
      assert ctx.HasAll(i, I);
      assert i in ctx.Down(I);
      assert ctx.Has(i, j);
    }
    forall i | i in child
      ensures i in ctx.Down(childIntent)
    {
      assert ctx.HasAll(i, childIntent);
    }
  }

  /**
   * Every entry a call appends, when the call starts from a formal concept,
   * is a formal concept whose extent lies inside the starting extent.
   */
  lemma {:induction false} EmitYieldsConcepts(ctx: Context, obj: seq<int>, attr: seq<int>, idx: nat)
    requires |attr| == ctx.m && idx <= ctx.m
    requires IsConceptEntry(ctx, Concept(obj, attr))
    ensures forall c :: c in Emit(ctx, obj, attr, idx) ==>
      IsConceptEntry(ctx, c) && ObjectsOf(c.objects) <= ObjectsOf(obj)
    decreases ctx.m - idx, 2
  {
    ChildrenYieldConcepts(ctx, obj, attr, idx);
  }

  lemma {:induction false} ChildrenYieldConcepts(ctx: Context, obj: seq<int>, attr: seq<int>, j: nat)
    requires |attr| == ctx.m && j <= ctx.m
    requires IsConceptEntry(ctx, Concept(obj, attr))
    ensures forall c :: c in Children(ctx, obj, attr, j) ==>
      IsConceptEntry(ctx, c) && ObjectsOf(c.objects) <= ObjectsOf(obj)
    decreases ctx.m - j, 1
  {
    if j < ctx.m {
      BranchYieldsConcepts(ctx, obj, attr, j);
      ChildrenYieldConcepts(ctx, obj, attr, j + 1);
    }
  }

  lemma {:induction false} BranchYieldsConcepts(ctx: Context, obj: seq<int>, attr: seq<int>, j: nat)
    requires |attr| == ctx.m && j < ctx.m
    requires IsConceptEntry(ctx, Concept(obj, attr))
    ensures forall c :: c in Branch(ctx, obj, attr, j) ==>
      IsConceptEntry(ctx, c) && ObjectsOf(c.objects) <= ObjectsOf(obj)
    decreases ctx.m - j, 0
  {
    if attr[j] == 0 {
      var extent := ExtentStep(ctx, obj, j);
      var intent := IntentStep(ctx, extent);
      if CanonicalAsWritten(attr, intent, j) {
        ChildIsConcept(ctx, ObjectsOf(obj), AttributesOf(attr), j);
        assert IsConceptEntry(ctx, Concept(extent, intent));
        EmitYieldsConcepts(ctx, extent, intent, j + 1);
      }
    }
  }

  /**
   * The whole enumeration: every entry appended by the call on the top
   * concept with index 0 is a formal concept, and the first is the top.
   */
  lemma EveryStoredPairIsAConcept(ctx: Context)
    ensures Emit(ctx, Top(ctx).objects, Top(ctx).attributes, 0)[0] == Top(ctx)
    ensures forall c :: c in Emit(ctx, Top(ctx).objects, Top(ctx).attributes, 0) ==> IsConceptEntry(ctx, c)
  {
    TopIsConcept(ctx);
    EmitYieldsConcepts(ctx, Top(ctx).objects, Top(ctx).attributes, 0);
  }
}
