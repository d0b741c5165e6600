/**
 * The Close-by-One enumerator over a fixed formal context. The object holds
 * the context (the matrix and its two sizes) and the concept lattice that
 * the search fills; its methods fill caller-supplied arrays, test
 * canonicity and recurse, as the C functions do.
 */
module Cbo {
  import opened FormalContexts
  import opened Encodings
  import opened Canonicity
  import opened Search

  /** checkAttribute: attribute j is present in the attribute array attr. */
  function CheckAttribute(j: nat, attr: array<int>): (present: bool)
    reads attr
    requires j < attr.Length
    ensures present <==> j in AttributesOf(attr[..])
  {
    attr[j] != 0
  }

  /** The slot test of the "empty set" counters in canonicity. */
  function IsZero(x: int): bool {
    x == 0
  }

  /** The slot test of the present-object counter in makeIntent. */
  function IsPresent(x: int): bool {
    x != -1
  }

  class CloseByOne {
    /** data_size (ctx.n), attribute_size (ctx.m) and cross_table (ctx.table). */
    const ctx: Context
    /** concept_latice: the stored concepts in the order they were found. */
    var lattice: seq<Concept>
    /** concept_count: the number of stored concepts. */
    var conceptCount: nat

    ghost predicate Valid()
      reads this
    {
      conceptCount == |lattice|
    }

    /** A context just loaded, with an empty lattice and concept_count 0. */
    constructor (ctx: Context)
      ensures Valid()
      ensures this.ctx == ctx && lattice == []
    {
      this.ctx := ctx;
      lattice := [];
      conceptCount := 0;
    }

    /**
     * buildInitialConcept: obj gets every object and attr the attributes
     * that no row of the table lacks.
     */
    method BuildInitialConcept(obj: array<int>, attr: array<int>)
      requires obj.Length == ctx.n && attr.Length == ctx.m
      requires obj != attr
      modifies obj, attr
      ensures obj[..] == Top(ctx).objects && attr[..] == Top(ctx).attributes
      ensures ObjectsOf(obj[..]) == ctx.AllObjects()
      ensures AttributesOf(attr[..]) == ctx.Up(ctx.AllObjects())
    {
      var i := 0;
      while i < ctx.n
        invariant 0 <= i <= ctx.n
        invariant forall k :: 0 <= k < i ==> obj[k] == k
      {
        obj[i] := i;
        i := i + 1;
      }
      ghost var all := ctx.AllObjects();
      var a := 0;
      while a < ctx.m
        invariant 0 <= a <= ctx.m
        invariant forall k :: 0 <= k < ctx.n ==> obj[k] == k
        invariant forall b :: 0 <= b < a ==> attr[b] == if b in ctx.Up(all) then 1 else 0
      {
        var status := true;
        i := 0;
        while i < ctx.n
          invariant 0 <= i <= ctx.n
          invariant status
          invariant forall k :: 0 <= k < i ==> ctx.table[k][a] != 0
        {
          if ctx.table[i][a] == 0 {
            status := false;
            break;
          }
          i := i + 1;
        }
        if status {
          assert forall k :: k in all ==> ctx.Has(k, a);
          attr[a] := 1;
        } else {
          assert !ctx.Has(i, a) && i in all;
          attr[a] := 0;
        }
        a := a + 1;
      }
    }

    /**
     * makeExtent: extent holds the objects of obj that have attribute
     * attrIndex, and -1 in every other slot.
     */
    method MakeExtent(extent: array<int>, obj: array<int>, attrIndex: nat)
      requires extent.Length == ctx.n && obj.Length == ctx.n && attrIndex < ctx.m
      requires extent != obj
      modifies extent
      ensures extent[..] == ExtentStep(ctx, obj[..], attrIndex)
      ensures ObjectsOf(extent[..]) == ObjectsOf(obj[..]) * ctx.Column(attrIndex)
    {
      ghost var want := ExtentStep(ctx, obj[..], attrIndex);
      var i := 0;
      while i < ctx.n
        invariant 0 <= i <= ctx.n
        invariant forall k :: 0 <= k < i ==> extent[k] == want[k]
      {
        extent[i] := -1;
        if ctx.table[i][attrIndex] == 1 && obj[i] != -1 {
          extent[i] := i;
        }
        assert i in ObjectsOf(obj[..]) <==> obj[i] != -1;
        i := i + 1;
      }
    }

    /**
     * makeIntent: intent holds the attributes every object of extent has,
     * except that it holds every attribute when extent holds every object.
     */
    method MakeIntent(intent: array<int>, extent: array<int>, attrIndex: nat)
      requires intent.Length == ctx.m && extent.Length == ctx.n
      requires intent != extent
      modifies intent
      ensures intent[..] == IntentStep(ctx, extent[..])
      ensures AttributesOf(intent[..]) == IntentAsWritten(ctx, ObjectsOf(extent[..]))
    {
      var emptyCount := 0;
      var i := 0;
      while i < ctx.n
        invariant 0 <= i <= ctx.n
        invariant emptyCount == CountOf(extent[..i], IsPresent)
      {
        if extent[i] != -1 {
          emptyCount := emptyCount + 1;
        }
        assert extent[..i + 1][..i] == extent[..i];
        i := i + 1;
      }
      assert extent[..ctx.n] == extent[..];
      ghost var objects := ObjectsOf(extent[..]);
      ghost var want := IntentStep(ctx, extent[..]);
      assert emptyCount == ctx.n <==> objects == ctx.AllObjects() by {
        if emptyCount == ctx.n {
          assert forall k :: k in ctx.AllObjects() ==> IsPresent(extent[k]);
        }
        if objects == ctx.AllObjects() {
          forall k | 0 <= k < ctx.n
            ensures IsPresent(extent[..][k])
          {
            assert k in objects;
          }
        }
      }
      var a := 0;
      while a < ctx.m
        invariant 0 <= a <= ctx.m
        invariant forall b :: 0 <= b < a ==> intent[b] == want[b]
      {
        if emptyCount != ctx.n {
          var status := true;
          i := 0;
          while i < ctx.n
            invariant 0 <= i <= ctx.n
            invariant status
            invariant forall k :: 0 <= k < i && extent[k] != -1 ==> ctx.table[k][a] == 1
          {
            if extent[i] != -1 {
              if ctx.table[i][a] != 1 {
                status := false;
                break;
              }
            }
            i := i + 1;
          }
          if status {
            assert forall k :: k in objects ==> ctx.Has(k, a);
            intent[a] := 1;
          } else {
            assert i in objects && !ctx.Has(i, a);
            intent[a] := 0;
          }
        } else {
          intent[a] := 1;
        }
        a := a + 1;
      }
    }

    /**
     * canonicity: the test of the code, in closed form; attr is the parent
     * intent, intent the child's, attrIndex the attribute just added.
     */
    method Canonicity(attr: array<int>, intent: array<int>, attrIndex: nat) returns (status: bool)
      requires attr.Length == ctx.m && intent.Length == ctx.m && attrIndex <= ctx.m
      ensures status == CanonicalAsWritten(attr[..], intent[..], attrIndex)
    {
      status := false;
      var attrEmpty := false;
      var intentEmpty := false;
      var emp := 0;
      var i := 0;
      // 1. is attr empty
      while i < ctx.m
        invariant 0 <= i <= ctx.m
        invariant emp == CountOf(attr[..i], IsZero)
      {
        if attr[i] == 0 {
          emp := emp + 1;
        }
        assert attr[..i + 1][..i] == attr[..i];
        i := i + 1;
      }
      if emp == ctx.m {
        attrEmpty := true;
      }
      // 2. "is intent empty", which scans attr as well
      emp := 0;
      i := 0;
      while i < ctx.m
        invariant 0 <= i <= ctx.m
        invariant emp == CountOf(attr[..i], IsZero)
      {
        if attr[i] == 0 {
          emp := emp + 1;
        }
        assert attr[..i + 1][..i] == attr[..i];
        i := i + 1;
      }
      if emp == ctx.m {
        intentEmpty := true;
      }
      assert attr[..ctx.m] == attr[..];
      assert attrEmpty == intentEmpty == AllZero(attr[..]);

      if attrEmpty && intentEmpty {
        status := true;
      } else {
        i := 0;
        while i < attrIndex
          invariant 0 <= i <= attrIndex
          invariant AgreeBelow(attr[..], intent[..], i)
          invariant status == SharedBelow(attr[..], intent[..], i)
        {
          var attrSlot, intentSlot := attr[i], intent[i];
          if attrSlot == 1 && intentSlot == 1 {
            status := true;
          } else if (attrEmpty && intentSlot == 1) || (intentEmpty && attrSlot == 1) {
            status := false;
            break;
          } else if (attrSlot != 1 && intentSlot == 1) || (attrSlot == 1 && intentSlot != 1) {
            status := false;
            break;
          }
          i := i + 1;
        }
        // the scan either covered every slot below attrIndex or stopped at the first disagreement
        assert i < attrIndex ==> Disagree(attr[..], intent[..], i) && !status;
        if i == 0 {
          status := true;
        }
      }
    }

    /**
     * processConcept: stores copies of obj and attr in slot concept_count
     * and moves concept_count on by one.
     */
    method ProcessConcept(obj: array<int>, attr: array<int>)
      requires Valid()
      modifies this`lattice, this`conceptCount
      ensures Valid()
      ensures conceptCount == old(conceptCount) + 1
      ensures lattice == old(lattice) + [Concept(obj[..], attr[..])]
    {
      lattice := lattice + [Concept(obj[..], attr[..])];
      conceptCount := conceptCount + 1;
    }

    /**
     * computeConceptFrom: stores (obj, attr), then for each attribute j from
     * attrIndex on that attr lacks, builds the child and descends into it
     * with index j + 1 when it passes the canonicity test.
     */
    method ComputeConceptFrom(obj: array<int>, attr: array<int>, attrIndex: nat)
      requires Valid()
      requires obj.Length == ctx.n && attr.Length == ctx.m && attrIndex <= ctx.m
      modifies this`lattice, this`conceptCount
      ensures Valid()
      ensures lattice == old(lattice) + Emit(ctx, obj[..], attr[..], attrIndex)
      decreases ctx.m - attrIndex
    {
      ProcessConcept(obj, attr);
      ghost var parent := Concept(obj[..], attr[..]);
      var j := attrIndex;
      while j < ctx.m
        invariant attrIndex <= j <= ctx.m
        invariant Valid()
        invariant lattice + Children(ctx, obj[..], attr[..], j)
               == old(lattice) + Emit(ctx, obj[..], attr[..], attrIndex)
      {
        ghost var before := lattice;
        if !CheckAttribute(j, attr) {
          var extent := new int[ctx.n];
          MakeExtent(extent, obj, j);
          var intent := new int[ctx.m];
          MakeIntent(intent, extent, j);
          var canonical := Canonicity(attr, intent, j);
          if canonical {
            ComputeConceptFrom(extent, intent, j + 1);
          }
        }
        assert lattice == before + Branch(ctx, obj[..], attr[..], j);
        j := j + 1;
      }
    }

    /**
     * The search main starts: the top concept into fresh arrays, then the
     * recursion from attribute 0. Every pair it stores is a formal concept.
     */
    method Enumerate()
      requires Valid()
      modifies this`lattice, this`conceptCount
      ensures Valid()
      ensures lattice == old(lattice) + Emit(ctx, Top(ctx).objects, Top(ctx).attributes, 0)
      ensures lattice[|old(lattice)|] == Top(ctx)
      ensures forall k :: |old(lattice)| <= k < |lattice| ==> IsConceptEntry(ctx, lattice[k])
    {
      var iniObj := new int[ctx.n];
      var iniAttr := new int[ctx.m];
      BuildInitialConcept(iniObj, iniAttr);
      ComputeConceptFrom(iniObj, iniAttr, 0);
      EveryStoredPairIsAConcept(ctx);
      ghost var found := Emit(ctx, Top(ctx).objects, Top(ctx).attributes, 0);
      forall k | |old(lattice)| <= k < |lattice|
        ensures IsConceptEntry(ctx, lattice[k])
      {
        assert lattice[k] == found[k - |old(lattice)|];
      }
    }
  }
}
