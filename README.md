# Close-by-One formal-concept enumeration, modelled in Dafny

This project models the core of a Close-by-One (CbO) enumerator, the C program `cbo.c`. Its input is a formal context: `data_size` objects, `attribute_size` attributes, and a 0/1 `cross_table` with one row per object. The search starts from the top concept. That concept holds every object and the attributes they all share. From each pair it visits, the search adds one attribute at a time from the current index on. It restricts the extent to the objects that have that attribute and recomputes the intent of the new extent. A canonicity test then decides whether to descend into the child. Every visited pair is copied into the global concept lattice, and `concept_count` is incremented.

The model keeps the code's encodings:

- An object set is an array of `data_size` slots. Slot i holds `i` when object i is present and `-1` when it is absent.
- An attribute set is an array of `attribute_size` slots holding 1 or 0.

The modules:

- `context.dfy`, module `FormalContexts`: the context as a value. It gives the derivation operators `Up` (the attributes every object of a set has) and `Down` (the objects having every attribute of a set), and the formal-concept predicate.
- `encoding.dfy`, module `Encodings`: the two array encodings. It defines their decoders (`ObjectsOf` tests a slot against -1, `AttributesOf` against 0) and their encoders, each proved to decode back to the set it encodes. It also defines `CountOf`, the value of the counting loops.
- `canonicity.dfy`, module `Canonicity`: the canonicity test exactly as the code computes it (`CanonicalAsWritten`), in closed form. It also holds the textbook CbO test (`TextbookCanonical`) and lemmas saying where the two agree and where they differ.
- `search.dfy`, module `Search`: the search as a function (`Emit`, `Children`, `Branch`). It gives the exact sequence of lattice entries one call appends, in discovery order. It also holds the proof that every entry reached from the top concept is a formal concept.
- `witnesses.dfy`, module `Witnesses`: two small contexts on which the whole output of the search is computed. One shows a concept stored twice, the other a concept never stored.
- `cbo.dfy`, module `Cbo`: class `CloseByOne`. It holds the context (the globals `data_size`, `attribute_size` and `cross_table`) and the mutable `lattice` and `conceptCount` (`concept_latice` and `concept_count`). Its methods mirror the C functions loop for loop, on caller-supplied arrays. The recursion is a method with `decreases attribute_size - attr_index`.

The canonicity test differs from the textbook CbO test (`TextbookCanonical`: the two intents agree below `attr_index`) and from what its own comments announce (cbo.c:295, "check empty set for intent"). The model follows the code:

- The code's second emptiness test reads `attr` instead of `intent`. So an all-zero parent intent accepts every child.
- The code's scan accepts a first disagreement at index 0, because the `break` leaves `i == 0`.
- For `attr_index` ≥ 1, a scan that meets no disagreement accepts exactly when the two intents share an attribute below `attr_index`. `attr_index == 0` always accepts (cbo.c:323-324).
- `makeIntent` returns all ones for an extent that holds every object, not the shared attributes. The model keeps that branch. `Search.ChildIsConcept` proves that no child reaches it.

## Model

| member | source | states |
|---|---|---|
| `Cbo.CloseByOne.constructor` | cbo.c:13-21 | The lattice starts empty and `concept_count` starts at 0 for the given context. |
| `Cbo.CloseByOne.BuildInitialConcept` | cbo.c:128-160 | `obj[i] == i` for every object. `attr[a]` is 1 exactly when no row lacks attribute a, and 0 otherwise. So `attr` encodes the attributes every object shares (the top concept). |
| `Cbo.CheckAttribute` | cbo.c:217-223 | True exactly when attribute j belongs to the set that `attr` encodes. |
| `Cbo.CloseByOne.MakeExtent` | cbo.c:226-238 | The new extent holds exactly the objects of `obj` that have attribute `attr_index`, and -1 in every other slot. So it is a subset of `obj`. |
| `Cbo.CloseByOne.MakeIntent` | cbo.c:241-276 | When some object is absent from the extent, `intent` holds exactly the attributes every present object has. So an empty extent gives all ones. When every object is present, `intent` is all ones whatever the table holds. |
| `Cbo.CloseByOne.Canonicity` | cbo.c:279-328 | The result equals the closed form of the code's test. It accepts when `attr` is all zeros (the intent emptiness test reads `attr`). It accepts when `attr_index` is 0, or when the first disagreement is at index 0. It rejects at a first disagreement at index 1 or later. Otherwise it accepts exactly when some index below `attr_index` is 1 in both intents. |
| `Cbo.CloseByOne.ProcessConcept` | cbo.c:193-214 | Copies of `obj` and `attr` are appended as slot `concept_count`. `concept_count` grows by exactly one. Earlier slots are unchanged. |
| `Cbo.CloseByOne.ComputeConceptFrom` | cbo.c:169-190 | The lattice grows by exactly `Emit(obj, attr, attr_index)`: the pair itself, then, for each j from `attr_index` on, nothing if `attr` holds j or the child fails canonicity, else the entries of the child call with index j+1. The recursion terminates because `attribute_size - attr_index` decreases. |
| `Cbo.CloseByOne.Enumerate` | cbo.c:42-48 | The search from the top concept stores the top concept first. Every pair it stores is a formal concept: the intent is exactly the attributes shared by the stored objects, and the stored objects are exactly those having the whole intent. |
| `Search.ExtentStep` | cbo.c:230-234 | The extent of the child for attribute j is the parent's objects intersected with column j, encoded with -1 for absent slots. |
| `Search.IntentStep` | cbo.c:246-272 | The child's intent encodes the set `makeIntent` derives: every attribute when the extent is full, and the shared attributes otherwise. |
| `Search.TopIsConcept` | cbo.c:135-159 | The top pair (all objects, the attributes all of them share) is a formal concept. |
| `Search.ChildIsConcept` | cbo.c:176-186 | Take a concept and an attribute j it lacks. The child extent is never the full object set, so the all-ones branch of `makeIntent` (cbo.c:270-272) is never taken. The child's intent is the true derivation of its extent, and the child pair is again a formal concept. |
| `Search.EmitYieldsConcepts` | cbo.c:169-190 | Start a call from a formal concept. Every entry it appends is a formal concept, and its extent is a subset of the starting extent. |
| `Search.ChildrenYieldConcepts` | cbo.c:174-189 | The same holds for what the loop appends from iteration j on. |
| `Search.BranchYieldsConcepts` | cbo.c:176-187 | The same holds for what one iteration of the loop appends. |
| `Search.EveryStoredPairIsAConcept` | cbo.c:42-48 | Every entry of the search from the top concept with index 0 is a formal concept, and the first one is the top concept. |
| `Canonicity.AsWrittenIsTextbookAndShared` | cbo.c:310-325 | On 0/1 intents, take `attr` non-empty, `attr_index > 0` and index 0 agreeing. Then the code's test holds exactly when the textbook test holds and the two intents also share an attribute below `attr_index`. |
| `Canonicity.AsWrittenAcceptsWhenParentEmpty` | cbo.c:286-308 | For every all-zero parent intent `attr` and every child intent holding 1 at some index below `attr_index`, the code accepts and the textbook test rejects. |
| `Canonicity.AsWrittenAcceptsGainAtZero` | cbo.c:318-325 | For every `attr_index` ≥ 1, a child whose intent holds attribute 0 when the parent's does not is accepted, because the `break` leaves `i == 0`. The textbook test rejects it. |
| `Canonicity.AsWrittenRejectsWhenNothingShared` | cbo.c:310-322 | For every `attr_index` ≥ 1, a non-empty parent intent with no attribute below `attr_index` rejects a child that has none there either. The textbook test accepts it. |
| `Canonicity.AsWrittenAcceptsAtIndexZero` | cbo.c:310-324 | With `attr_index` 0 the scan does not run, and the code accepts any pair of intents although they share nothing below `attr_index`. |
| `Witnesses.SearchStoresDuplicate` | cbo.c:169-190 | For objects o0 = {a0, a1} and o1 = {}, the top intent is empty, so the all-zero test at cbo.c:286-308 accepts every child. The search from the top stores exactly the top, then ({o0}, {a0, a1}) twice: once through a0 and once through a1. |
| `Witnesses.SearchOmitsConcept` | cbo.c:169-190 | For o0 = {a1, a2}, o1 = {a2} and o2 = {a0, a2}, the pair ({o0}, {a1, a2}) is a formal concept. The search from the top stores exactly the top, ({o2}, {a0, a2}) and the bottom, and never that concept: its branch is rejected at cbo.c:310-322 because the parent intent {a2} holds nothing below a1. |
| `Encodings.CountOf` | cbo.c:246-250 | The counter of a counting loop never exceeds the length of the array. It equals the length exactly when every slot passes the test. So `empty_count == data_size` means "every object present", and `emp == attribute_size` means "`attr` all zero". |
| `Encodings.ExtentArray` | cbo.c:231-233 | The object array built from a set is well formed, and it decodes to that set below `data_size`. |
| `Encodings.IntentArray` | cbo.c:265-271 | The attribute array built from a set is 0/1, and it decodes to that set below `attribute_size`. |

## Left out

- `loadData` (cbo.c:58-124) is not modelled. It covers opening and parsing the `.cxt` file, `errno` reporting, and reads past short row buffers. The model takes the context as a value. Its type `Context` holds exactly the rectangular 0/1 tables of `data_size` rows and `attribute_size` columns.
- `main`'s console interaction (`scanf`, `getchar`, the final count printout) and every `printf` trace inside the core functions are not modelled.
- The object and attribute names (`dataset_obj`, `dataset_atr`) are not modelled, because the algorithm never reads them.
- The lattice is a growing sequence. The C program allocates only `data_size` slots and writes slot `concept_count` without a bound check, which can overflow. Allocation sizes (`sizeof(int*)` elements, stack arrays sized at run time) are not modelled.
- `processConcept` copies with two loops. The model takes the copies as `obj[..]` and `attr[..]`.
- C's 32-bit `int` is not modelled. The loop counters (`i`, `a`, `j`, `emp`, `empty_count`) are bounded by `data_size` or `attribute_size`, so they cannot wrap. `concept_count` (cbo.c:13, 213) is an unbounded `nat` in the model, so its wrap-around past `INT_MAX` is not modelled.
- The output is not proved duplicate-free or complete, because neither holds for the test as written: `Witnesses.SearchStoresDuplicate` and `Witnesses.SearchOmitsConcept` compute the whole output on two small contexts and exhibit a concept stored twice and a concept never stored. Correctness of a textbook CbO enumeration is not modelled either.
