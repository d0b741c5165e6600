/**
 * A formal context: `n` objects, `m` attributes and the cross table whose
 * row i, column a holds 1 when object i has attribute a and 0 otherwise,
 * together with the two derivation operators of the Galois connection.
 */
module FormalContexts {

  /** The globals data_size (n), attribute_size (m) and cross_table (table). */
  datatype FormalContext = FormalContext(n: nat, m: nat, table: seq<seq<int>>)
  {
    /** The table is rectangular, n rows of m cells, and every cell is 0 or 1. */
    ghost predicate Valid() {
      && |table| == n
      && (forall i :: 0 <= i < n ==> |table[i]| == m)
      && (forall i, a :: 0 <= i < n && 0 <= a < m ==> table[i][a] == 0 || table[i][a] == 1)
    }

    /** Object i has attribute a. */
    predicate Has(i: int, a: int) {
      0 <= i < |table| && 0 <= a < |table[i]| && table[i][a] == 1
    }

    // IsObject and IsAttribute give the comprehensions below a trigger; the
    // explicit range beside them is what makes those sets finite.
    predicate IsObject(i: int) {
      0 <= i < n
    }

    predicate IsAttribute(a: int) {
      0 <= a < m
    }

    function AllObjects(): set<int> {
      set i | 0 <= i < n && IsObject(i)
    }

    function AllAttributes(): set<int> {
      set a | 0 <= a < m && IsAttribute(a)
    }

    /** Every object of E has attribute a. */
    predicate SharedBy(E: set<int>, a: int) {
      forall i :: i in E ==> Has(i, a)
    }

    /** Object i has every attribute of I. */
    predicate HasAll(i: int, I: set<int>) {
      forall a :: a in I ==> Has(i, a)
    }

    /** The objects having attribute j: column j of the table. */
    function Column(j: int): set<int> {
      set i | 0 <= i < n && Has(i, j)
    }

    /** The attributes shared by every object of E (E up). */
    function Up(E: set<int>): set<int> {
      set a | 0 <= a < m && SharedBy(E, a)
    }

    /** The objects having every attribute of I (I down). */
    function Down(I: set<int>): set<int> {
      set i | 0 <= i < n && HasAll(i, I)
    }

    /** (E, I) is a formal concept: each set is the derivation of the other. */
    predicate IsConcept(E: set<int>, I: set<int>) {
      Up(E) == I && Down(I) == E
    }
  }

  /** The contexts the loader produces: a rectangular 0/1 matrix. */
  type Context = c: FormalContext | c.Valid() witness FormalContext(0, 0, [])

  /** Deriving the intent reverses inclusion. */
  lemma UpAntitone(ctx: Context, E1: set<int>, E2: set<int>)
    requires E1 <= E2
    ensures ctx.Up(E2) <= ctx.Up(E1)
  {
  }
}
