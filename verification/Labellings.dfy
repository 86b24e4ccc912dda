/**
 Equivalences over analysed objects.

 The alias analysis keeps one equivalence over objects, stored as a map from an object to the
 class it is in.  Specifications compare that map with every other equivalence on the same
 objects, so an equivalence is represented the same way everywhere: as a labelling, in which
 two objects are equivalent when they carry the same label.  An object without a label is
 equivalent to itself only.
 */
module Labellings {

  type Obj = string

  type ClassId = nat

  type Labelling = map<Obj, ClassId>

  /** A prefix edge as extracted from the program: dereferencing `source` (empty `mem`), or
      selecting member `mem` of it, gives `target`. */
  datatype Edge = Edge(source: Obj, mem: string, target: Obj)

  type Pairs = set<(Obj, Obj)>

  predicate Same(l: Labelling, a: Obj, b: Obj) {
    a == b || (a in l && b in l && l[a] == l[b])
  }

  /** Everything equivalent in `fine` is equivalent in `coarse`. */
  ghost predicate Coarser(fine: Labelling, coarse: Labelling) {
    forall a, b :: Same(fine, a, b) ==> Same(coarse, a, b)
  }

  ghost predicate Joins(l: Labelling, pairs: Pairs) {
    forall a, b :: (a, b) in pairs ==> Same(l, a, b)
  }

  /** Equivalent objects have equivalent targets under the same member. */
  ghost predicate Congruent(edges: set<Edge>, l: Labelling) {
    forall e, f :: e in edges && f in edges && e.mem == f.mem && Same(l, e.source, f.source)
                   ==> Same(l, e.target, f.target)
  }

  /** Every congruence above `before` that joins `seeds` is also above `after`. */
  ghost predicate Forced(edges: set<Edge>, before: Labelling, seeds: Pairs, after: Labelling) {
    forall r :: Congruent(edges, r) && Coarser(before, r) && Joins(r, seeds) ==> Coarser(after, r)
  }

  /** The quotient of `l` in which the classes `x` and `y` carry the one label `z`. */
  function Relabel(l: Labelling, x: ClassId, y: ClassId, z: ClassId): (r: Labelling)
  {
    map o | o in l :: if l[o] == x || l[o] == y then z else l[o]
  }

  /** Relabelling with an unused label is the least way to join two classes. */
  lemma RelabelIsLeast(l: Labelling, x: ClassId, y: ClassId, z: ClassId, a: Obj, b: Obj)
    requires a in l && b in l && l[a] == x && l[b] == y
    requires forall o :: o in l ==> l[o] != z
    ensures Coarser(l, Relabel(l, x, y, z)) && Same(Relabel(l, x, y, z), a, b)
    ensures forall r :: Coarser(l, r) && Same(r, a, b) ==> Coarser(Relabel(l, x, y, z), r)
  {
    var m := Relabel(l, x, y, z);
    forall r | Coarser(l, r) && Same(r, a, b)
      ensures Coarser(m, r)
    {
      forall c, d | Same(m, c, d)
        ensures Same(r, c, d)
      {
        if c != d {
          assert l[c] == l[d] ==> Same(l, c, d);
          assert l[c] == x ==> Same(l, c, a);
          assert l[d] == x ==> Same(l, d, a);
          assert l[c] == y ==> Same(l, c, b);
          assert l[d] == y ==> Same(l, d, b);
        }
      }
    }
  }
}
