/**
 * `MapViewer.Selection`: the set of selected features (a `HashSet`), changed in place by
 * the selection tools. Repainting the viewer is left out.
 */
module Selections {

  class Selection<F(==)> {
    var elements: set<F>

    constructor ()
      ensures elements == {}
    {
      elements := {};
    }

    /** `set(feature)`: the selection becomes exactly the one feature. */
    method Set(feature: F)
      modifies this
      ensures elements == {feature}
    {
      elements := {};
      var _ := Add(feature);
    }

    /** `setAll(features)`: the selection becomes exactly the given features. */
    method SetAll(features: seq<F>)
      modifies this
      ensures elements == set f | f in features
    {
      elements := {};
      var _ := AddAll(features);
    }

    /** `invert(feature)`: the membership of that one feature is toggled. */
    method Invert(feature: F)
      modifies this
      ensures elements == Toggled(old(elements), feature)
    {
      if feature in elements {
        var _ := Remove(feature);
      } else {
        var _ := Add(feature);
      }
    }

    /** `invertAll(features)`: each feature of a copy of the collection is toggled in turn. */
    method InvertAll(features: seq<F>)
      modifies this
      ensures elements == ToggledAll(old(elements), features)
    {
      var copy := features;
      var i := 0;
      while i < |copy|
        invariant 0 <= i <= |copy|
        invariant elements == ToggledAll(old(elements), copy[..i])
      {
        assert copy[..i + 1] == copy[..i] + [copy[i]];
        ToggledAllSnoc(old(elements), copy[..i], copy[i]);
        Invert(copy[i]);
        i := i + 1;
      }
      assert copy[..i] == features;
    }

    /** `add(feature)`: set insertion, reporting whether the feature was new. */
    method Add(feature: F) returns (added: bool)
      modifies this
      ensures elements == old(elements) + {feature}
      ensures added <==> feature !in old(elements)
    {
      added := feature !in elements;
      elements := elements + {feature};
    }

    /** `remove(feature)`: set removal, reporting whether the feature was there. */
    method Remove(feature: F) returns (removed: bool)
      modifies this
      ensures elements == old(elements) - {feature}
      ensures removed <==> feature in old(elements)
    {
      removed := feature in elements;
      elements := elements - {feature};
    }

    /** `addAll`: union, reporting whether anything was new. */
    method AddAll(features: seq<F>) returns (added: bool)
      modifies this
      ensures elements == old(elements) + set f | f in features
      ensures added <==> elements != old(elements)
    {
      var before := elements;
      elements := elements + set f | f in features;
      added := elements != before;
    }

    /** `removeAll`: difference, reporting whether anything was removed. */
    method RemoveAll(features: seq<F>) returns (removed: bool)
      modifies this
      ensures elements == old(elements) - set f | f in features
      ensures removed <==> elements != old(elements)
    {
      var before := elements;
      elements := elements - set f | f in features;
      removed := elements != before;
    }

    /** `retainAll`: intersection, reporting whether anything was removed. */
    method RetainAll(features: seq<F>) returns (changed: bool)
      modifies this
      ensures elements == old(elements) * set f | f in features
      ensures changed <==> elements != old(elements)
    {
      var before := elements;
      elements := elements * set f | f in features;
      changed := elements != before;
    }

    method Clear()
      modifies this
      ensures elements == {}
    {
      elements := {};
    }
  }

  /** A set with the membership of one element toggled. */
  function Toggled<F>(s: set<F>, x: F): (r: set<F>)
    ensures x in r <==> x !in s
    ensures r - {x} == s - {x}
  {
    if x in s then s - {x} else s + {x}
  }

  /** Toggling the same element twice gives the set back. */
  lemma ToggleTwice<F>(s: set<F>, x: F)
    ensures Toggled(Toggled(s, x), x) == s
  {
  }

  /** The elements of a sequence toggled one after the other. */
  function ToggledAll<F>(s: set<F>, xs: seq<F>): set<F>
    decreases |xs|
  {
    if xs == [] then s else ToggledAll(Toggled(s, xs[0]), xs[1..])
  }

  lemma {:induction false} ToggledAllSnoc<F>(s: set<F>, xs: seq<F>, x: F)
    ensures ToggledAll(s, xs + [x]) == Toggled(ToggledAll(s, xs), x)
    decreases |xs|
  {
    if xs != [] {
      assert (xs + [x])[1..] == xs[1..] + [x];
      ToggledAllSnoc(Toggled(s, xs[0]), xs[1..], x);
    }
  }

  /** Over distinct elements, toggling each in turn gives the symmetric difference. */
  lemma {:induction false} ToggledAllIsSymmetricDifference<F>(s: set<F>, xs: seq<F>)
    requires forall i, j | 0 <= i < j < |xs| :: xs[i] != xs[j]
    ensures ToggledAll(s, xs) == (s - set x | x in xs) + ((set x | x in xs) - s)
    decreases |xs|
  {
    if xs != [] {
      var t := xs[1..];
      assert forall i, j | 0 <= i < j < |t| :: t[i] != t[j] by {
        forall i, j | 0 <= i < j < |t| ensures t[i] != t[j] {
          assert t[i] == xs[i + 1] && t[j] == xs[j + 1];
        }
      }
      ToggledAllIsSymmetricDifference(Toggled(s, xs[0]), t);
      assert xs[0] !in t by {
        forall k | 0 <= k < |t| ensures t[k] != xs[0] {
          assert t[k] == xs[k + 1];
        }
      }
      assert xs == [xs[0]] + t;
    }
  }
}
