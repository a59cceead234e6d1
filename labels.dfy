/**
  Attribute maps ("labels") of nodes and edges and the two ways they are
  compared: the native label matcher, which only checks key coverage, and
  the equality of attribute maps.

  Attribute values are host objects. Their `__eq__` is not visible here, so
  every operation takes it as a parameter `valEq`; a host comparison that
  raises, or returns something that is not a bool, reads as `false`.
*/
module Labels {

  /** A map from attribute key to host value. */
  type Attributes<V> = map<string, V>

  /** Every key of the pattern map is a key of the target map. */
  predicate CoversKeys<V>(pattern: Attributes<V>, target: Attributes<V>) {
    pattern.Keys <= target.Keys
  }

  /**
    The native label matcher. It walks the pattern's entries in the map's
    (unspecified) order; a key missing from the target ends the walk with
    `false`, while a key present in both has its values compared and the walk
    goes on whatever that comparison answers.
  */
  method NativeSameLabel<V>(a: Attributes<V>, b: Attributes<V>, valEq: (V, V) -> bool)
    returns (r: bool)
    ensures r <==> CoversKeys(a, b)
  {
    var rest := a.Keys;
    while rest != {}
      invariant rest <= a.Keys
      invariant forall k :: k in a && k !in rest ==> k in b
      decreases rest
    {
      var k :| k in rest;
      rest := rest - {k};
      if k in b {
        if valEq(a[k], b[k]) {
          continue;
        }
        // the values differ: the source falls through to the next key
      } else {
        return false;
      }
    }
    return true;
  }

  /**
    Equality of attribute maps: the same number of entries, and every key
    of `self` present in `other` with a value its `__eq__` accepts.
  */
  function AttributesEq<V>(self: Attributes<V>, other: Attributes<V>, valEq: (V, V) -> bool): (r: bool)
    ensures |self| != |other| ==> !r
    ensures r ==> self.Keys == other.Keys
    ensures r <==> |self| == |other| && CoversKeys(self, other)
                   && forall k :: k in self ==> valEq(self[k], other[k])
  {
    if |self| != |other| then
      false
    else
      var all := forall k :: k in self ==> k in other && valEq(self[k], other[k]);
      if all then
        assert |self.Keys| == |other.Keys|;
        SubsetOfSameSize(self.Keys, other.Keys);
        true
      else
        false
  }

  /** A subset as large as its superset is the superset. */
  lemma {:induction false} SubsetOfSameSize<T>(small: set<T>, big: set<T>)
    requires small <= big && |small| == |big|
    ensures small == big
  {
    if small != big {
      var x :| x in big && x !in small;
      assert small <= big - {x};
      SubsetSize(small, big - {x});
      assert false;
    }
  }

  /** A subset is no larger than its superset. */
  lemma {:induction false} SubsetSize<T>(small: set<T>, big: set<T>)
    requires small <= big
    ensures |small| <= |big|
    decreases big
  {
    if small != {} {
      var x :| x in small;
      SubsetSize(small - {x}, big - {x});
    }
  }

  /**
    The native matcher never looks at values: two pattern maps with the same
    keys get the same verdict against two targets with the same keys.
  */
  lemma NativeIgnoresValues<V>(a: Attributes<V>, b: Attributes<V>, a': Attributes<V>, b': Attributes<V>)
    requires a.Keys == a'.Keys && b.Keys == b'.Keys
    ensures CoversKeys(a, b) <==> CoversKeys(a', b')
  {
  }

  /** An empty pattern map matches every target. */
  lemma EmptyPatternMatches<V>(target: Attributes<V>)
    ensures CoversKeys(map[], target)
  {
  }

  /**
    Keys that only the target has never change the verdict: the target can be
    cut down to the pattern's keys, or extended by any keys, without effect
    as long as the pattern's keys keep their presence.
  */
  lemma TargetOnlyKeysIrrelevant<V>(a: Attributes<V>, b: Attributes<V>, extra: Attributes<V>)
    requires extra.Keys !! a.Keys
    ensures CoversKeys(a, b) <==> CoversKeys(a, b + extra)
    ensures CoversKeys(a, b) <==> CoversKeys(a, map k | k in b && k in a :: b[k])
  {
  }

  /** A missing key is decisive, whatever else either map holds. */
  lemma MissingKeyRejects<V>(a: Attributes<V>, b: Attributes<V>, k: string)
    requires k in a && k !in b
    ensures !CoversKeys(a, b)
  {
  }

  /**
    Equal attribute maps match each other both ways under the native
    matcher.
  */
  lemma EqualAttributesMatch<V>(a: Attributes<V>, b: Attributes<V>, valEq: (V, V) -> bool)
    requires AttributesEq(a, b, valEq)
    ensures CoversKeys(a, b) && CoversKeys(b, a)
  {
  }

  /** Attribute equality is reflexive when the host's `__eq__` is. */
  lemma AttributesEqReflexive<V>(a: Attributes<V>, valEq: (V, V) -> bool)
    requires forall v :: valEq(v, v)
    ensures AttributesEq(a, a, valEq)
  {
  }

  /** Attribute equality is symmetric when the host's `__eq__` is. */
  lemma AttributesEqSymmetric<V>(a: Attributes<V>, b: Attributes<V>, valEq: (V, V) -> bool)
    requires forall v, w :: valEq(v, w) ==> valEq(w, v)
    requires AttributesEq(a, b, valEq)
    ensures AttributesEq(b, a, valEq)
  {
  }

  /**
    Two worked cases: pattern `{a: 1}` matches target
    `{a: 2, b: 3}` although the values of `a` differ, and does not match
    target `{b: 3}`, which lacks `a`.
  */
  lemma CoverageScenarios()
    ensures CoversKeys(map["a" := 1], map["a" := 2, "b" := 3])
    ensures !CoversKeys(map["a" := 1], map["b" := 3])
  {
    assert "a" !in map["b" := 3];
  }
}
