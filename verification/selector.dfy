/**
 * A MapCSS selector: the kind of feature it targets, its tag tests, an
 * optional zoom range and the declarations it carries, together with the
 * equality test the stylesheet uses to merge selectors and the merge itself.
 * The selector kind is left abstract as the type parameter K: the stylesheet
 * keys its queues by a name while the selector stores an enumerator, and only
 * equality of kinds matters here.
 */
module Selectors {
  import opened Wrappers
  import opened Bits
  import opened Values
  import opened Styles

  /** The four tag-test operators, in the order of their enumerators. */
  datatype TestOp = IsSet | IsNotSet | Equals | NotEquals

  /** One tag test; `value` is NULL for the operators that take none. */
  datatype Test = Test(op: TestOp, tag: string, value: Option<string>)

  /** The two `gint` bounds of a zoom range, as stored by the parser. */
  datatype ZoomRange = ZoomRange(min: int32, max: int32)

  /**
   * A selector. The C selector keeps its tests as a `GList`, which is NULL
   * exactly when the list is empty, and its range as a `gint` pointer that is
   * NULL when the selector has none.
   */
  datatype Selector<K> = Selector(kind: K, tests: seq<Test>, zoom: Option<ZoomRange>, declarations: Style)

  /** `g_strcmp0 (a, b) == 0`: two NULLs compare equal, NULL differs from every string. */
  function SameString(a: Option<string>, b: Option<string>): (r: bool)
    ensures r <==> a == b
  {
    match (a, b)
    case (None, None) => true
    case (Some(x), Some(y)) => x == y
    case _ => false
  }

  /** `vtile_mapcss_selector_new`: the given kind, tests and range, and no declarations yet. */
  function New<K>(kind: K, tests: seq<Test>, zoom: Option<ZoomRange>): (r: Selector<K>)
    ensures r.kind == kind && r.tests == tests && r.zoom == zoom
    ensures |r.declarations| == 0
  {
    Selector(kind, tests, zoom, map[])
  }

  /**
   * `vtile_mapcss_selector_add_declarations`: a table replaces the
   * declarations; NULL leaves them as they were.
   */
  function AddDeclarations<K>(s: Selector<K>, declarations: Option<Style>): (r: Selector<K>)
    ensures r.kind == s.kind && r.tests == s.tests && r.zoom == s.zoom
    ensures declarations.Some? ==> r.declarations == declarations.value
    ensures declarations.None? ==> r == s
  {
    match declarations
    case None => s
    case Some(d) => s.(declarations := d)
  }

  /** The getters hand back exactly what the constructor and `add_declarations` stored. */
  lemma GettersReturnStored<K>(kind: K, tests: seq<Test>, zoom: Option<ZoomRange>, declarations: Style)
    ensures var s := AddDeclarations(New(kind, tests, zoom), Some(declarations));
      s.kind == kind && s.tests == tests && s.zoom == zoom && s.declarations == declarations
  {
  }

  /**
   * `test_in_list`: walks the list and skips every element that differs from
   * `test` in operator, tag or value, the strings compared with `g_strcmp0`.
   */
  method TestInList(test: Test, tests: seq<Test>) returns (found: bool)
    ensures found <==> test in tests
  {
    var i := 0;
    while i < |tests|
      invariant 0 <= i <= |tests|
      invariant test !in tests[..i]
    {
      var t := tests[i];
      if test.op != t.op {
      } else if !SameString(Some(test.tag), Some(t.tag)) {
      } else if !SameString(test.value, t.value) {
      } else {
        return true;
      }
      assert tests[..i + 1] == tests[..i] + [t];
      i := i + 1;
    }
    assert tests[..i] == tests;
    return false;
  }

  /**
   * What `vtile_mapcss_selector_equals (a, b)` decides: the same kind, the
   * same zoom range (both absent, or both present with equal bounds), test
   * lists of the same length, and every test of `a` somewhere among the
   * tests of `b`.
   */
  predicate SelectorsEqual<K(==)>(a: Selector<K>, b: Selector<K>) {
    && a.kind == b.kind
    && a.zoom == b.zoom
    && |a.tests| == |b.tests|
    && forall t :: t in a.tests ==> t in b.tests
  }

  /** `vtile_mapcss_selector_equals`, branch by branch. */
  method SelectorEquals<K(==)>(a: Selector<K>, b: Selector<K>) returns (r: bool)
    ensures r <==> SelectorsEqual(a, b)
  {
    if a.kind != b.kind {
      return false;
    }
    if a.zoom.Some? && b.zoom.Some? {
      if a.zoom.value.min != b.zoom.value.min || a.zoom.value.max != b.zoom.value.max {
        return false;
      }
    } else if a.zoom.Some? || b.zoom.Some? {
      return false;
    }
    if |a.tests| > 0 && |b.tests| > 0 {
      if |a.tests| != |b.tests| {
        return false;
      }
      var i := 0;
      while i < |a.tests|
        invariant 0 <= i <= |a.tests|
        invariant forall j :: 0 <= j < i ==> a.tests[j] in b.tests
      {
        var found := TestInList(a.tests[i], b.tests);
        if !found {
          return false;
        }
        i := i + 1;
      }
    } else if |a.tests| > 0 || |b.tests| > 0 {
      return false;
    }
    return true;
  }

  /** Every selector equals itself. */
  lemma EqualsReflexive<K>(a: Selector<K>)
    ensures SelectorsEqual(a, a)
  {
  }

  /** Selectors of different kinds, or with different zoom ranges, are never equal. */
  lemma EqualsNeedsSameKindAndZoom<K>(a: Selector<K>, b: Selector<K>)
    requires a.kind != b.kind || a.zoom != b.zoom
    ensures !SelectorsEqual(a, b)
  {
  }

  /**
   * Equality does not depend on the order of either selector's tests: a
   * permutation of the tests of `a` or of `b` gives the same answer.
   */
  lemma {:induction false} EqualsIgnoresTestOrder<K>(a: Selector<K>, b: Selector<K>, tests: seq<Test>)
    requires multiset(tests) == multiset(a.tests)
    ensures SelectorsEqual(a.(tests := tests), b) == SelectorsEqual(a, b)
    ensures SelectorsEqual(b, a.(tests := tests)) == SelectorsEqual(b, a)
  {
    assert |tests| == |multiset(tests)| == |multiset(a.tests)| == |a.tests|;
    forall t
      ensures t in tests <==> t in a.tests
    {
      assert t in tests <==> t in multiset(tests);
      assert t in a.tests <==> t in multiset(a.tests);
    }
  }

  /**
   * Equality is not symmetric: a test list with a repeated test is equal to a
   * list of the same length that contains it, but not the other way round.
   */
  lemma EqualsNotSymmetric()
    ensures var x := Test(IsSet, "highway", None);
      var y := Test(IsSet, "area", None);
      var a := Selector(0, [x, x], None, map[]);
      var b := Selector(0, [x, y], None, map[]);
      SelectorsEqual(a, b) && !SelectorsEqual(b, a)
  {
    var x := Test(IsSet, "highway", None);
    var y := Test(IsSet, "area", None);
    assert y != x;
    assert y !in [x, x];
  }

  /**
   * `vtile_mapcss_selector_merge (a, b)`: every declaration of `b` is inserted
   * into `a`'s table; kind, tests and range of `a` stay as they were.
   */
  function Merge<K>(a: Selector<K>, b: Selector<K>): (r: Selector<K>)
    ensures r.kind == a.kind && r.tests == a.tests && r.zoom == a.zoom
    ensures r.declarations.Keys == a.declarations.Keys + b.declarations.Keys
    ensures forall k :: k in b.declarations ==> r.declarations[k] == b.declarations[k]
    ensures forall k :: k in a.declarations && k !in b.declarations ==> r.declarations[k] == a.declarations[k]
  {
    a.(declarations := Overlay(a.declarations, b.declarations))
  }

  /** Merging the same selector a second time changes nothing. */
  lemma MergeIdempotent<K>(a: Selector<K>, b: Selector<K>)
    ensures Merge(Merge(a, b), b) == Merge(a, b)
  {
    OverlayIdempotent(a.declarations, b.declarations);
  }
}
