/**
 * Worked stylesheets: the behaviour the renderer's parse tests rely on and the
 * ordering consequence of merging equal selectors, each computed from the
 * model on a small concrete stylesheet.
 */
module Scenarios {
  import opened Wrappers
  import opened Bits
  import opened Values
  import opened Styles
  import opened Selectors
  import opened Cascade

  function Width(w: real): Style {
    map["width" := NumberValue(w)]
  }

  /**
   * A selector that equals an earlier one is merged into it, so its
   * declarations take effect at the earlier position: a selector between the
   * two still overrides them, and the queue does not grow.
   */
  lemma MergeTakesEffectEarlier(base: Style)
    ensures var a := Selector(0, [], None, Width(2.0));
      var b := Selector(0, [Test(IsSet, "highway", None)], None, Width(3.0));
      var later := Selector(0, [], None, Width(4.0));
      var sheet := Add(Add(Add(map[], a), b), later);
      var tags := Some(map["highway" := "primary"]);
      && |sheet[0]| == 2
      && CascadeStyle(base, sheet[0], tags, 1)["width"] == NumberValue(3.0)
  {
    var a := Selector(0, [], None, Width(2.0));
    var b := Selector(0, [Test(IsSet, "highway", None)], None, Width(3.0));
    var later := Selector(0, [], None, Width(4.0));
    var tags := Some(map["highway" := "primary"]);
    var s1 := Add(map[], a);
    assert s1[0] == [a];
    var s2 := Add(s1, b);
    assert !SelectorsEqual(a, b);
    assert s2[0] == [a, b];
    var s3 := Add(s2, later);
    assert SelectorsEqual(a, later);
    assert s3[0] == [Merge(a, later), b];
    assert Applies(b, tags, 1) by {
      assert TestPasses(b.tests[0], tags);
    }
    assert [Merge(a, later), b][..1] == [Merge(a, later)];
  }

  /*
   * One selector per kind plus a tagged one: `canvas { width: 2 }`,
   * `way { width: 3 }`, `way[area=yes] { width: 4 }`, `node { width: 5 }`.
   */
  const CanvasRule := Selector("canvas", [], None, Width(2.0))
  const WayRule := Selector("way", [], None, Width(3.0))
  const AreaRule := Selector("way", [Test(Equals, "area", Some("yes"))], None, Width(4.0))
  const NodeRule := Selector("node", [], None, Width(5.0))

  /** The stylesheet the four rules build, added in that order. */
  function KindSheet(): Sheet<string> {
    Add(Add(Add(Add(map[], CanvasRule), WayRule), AreaRule), NodeRule)
  }

  /** Nothing is merged: each kind has its own queue, and the way queue holds both way rules in order. */
  lemma KindSheetQueues()
    ensures var sheet := KindSheet();
      && sheet.Keys == {"canvas", "way", "node"}
      && Queue(sheet, "canvas") == [CanvasRule]
      && Queue(sheet, "way") == [WayRule, AreaRule]
      && Queue(sheet, "node") == [NodeRule]
  {
    assert !SelectorsEqual(WayRule, AreaRule);
  }

  /*
   * What `get_style` computes from the queues KindSheetQueues lists, on any
   * base style.
   */

  /** Without tags, a canvas takes the width of the canvas rule. */
  lemma CanvasWidth(base: Style)
    ensures Get(CascadeStyle(base, [CanvasRule], None, 1), "width") == Some(NumberValue(2.0))
  {
    assert Applies(CanvasRule, None, 1);
    assert [CanvasRule][..0] == [];
    assert CascadeStyle(base, [CanvasRule], None, 1) == Overlay(base, Width(2.0));
  }

  /** Without tags, a way passes only the untagged way rule. */
  lemma UntaggedWayWidth(base: Style)
    ensures Get(CascadeStyle(base, [WayRule, AreaRule], None, 1), "width") == Some(NumberValue(3.0))
  {
    assert !Applies(AreaRule, None, 1) by {
      assert !TestPasses(AreaRule.tests[0], None);
    }
    assert [WayRule, AreaRule][..1] == [WayRule];
    assert [WayRule][..0] == [];
  }

  /** A node takes the width of the node rule. */
  lemma NodeWidth(base: Style)
    ensures Get(CascadeStyle(base, [NodeRule], None, 1), "width") == Some(NumberValue(5.0))
  {
    assert Applies(NodeRule, None, 1);
    assert [NodeRule][..0] == [];
    assert CascadeStyle(base, [NodeRule], None, 1) == Overlay(base, Width(5.0));
  }

  /** A way tagged area=yes also passes the tagged rule, which comes later and wins. */
  lemma TaggedWayWidth(base: Style)
    ensures Get(CascadeStyle(base, [WayRule, AreaRule], Some(map["area" := "yes"]), 1), "width") == Some(NumberValue(4.0))
  {
    var tags := Some(map["area" := "yes"]);
    assert Applies(AreaRule, tags, 1) by {
      assert TestPasses(AreaRule.tests[0], tags);
    }
  }

  /**
   * Looked up without tags, a way whose every selector tests some tag gets
   * the default style, and so the default width 1.
   */
  lemma NullTagsDefaultWidth(q: seq<Selector<string>>, zoom: uint32)
    requires forall j :: 0 <= j < |q| ==> exists t :: t in q[j].tests && t.op != IsNotSet
    ensures Get(CascadeStyle(DefaultStyle(), q, None, zoom), "width") == Some(NumberValue(1.0))
  {
    NullTagsKeepBase(DefaultStyle(), q, zoom);
    DefaultLineNumbers();
  }
}
