/**
 * The stylesheet and its cascade: selectors are kept in one insertion-ordered
 * queue per kind, `add_selector` appends to (or merges into) a queue, and
 * `get_style` folds the matching selectors of one queue over the default
 * style, so that the last matching declaration of each property wins.
 */
module Cascade {
  import opened Wrappers
  import opened Bits
  import opened Values
  import opened Styles
  import opened Selectors

  /** A feature's tags: a string table, or NULL when the caller passes none. */
  type Tags = Option<map<string, string>>

  /** The stylesheet's table from selector kind to its queue of selectors. */
  type Sheet<K(==)> = map<K, seq<Selector<K>>>

  /** `g_hash_table_lookup` on the tags, guarded as the C code guards it: a NULL table holds no tag. */
  function LookupTag(tags: Tags, tag: string): (r: Option<string>)
    ensures r.Some? <==> tags.Some? && tag in tags.value
    ensures r.Some? ==> r.value == tags.value[tag]
  {
    if tags.Some? && tag in tags.value then Some(tags.value[tag]) else None
  }

  /**
   * One arm of the operator switch in `vtile_mapcss_match_tests`: does `test`
   * keep the match? In terms of the tag table: IsSet needs the tag, IsNotSet
   * its absence, Equals the tag with that value, and NotEquals the tag with
   * another value, so that an absent tag fails NotEquals.
   */
  function TestPasses(test: Test, tags: Tags): (r: bool)
    ensures var present := tags.Some? && test.tag in tags.value;
      && (test.op == IsSet ==> (r <==> present))
      && (test.op == IsNotSet ==> (r <==> !present))
      && (test.op == Equals ==> (r <==> present && test.value == Some(tags.value[test.tag])))
      && (test.op == NotEquals ==> (r <==> present && test.value != Some(tags.value[test.tag])))
  {
    var value := LookupTag(tags, test.tag);
    match test.op
    case IsSet => value.Some?
    case IsNotSet => value.None?
    case Equals => value.Some? && SameString(value, test.value)
    case NotEquals => value.Some? && !SameString(value, test.value)
  }

  /** A NULL tag table holds no tag, so only IsNotSet passes. */
  lemma NullTagsPassOnlyIsNotSet(test: Test)
    ensures TestPasses(test, None) <==> test.op == IsNotSet
  {
  }

  /** Every test of the list passes: tests are and-ed together. */
  predicate AllPass(tests: seq<Test>, tags: Tags) {
    forall i :: 0 <= i < |tests| ==> TestPasses(tests[i], tags)
  }

  /**
   * `vtile_mapcss_match_tests`: an empty (NULL) list matches at once;
   * otherwise every test is visited and a failing one clears the flag.
   */
  method MatchTests<K>(s: Selector<K>, tags: Tags) returns (matched: bool)
    ensures matched <==> AllPass(s.tests, tags)
    ensures |s.tests| == 0 ==> matched
  {
    if |s.tests| == 0 {
      return true;
    }
    matched := true;
    var i := 0;
    while i < |s.tests|
      invariant 0 <= i <= |s.tests|
      invariant matched <==> forall j :: 0 <= j < i ==> TestPasses(s.tests[j], tags)
    {
      var test := s.tests[i];
      var value := LookupTag(tags, test.tag);
      match test.op {
        case IsSet =>
          if value.None? {
            matched := false;
          }
        case IsNotSet =>
          if value.Some? {
            matched := false;
          }
        case Equals =>
          if value.None? {
            matched := false;
          } else if !SameString(value, test.value) {
            matched := false;
          }
        case NotEquals =>
          if value.None? {
            matched := false;
          } else if SameString(value, test.value) {
            matched := false;
          }
      }
      i := i + 1;
    }
  }

  /**
   * `vtile_mapcss_match_zoom`: no range matches every zoom level; otherwise
   * the level must lie between the bounds, both included. The bounds are
   * stored as `gint` but read through a `guint` pointer, so they are compared
   * as their unsigned 32-bit reinterpretations, each negative bound b becoming
   * b + 2^32. A negative lower bound with a non-negative upper bound therefore
   * matches nothing; a negative upper bound with a non-negative lower bound
   * stops limiting levels below 2^31; two negative bounds match only levels
   * at or above 2^31, between the shifted bounds.
   */
  function MatchZoom<K>(s: Selector<K>, zoom: uint32): (r: bool)
    ensures s.zoom.None? ==> r
    ensures s.zoom.Some? && 0 <= s.zoom.value.min && 0 <= s.zoom.value.max ==>
      (r <==> s.zoom.value.min <= zoom <= s.zoom.value.max)
    ensures s.zoom.Some? && s.zoom.value.min < 0 && 0 <= s.zoom.value.max ==> !r
    ensures s.zoom.Some? && 0 <= s.zoom.value.min && s.zoom.value.max < 0 && zoom < 0x8000_0000 ==>
      (r <==> s.zoom.value.min <= zoom)
    ensures s.zoom.Some? && s.zoom.value.min < 0 && s.zoom.value.max < 0 ==>
      (r <==> s.zoom.value.min + 0x1_0000_0000 <= zoom <= s.zoom.value.max + 0x1_0000_0000)
  {
    match s.zoom
    case None => true
    case Some(range) => zoom >= ToUint32(range.min) && zoom <= ToUint32(range.max)
  }

  /** Both checks of the cascade loop hold: the selector's declarations are applied. */
  predicate Applies<K>(s: Selector<K>, tags: Tags, zoom: uint32) {
    MatchZoom(s, zoom) && AllPass(s.tests, tags)
  }

  /** The style after applying, in queue order, every selector of `q` that applies. */
  function CascadeStyle<K>(base: Style, q: seq<Selector<K>>, tags: Tags, zoom: uint32): Style
    decreases |q|
  {
    if |q| == 0 then base
    else
      var prev := CascadeStyle(base, q[..|q| - 1], tags, zoom);
      var s := q[|q| - 1];
      if Applies(s, tags, zoom) then Overlay(prev, s.declarations) else prev
  }

  /** Does the selector apply and declare `name`? */
  predicate Declares<K>(s: Selector<K>, tags: Tags, zoom: uint32, name: string) {
    Applies(s, tags, zoom) && name in s.declarations
  }

  /** The position of the last selector of `q` that applies and declares `name`, if any. */
  function LastDeclaring<K>(q: seq<Selector<K>>, tags: Tags, zoom: uint32, name: string): (r: Option<nat>)
    ensures r.Some? ==> r.value < |q| && Declares(q[r.value], tags, zoom, name)
    ensures r.Some? ==> forall j :: r.value < j < |q| ==> !Declares(q[j], tags, zoom, name)
    ensures r.None? ==> forall j :: 0 <= j < |q| ==> !Declares(q[j], tags, zoom, name)
    decreases |q|
  {
    if |q| == 0 then None
    else if Declares(q[|q| - 1], tags, zoom, name) then Some(|q| - 1)
    else LastDeclaring(q[..|q| - 1], tags, zoom, name)
  }

  /**
   * Last match wins, property by property: a property takes the value of the
   * last applying selector that declares it; a property no applying selector
   * declares keeps its value from the base style, or stays absent.
   */
  lemma {:induction false} LastMatchWins<K>(base: Style, q: seq<Selector<K>>, tags: Tags, zoom: uint32, name: string)
    ensures var r := CascadeStyle(base, q, tags, zoom);
      match LastDeclaring(q, tags, zoom, name)
      case Some(i) => name in r && r[name] == q[i].declarations[name]
      case None => (name in r <==> name in base) && (name in base ==> r[name] == base[name])
    decreases |q|
  {
    if |q| > 0 {
      var front := q[..|q| - 1];
      LastMatchWins(base, front, tags, zoom, name);
      if !Declares(q[|q| - 1], tags, zoom, name) {
        assert LastDeclaring(q, tags, zoom, name) == LastDeclaring(front, tags, zoom, name);
        match LastDeclaring(front, tags, zoom, name)
        case Some(i) =>
          assert q[i] == front[i];
        case None =>
      }
    }
  }

  /** When no selector of the queue applies, the cascade returns the base style untouched. */
  lemma {:induction false} NothingAppliesKeepsBase<K>(base: Style, q: seq<Selector<K>>, tags: Tags, zoom: uint32)
    requires forall j :: 0 <= j < |q| ==> !Applies(q[j], tags, zoom)
    ensures CascadeStyle(base, q, tags, zoom) == base
    decreases |q|
  {
    if |q| > 0 {
      NothingAppliesKeepsBase(base, q[..|q| - 1], tags, zoom);
    }
  }

  /**
   * `vtile_mapcss_get_style`: a fresh default style, then every selector of
   * the kind's queue that passes the zoom check and the tag tests has its
   * declarations inserted, in queue order. A kind without a queue gets the
   * defaults.
   */
  method GetStyle<K(==)>(sheet: Sheet<K>, kind: K, tags: Tags, zoom: uint32) returns (style: Style)
    ensures kind in sheet ==> style == CascadeStyle(DefaultStyle(), sheet[kind], tags, zoom)
    ensures kind !in sheet ==> style == DefaultStyle()
  {
    style := DefaultStyle();
    if kind in sheet {
      var queue := sheet[kind];
      var i := 0;
      while i < |queue|
        invariant 0 <= i <= |queue|
        invariant style == CascadeStyle(DefaultStyle(), queue[..i], tags, zoom)
      {
        var s := queue[i];
        assert queue[..i + 1][..i] == queue[..i];
        var inRange := MatchZoom(s, zoom);
        if inRange {
          var matched := MatchTests(s, tags);
          if matched {
            style := InsertAll(style, s.declarations);
          }
        }
        i := i + 1;
      }
      assert queue[..i] == queue;
    }
  }

  /** The queue of a kind; a kind never added has none, which behaves as an empty queue. */
  function Queue<K(==)>(sheet: Sheet<K>, kind: K): (q: seq<Selector<K>>)
    ensures kind in sheet ==> q == sheet[kind]
    ensures kind !in sheet ==> q == []
  {
    if kind in sheet then sheet[kind] else []
  }

  /** The position of the first selector of `q` that `vtile_mapcss_selector_equals` finds equal to `s`. */
  function FirstEqual<K(==)>(q: seq<Selector<K>>, s: Selector<K>): (r: Option<nat>)
    ensures r.Some? ==> r.value < |q| && SelectorsEqual(q[r.value], s)
    ensures r.Some? ==> forall j :: 0 <= j < r.value ==> !SelectorsEqual(q[j], s)
    ensures r.None? ==> forall j :: 0 <= j < |q| ==> !SelectorsEqual(q[j], s)
    decreases |q|
  {
    if |q| == 0 then None
    else if SelectorsEqual(q[0], s) then Some(0)
    else match FirstEqual(q[1..], s)
      case None => None
      case Some(i) => Some(i + 1)
  }

  /**
   * The stylesheet after `vtile_mapcss_add_selector (sheet, s)`: the kind gets
   * a queue if it had none; when some selector of the queue equals `s`, the
   * first such one absorbs the declarations of `s` in place, and otherwise `s`
   * joins the tail. Every other queue is left alone.
   */
  function Add<K(==)>(sheet: Sheet<K>, s: Selector<K>): (r: Sheet<K>)
    ensures r.Keys == sheet.Keys + {s.kind}
    ensures forall k :: k in sheet && k != s.kind ==> r[k] == sheet[k]
    ensures var q := Queue(sheet, s.kind);
      match FirstEqual(q, s)
      case None => r[s.kind] == q + [s]
      case Some(i) =>
        && |r[s.kind]| == |q|
        && r[s.kind][i] == Merge(q[i], s)
        && forall j :: 0 <= j < |q| && j != i ==> r[s.kind][j] == q[j]
  {
    var q := Queue(sheet, s.kind);
    match FirstEqual(q, s)
    case None => sheet[s.kind := q + [s]]
    case Some(i) => sheet[s.kind := q[i := Merge(q[i], s)]]
  }

  /** `vtile_mapcss_add_selector`: look the queue up or create it, scan it for an equal selector, merge or push. */
  method AddSelector<K(==)>(sheet: Sheet<K>, s: Selector<K>) returns (r: Sheet<K>)
    ensures r == Add(sheet, s)
  {
    var queue: seq<Selector<K>>;
    if s.kind in sheet {
      queue := sheet[s.kind];
    } else {
      queue := [];
    }
    ghost var q := queue;
    var push := true;
    var i := 0;
    while i < |queue|
      invariant 0 <= i <= |queue|
      invariant queue == q && push
      invariant forall j :: 0 <= j < i ==> !SelectorsEqual(queue[j], s)
    {
      var current := queue[i];
      var equal := SelectorEquals(current, s);
      if equal {
        assert FirstEqual(q, s) == Some(i);
        var declarations := InsertAll(current.declarations, s.declarations);
        queue := queue[i := current.(declarations := declarations)];
        push := false;
        break;
      }
      i := i + 1;
    }
    if push {
      queue := queue + [s];
    }
    r := sheet[s.kind := queue];
  }

  /** The number of selectors queued under the kinds of `kinds`. */
  ghost function SumQueues<K>(sheet: Sheet<K>, kinds: set<K>): nat
    requires kinds <= sheet.Keys
    decreases kinds
  {
    if kinds == {} then 0
    else
      var k :| k in kinds;
      |sheet[k]| + SumQueues(sheet, kinds - {k})
  }

  /** The number of selectors in the whole stylesheet. */
  ghost function TotalSelectors<K>(sheet: Sheet<K>): nat {
    SumQueues(sheet, sheet.Keys)
  }

  /** Any kind can be taken out of the sum first: the sum does not depend on the order of the kinds. */
  lemma {:induction false} SumQueuesRemove<K>(sheet: Sheet<K>, kinds: set<K>, k: K)
    requires kinds <= sheet.Keys && k in kinds
    ensures SumQueues(sheet, kinds) == |sheet[k]| + SumQueues(sheet, kinds - {k})
    decreases kinds
  {
    var x :| x in kinds && SumQueues(sheet, kinds) == |sheet[x]| + SumQueues(sheet, kinds - {x});
    if x != k {
      SumQueuesRemove(sheet, kinds - {x}, k);
      SumQueuesRemove(sheet, kinds - {k}, x);
      assert kinds - {x} - {k} == kinds - {k} - {x};
    }
  }

  /** The sum only sees the lengths of the queues it adds up. */
  lemma {:induction false} SumQueuesFrame<K>(a: Sheet<K>, b: Sheet<K>, kinds: set<K>)
    requires kinds <= a.Keys && kinds <= b.Keys
    requires forall k :: k in kinds ==> |a[k]| == |b[k]|
    ensures SumQueues(a, kinds) == SumQueues(b, kinds)
    decreases kinds
  {
    if kinds != {} {
      var k :| k in kinds;
      SumQueuesRemove(a, kinds, k);
      SumQueuesRemove(b, kinds, k);
      SumQueuesFrame(a, b, kinds - {k});
    }
  }

  /**
   * `vtile_mapcss_get_num_styles`: the lengths of the queues added up, visiting
   * the kinds in the order `g_hash_table_get_keys_as_array` lists them, which
   * is each kind of the table once, in an unspecified order.
   */
  method GetNumStyles<K(==)>(sheet: Sheet<K>, keys: seq<K>) returns (count: int)
    requires forall k :: k in sheet <==> k in keys
    requires forall i, j :: 0 <= i < j < |keys| ==> keys[i] != keys[j]
    ensures count == TotalSelectors(sheet)
  {
    count := 0;
    ghost var seen: set<K> := {};
    var i := 0;
    while i < |keys|
      invariant 0 <= i <= |keys|
      invariant forall k :: k in seen <==> k in keys[..i]
      invariant seen <= sheet.Keys
      invariant count == SumQueues(sheet, seen)
    {
      var k := keys[i];
      assert k !in seen;
      SumQueuesRemove(sheet, seen + {k}, k);
      assert seen + {k} - {k} == seen;
      count := count + |sheet[k]|;
      seen := seen + {k};
      assert keys[..i + 1] == keys[..i] + [k];
      i := i + 1;
    }
    assert keys[..i] == keys;
    assert seen == sheet.Keys;
  }

  /**
   * Each `add_selector` raises the selector count by exactly one when it
   * appends and leaves it unchanged when it merges.
   */
  lemma AddCount<K>(sheet: Sheet<K>, s: Selector<K>)
    ensures TotalSelectors(Add(sheet, s)) ==
      TotalSelectors(sheet) + (if FirstEqual(Queue(sheet, s.kind), s).None? then 1 else 0)
  {
    var r := Add(sheet, s);
    var others := sheet.Keys - {s.kind};
    SumQueuesRemove(r, r.Keys, s.kind);
    assert r.Keys - {s.kind} == others;
    SumQueuesFrame(r, sheet, others);
    if s.kind in sheet {
      SumQueuesRemove(sheet, sheet.Keys, s.kind);
    } else {
      assert sheet.Keys == others;
    }
  }

  /**
   * With no tag table, a selector holding any test other than IsNotSet never
   * applies; a queue of such selectors leaves the base style as it was.
   */
  lemma NullTagsKeepBase<K>(base: Style, q: seq<Selector<K>>, zoom: uint32)
    requires forall j :: 0 <= j < |q| ==> exists t :: t in q[j].tests && t.op != IsNotSet
    ensures CascadeStyle(base, q, None, zoom) == base
  {
    forall j | 0 <= j < |q|
      ensures !Applies(q[j], None, zoom)
    {
      assert exists t :: t in q[j].tests && t.op != IsNotSet;
      var t :| t in q[j].tests && t.op != IsNotSet;
      NullTagsPassOnlyIsNotSet(t);
    }
    NothingAppliesKeepsBase(base, q, None, zoom);
  }
}
