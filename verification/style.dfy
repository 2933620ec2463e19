/**
 * A computed style: the property table that `vtile_mapcss_style_new` seeds
 * with the built-in defaults, the helpers that insert typed values into it and
 * the typed getters with their absent-name sentinels.
 */
module Styles {
  import opened Wrappers
  import opened Values

  /** A style maps each property name to at most one value. */
  type Style = map<string, Value>

  /** `G_MAXDOUBLE`, the largest finite double, 2^1024 - 2^971, as an exact real. */
  const MaxDouble: real := 179769313486231570814527423731704356798070567525844996598917476803157260780028538760589558632766878171540458953514382464234321326889464182768467546703537516986049910576551282076245490090389328944075868508455133942304583236903222948165808559332123348274797826204144723168738177180919299881250404026184124858368.0

  /*
   * The numeric codes of the enumerators the default table stores. They are
   * declared in a header that is not part of this model, so the model leaves
   * their values unspecified.
   */
  const LineCapNone: int
  const LineJoinRound: int
  const FontWeightNormal: int
  const FontStyleNormal: int
  const FontVariantNormal: int
  const TextDecorationNone: int
  const TextTransformNone: int
  const TextPositionCenter: int

  /**
   * `g_hash_table_insert` of a fresh value: the name maps to the new value
   * afterwards, replacing any old one, and every other entry is kept.
   */
  function Insert(style: Style, name: string, value: Value): (r: Style)
    ensures r.Keys == style.Keys + {name}
    ensures r[name] == value
    ensures forall k :: k in style && k != name ==> r[k] == style[k]
  {
    style[name := value]
  }

  function AddNum(style: Style, name: string, num: real): (r: Style)
    ensures name in r && TypeOf(r[name]) == NumberType
  {
    Insert(style, name, NumberValue(num))
  }

  function AddColor(style: Style, name: string, color: Color): (r: Style)
    ensures name in r && TypeOf(r[name]) == ColorType
  {
    Insert(style, name, ColorValue(color))
  }

  function AddDashes(style: Style, name: string, dash: Dash): (r: Style)
    ensures name in r && TypeOf(r[name]) == DashType
  {
    Insert(style, name, DashValue(dash))
  }

  function AddEnum(style: Style, name: string, enumValue: int): (r: Style)
    ensures name in r && TypeOf(r[name]) == EnumType
  {
    Insert(style, name, EnumValue(enumValue))
  }

  function AddStr(style: Style, name: string, str: string): (r: Style)
    ensures name in r && TypeOf(r[name]) == StringType
  {
    Insert(style, name, StringValue(str))
  }

  const Black := Color(0.0, 0.0, 0.0)
  const Grey := Color(0.5, 0.5, 0.5)
  const NoDashes: Dash := DashPattern([0.0, 0.0, 0.0, 0.0], 0)

  /**
   * The default table `vtile_mapcss_style_new` builds, one entry per insertion
   * it makes, each holding the value its typed helper stores.
   */
  function DefaultStyle(): Style {
    map[
      "width" := NumberValue(1.0),
      "z-index" := NumberValue(0.0),
      "opacity" := NumberValue(1.0),
      "fill-opacity" := NumberValue(1.0),
      "casing-opacity" := NumberValue(1.0),
      "casing-width" := NumberValue(0.0),
      "fill-color" := ColorValue(Grey),
      "color" := ColorValue(Black),
      "casing-color" := ColorValue(Black),
      "dashes" := DashValue(NoDashes),
      "linecap" := EnumValue(LineCapNone),
      "linejoin" := EnumValue(LineJoinRound),
      "font-family" := StringValue("DejaVu"),
      "font-size" := NumberValue(12.0),
      "font-weight" := EnumValue(FontWeightNormal),
      "font-style" := EnumValue(FontStyleNormal),
      "font-variant" := EnumValue(FontVariantNormal),
      "text-decoration" := EnumValue(TextDecorationNone),
      "text-transform" := EnumValue(TextTransformNone),
      "text-position" := EnumValue(TextPositionCenter),
      "text-color" := ColorValue(Black),
      "text-halo-color" := ColorValue(Black),
      "text-opacity" := NumberValue(1.0),
      "text-offset" := NumberValue(0.0),
      "text-halo-radius" := NumberValue(0.0)
    ]
  }

  /*
   * The 25 property names of the default table, in five groups of five in the
   * order `vtile_mapcss_style_new` inserts them. The grouping keeps the proof
   * that the names are pairwise different small.
   */
  const NamesA: set<string> := {"width", "z-index", "opacity", "fill-opacity", "casing-opacity"}
  const NamesB: set<string> := {"casing-width", "fill-color", "color", "casing-color", "dashes"}
  const NamesC: set<string> := {"linecap", "linejoin", "font-family", "font-size", "font-weight"}
  const NamesD: set<string> := {"font-style", "font-variant", "text-decoration", "text-transform", "text-position"}
  const NamesE: set<string> := {"text-color", "text-halo-color", "text-opacity", "text-offset", "text-halo-radius"}
  const DefaultNames: set<string> := {
    "width", "z-index", "opacity", "fill-opacity", "casing-opacity", "casing-width",
    "fill-color", "color", "casing-color", "dashes", "linecap", "linejoin",
    "font-family", "font-size", "font-weight", "font-style", "font-variant",
    "text-decoration", "text-transform", "text-position", "text-color",
    "text-halo-color", "text-opacity", "text-offset", "text-halo-radius"
  }

  /** `vtile_mapcss_style_get`: the stored value of any type, or NULL when the name is absent. */
  function Get(style: Style, name: string): (r: Option<Value>)
    ensures r.Some? <==> name in style
    ensures r.Some? ==> r.value == style[name]
  {
    if name in style then Some(style[name]) else None
  }

  /** `vtile_mapcss_style_get_num`: the stored number, or -G_MAXDOUBLE when the name is absent. */
  function GetNum(style: Style, name: string): real
    requires name in style ==> style[name].NumberValue?
  {
    if name in style then style[name].num else -MaxDouble
  }

  /** `vtile_mapcss_style_get_color`: the stored colour, or NULL when the name is absent. */
  function GetColor(style: Style, name: string): Option<Color>
    requires name in style ==> style[name].ColorValue?
  {
    if name in style then Some(style[name].color) else None
  }

  /** `vtile_mapcss_style_get_dash`: the stored dash pattern, or NULL when the name is absent. */
  function GetDash(style: Style, name: string): Option<Dash>
    requires name in style ==> style[name].DashValue?
  {
    if name in style then Some(style[name].dash) else None
  }

  /** `vtile_mapcss_style_get_enum`: the stored enumerator, or -1 when the name is absent. */
  function GetEnum(style: Style, name: string): int
    requires name in style ==> style[name].EnumValue?
  {
    if name in style then style[name].enumValue else -1
  }

  /** `vtile_mapcss_style_get_str`: the stored string, or NULL when the name is absent. */
  function GetStr(style: Style, name: string): Option<string>
    requires name in style ==> style[name].StringValue?
  {
    if name in style then Some(style[name].str) else None
  }

  /** The default table holds exactly the 25 documented names, each once. */
  lemma DefaultNamesExactly()
    ensures DefaultStyle().Keys == DefaultNames
    ensures |DefaultStyle()| == 25
  {
    DefaultKeys();
    DefaultNamesCount();
  }

  lemma DefaultKeys()
    ensures DefaultStyle().Keys == DefaultNames
  {
  }

  lemma NamesGrouped()
    ensures DefaultNames == NamesA + NamesB + NamesC + NamesD + NamesE
  {
  }

  lemma DefaultNamesCount()
    ensures |DefaultNames| == 25
  {
    NamesGrouped();
    SizeA();
    SizeB();
    SizeC();
    SizeD();
    SizeE();
    DisjointAB();
    DisjointAC();
    DisjointBC();
    DisjointAD();
    DisjointBD();
    DisjointCD();
    DisjointAE();
    DisjointBE();
    DisjointCE();
    DisjointDE();
    DisjointUnion(NamesA, NamesB);
    DisjointUnion(NamesA + NamesB, NamesC);
    DisjointUnion(NamesA + NamesB + NamesC, NamesD);
    DisjointUnion(NamesA + NamesB + NamesC + NamesD, NamesE);
  }

  /*
   * The lemmas below count the five name groups and show them pairwise
   * disjoint, so that the 25-name total is reached in small solver steps
   * rather than in one cardinality query over a 25-element set display.
   */
  lemma DisjointUnion(a: set<string>, b: set<string>)
    requires a !! b
    ensures |a + b| == |a| + |b|
  {
  }

  lemma SizeA()
    ensures |NamesA| == 5
  {
  }

  lemma SizeB()
    ensures |NamesB| == 5
  {
  }

  lemma SizeC()
    ensures |NamesC| == 5
  {
  }

  lemma SizeD()
    ensures |NamesD| == 5
  {
  }

  lemma SizeE()
    ensures |NamesE| == 5
  {
  }

  lemma DisjointAB()
    ensures NamesA !! NamesB
  {
  }

  lemma DisjointAC()
    ensures NamesA !! NamesC
  {
  }

  lemma DisjointBC()
    ensures NamesB !! NamesC
  {
  }

  lemma DisjointAD()
    ensures NamesA !! NamesD
  {
  }

  lemma DisjointBD()
    ensures NamesB !! NamesD
  {
  }

  lemma DisjointCD()
    ensures NamesC !! NamesD
  {
  }

  lemma DisjointAE()
    ensures NamesA !! NamesE
  {
  }

  lemma DisjointBE()
    ensures NamesB !! NamesE
  {
  }

  lemma DisjointCE()
    ensures NamesC !! NamesE
  {
  }

  lemma DisjointDE()
    ensures NamesD !! NamesE
  {
  }

  /** The numeric line defaults, read back through the number getter. */
  lemma DefaultLineNumbers()
    ensures var s := DefaultStyle();
      && GetNum(s, "width") == 1.0 && GetNum(s, "z-index") == 0.0 && GetNum(s, "opacity") == 1.0
  {
  }

  /** The numeric fill and casing defaults. */
  lemma DefaultFillNumbers()
    ensures var s := DefaultStyle();
      && GetNum(s, "fill-opacity") == 1.0 && GetNum(s, "casing-opacity") == 1.0
      && GetNum(s, "casing-width") == 0.0
  {
  }

  /** The numeric text defaults. */
  lemma DefaultTextNumbers()
    ensures var s := DefaultStyle();
      && GetNum(s, "font-size") == 12.0 && GetNum(s, "text-opacity") == 1.0
      && GetNum(s, "text-offset") == 0.0 && GetNum(s, "text-halo-radius") == 0.0
  {
  }

  /** The colour defaults: grey fill, black everywhere else. */
  lemma DefaultColors()
    ensures var s := DefaultStyle();
      && GetColor(s, "fill-color") == Some(Color(0.5, 0.5, 0.5))
      && GetColor(s, "color") == Some(Color(0.0, 0.0, 0.0))
      && GetColor(s, "casing-color") == Some(Color(0.0, 0.0, 0.0))
  {
  }

  /** The text colour defaults are black. */
  lemma DefaultTextColors()
    ensures var s := DefaultStyle();
      && GetColor(s, "text-color") == Some(Color(0.0, 0.0, 0.0))
      && GetColor(s, "text-halo-color") == Some(Color(0.0, 0.0, 0.0))
  {
  }

  /** The line dash, cap and join defaults. */
  lemma DefaultLineShape()
    ensures var s := DefaultStyle();
      && GetDash(s, "dashes").Some? && GetDash(s, "dashes").value == DashPattern([0.0, 0.0, 0.0, 0.0], 0)
      && GetEnum(s, "linecap") == LineCapNone && GetEnum(s, "linejoin") == LineJoinRound
  {
  }

  /** The font defaults. */
  lemma DefaultFont()
    ensures var s := DefaultStyle();
      && GetStr(s, "font-family") == Some("DejaVu")
      && GetEnum(s, "font-weight") == FontWeightNormal && GetEnum(s, "font-style") == FontStyleNormal
      && GetEnum(s, "font-variant") == FontVariantNormal
  {
  }

  /** The text layout defaults. */
  lemma DefaultTextLayout()
    ensures var s := DefaultStyle();
      && GetEnum(s, "text-decoration") == TextDecorationNone
      && GetEnum(s, "text-transform") == TextTransformNone
      && GetEnum(s, "text-position") == TextPositionCenter
  {
  }

  /**
   * The table left behind by inserting every entry of `top` into `base` with
   * `g_hash_table_insert`: each name of `top` takes its value from `top`, and
   * every other name of `base` keeps its value.
   */
  function Overlay(base: Style, top: Style): (r: Style)
    ensures r.Keys == base.Keys + top.Keys
    ensures forall k :: k in top ==> r[k] == top[k]
    ensures forall k :: k in base && k !in top ==> r[k] == base[k]
  {
    base + top
  }

  /**
   * The insertion loop itself, visiting the names of `top` in an arbitrary
   * order as a hash-table walk does.
   */
  method InsertAll(base: Style, top: Style) returns (r: Style)
    ensures r == Overlay(base, top)
  {
    r := base;
    var rest := top.Keys;
    while rest != {}
      invariant rest <= top.Keys
      invariant r.Keys == base.Keys + (top.Keys - rest)
      invariant forall k :: k in top && k !in rest ==> r[k] == top[k]
      invariant forall k :: k in base && (k !in top || k in rest) ==> r[k] == base[k]
      decreases rest
    {
      var k :| k in rest;
      r := Insert(r, k, top[k]);
      rest := rest - {k};
    }
  }

  /** Inserting the same table twice leaves what inserting it once does. */
  lemma OverlayIdempotent(base: Style, top: Style)
    ensures Overlay(Overlay(base, top), top) == Overlay(base, top)
  {
  }

  /** A getter returns exactly what the matching helper last inserted under that name. */
  lemma GetAfterAdd(style: Style, name: string, num: real, color: Color, dash: Dash, e: int, str: string)
    ensures GetNum(AddNum(style, name, num), name) == num
    ensures GetColor(AddColor(style, name, color), name) == Some(color)
    ensures GetDash(AddDashes(style, name, dash), name) == Some(dash)
    ensures GetEnum(AddEnum(style, name, e), name) == e
    ensures GetStr(AddStr(style, name, str), name) == Some(str)
  {
  }

  /** Inserting under one name leaves what the getters read under every other name unchanged. */
  lemma AddKeepsOthers(style: Style, name: string, other: string, value: Value)
    requires other != name
    ensures other in Insert(style, name, value) <==> other in style
    ensures other in style ==> Insert(style, name, value)[other] == style[other]
  {
  }

  /** The sentinels a getter returns for a name the style does not hold. */
  lemma AbsentSentinels(style: Style, name: string)
    requires name !in style
    ensures GetNum(style, name) == -MaxDouble
    ensures GetColor(style, name) == None
    ensures GetDash(style, name) == None
    ensures GetEnum(style, name) == -1
    ensures GetStr(style, name) == None
  {
  }
}
