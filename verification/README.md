# vector-tile-glib: the MapCSS cascade, the style table and the geometry decoder in Dafny

This project models three parts of vector-tile-glib, a GLib library that
renders Mapbox vector tiles with MapCSS stylesheets:

- **The MapCSS cascade engine** (`vector-tile-mapcss.c`, `vector-tile-mapcss-selector.c`).
  A stylesheet keeps one insertion-ordered queue of selectors per selector kind.
  - `add_selector` appends a selector to its kind's queue. When an equal selector is already queued, it merges the new declarations into that earlier selector instead.
  - `get_style` starts from the default style. It folds the kind's queue over it, overwriting the declared properties of every selector that passes the zoom check and the tag tests.
  - The token loop of the parser drives an abstract grammar.
- **The style table** (`vector-tile-mapcss-style.c`). This covers the 25 defaults, the typed insertion helpers, and the typed getters with their sentinels for absent names.
- **The geometry command decoder** (`vector-tile-mapbox.c`).
  - This covers the `ZIGZAG_DECODE` macro and the command and parameter loop of `mapbox_render_feature`. The cairo path calls are emitted as path operations.
  - It also covers the encoding documented in the comment above that loop (the Mapbox Vector Tile geometry encoding).

Modules, one per component:

| file | module | models |
|---|---|---|
| `wrappers.dfy` | `Wrappers` | `Option`, standing for a nullable pointer |
| `values.dfy` | `Values` | the typed value union, colours and dash patterns |
| `style.dfy` | `Styles` | style tables, the default table, the insertion helpers and the getters |
| `selector.dfy` | `Selectors` | selectors, `test_in_list`, `selector_equals`, `selector_merge`, the constructor and the getters |
| `cascade.dfy` | `Cascade` | tag tests, zoom checks, `get_style`, `add_selector` and `get_num_styles` |
| `parser.dfy` | `ParseDriver` | the token loop of `vtile_mapcss_parse` |
| `bits.dfy` | `Bits` | `guint32`/`gint32` conversions and bitwise and, or and xor, defined bit by bit |
| `zigzag.dfy` | `Zigzag` | zigzag decoding and encoding of 32-bit parameters |
| `geometry.dfy` | `Geometry` | command integers, the decoder loop, the paint step and the documented example |
| `scenarios.dfy` | `Scenarios` | small concrete stylesheets that exercise the cascade |

Modelling choices:
- **Selector kind.** It is a type parameter `K`. The stylesheet keys its queues by a name, while a selector stores an enumerator. The function that maps one to the other (`vtile_mapcss_selector_get_name`) is declared in a header but is not part of this model, so a selector's queue key is taken to be its kind.
- **Null pointers.** Nullable pointers become `Option`.
  - A `GList` of tests is NULL exactly when it is empty, so it is a `seq`.
  - The tag table of a feature may be NULL, which behaves as a table without tags.
  - `g_strcmp0` treats two NULLs as equal.
- **Zoom bounds.** They are stored as `gint` but compared through a `guint` pointer. `MatchZoom` therefore compares their unsigned 32-bit reinterpretations.
- **C integer arithmetic.** The decoder states the C expressions arithmetically:
  - the command id is `v % 8`;
  - the repeat count is `v / 8`;
  - zigzag coding is defined by parity and sign.

  Lemmas prove each of these equal to the bitwise C expression. That expression is computed bit by bit by `Bits.Apply` on the 32-bit patterns.
- **Hash-table walk order.** It is unspecified in C.
  - `InsertAll` picks the names in an arbitrary order.
  - `GetNumStyles` takes the key order as a parameter.

The code merges equal selectors at insertion time (`vector-tile-mapcss.c:308-316`), and this model follows it. `Scenarios.MergeTakesEffectEarlier` shows the consequence. The merged declarations take effect at the earlier selector's position, so a selector queued between the two still overrides them. Merging also leaves the selector count unchanged (`Cascade.AddCount`).

## Model

| member | source | states |
|---|---|---|
| Zigzag.Decode | src/vector-tile-mapbox.c:24 | the decoded value of every 32-bit code lies in the signed 32-bit range |
| Zigzag.DecodeBits | src/vector-tile-mapbox.c:24 | the bit expression of `ZIGZAG_DECODE`, stored in a `gint32`, gives a value in the signed 32-bit range for every 32-bit code |
| Zigzag.DecodeBitsValue | src/vector-tile-mapbox.c:24 | `ZIGZAG_DECODE(v)`, evaluated on the `guint32` bit pattern and stored in a `gint32`, is v/2 for even v and -(v+1)/2 for odd v, for every v below 2^32 |
| Zigzag.EncodeBitsValue | src/vector-tile-mapbox.c:162-166 | the documented `(n << 1) ^ (n >> 31)` is 2n for non-negative and -2n-1 for negative signed 32-bit n |
| Zigzag.DecodeEncode | src/vector-tile-mapbox.c:162-166 | decoding inverts the zigzag encoding on every signed 32-bit value |
| Zigzag.DecodeEncodeBits | src/vector-tile-mapbox.c:162-166 | the `ZIGZAG_DECODE` macro inverts the documented bit expression on every signed 32-bit value |
| Zigzag.EncodeDecode | src/vector-tile-mapbox.c:24 | every 32-bit code is the encoding of the value it decodes to, so decoding is a bijection onto the signed 32-bit range |
| Zigzag.EncodeDecodeBits | src/vector-tile-mapbox.c:24 | the documented bit expression gives back every 32-bit code from its `ZIGZAG_DECODE` value |
| Geometry.CommandId | src/vector-tile-mapbox.c:196 | the command id of any 32-bit command integer is below 8 |
| Geometry.RepeatCount | src/vector-tile-mapbox.c:197 | the repeat count of any 32-bit command integer is below 2^29 |
| Geometry.CommandIdIsMask | src/vector-tile-mapbox.c:196 | the command id v % 8 is `v & 7` on the 32-bit pattern |
| Geometry.RepeatCountIsShift | src/vector-tile-mapbox.c:197 | the repeat count v / 8 is `v >> 3` |
| Geometry.CommandIntegerIsOr | src/vector-tile-mapbox.c:151-159 | packing id + 8 * count equals `id \| (count << 3)`, because the bits do not overlap |
| Geometry.CommandSplit | src/vector-tile-mapbox.c:196-197 | every command integer splits into an id below 8 and a count below 2^29 that pack back to it |
| Geometry.CommandRoundTrip | src/vector-tile-mapbox.c:151-159 | unpacking a packed id and count gives both back |
| Geometry.PairOps | src/vector-tile-mapbox.c:202-215 | a MoveTo or LineTo with repeat count n draws exactly n relative operations |
| Geometry.CommandCountBound | src/vector-tile-mapbox.c:222-223 | a parsed stream holds at most as many commands as integers, and none exactly when it is empty |
| Geometry.DecodePairs | src/vector-tile-mapbox.c:202-215 | the inner loop reads 2n parameters with pre-increments, stays inside the stream, and draws the zigzag-decoded pairs as MoveBy or LineBy |
| Geometry.DecodeCommand | src/vector-tile-mapbox.c:195-222 | MoveTo and LineTo consume 2 * count parameters; every other id draws one Close and consumes none; the index then moves past the command |
| Geometry.DecodeGeometry | src/vector-tile-mapbox.c:179-223 | on a non-empty stream whose every command has its parameters, the do-while loop reads only indices below the length, runs between 1 and |g| times, and draws the reference decoding |
| Geometry.FinishPath | src/vector-tile-mapbox.c:225-230 | a polygon is stroked with the path preserved and then filled; every other geometry type is only stroked |
| Geometry.DecodeEncodeOp | src/vector-tile-mapbox.c:151-166 | one encoded operation parses as one command and decodes back to itself |
| Geometry.DecodeEncode | src/vector-tile-mapbox.c:151-166 | decoding inverts the encoding of any operation list, and that encoding is well formed exactly when the list is non-empty |
| Geometry.Vertices | src/vector-tile-mapbox.c:168-178 | the absolute points reached are at most one per operation |
| Geometry.DocumentedExample | src/vector-tile-mapbox.c:168-190 | [9 6 12 18 10 12 24 44 15] is well formed and decodes to MoveBy(3,6), LineBy(5,6), LineBy(12,22), Close, reaching (3,6), (8,12), (20,34) from the origin |
| Styles.Insert | src/vector-tile-mapcss-style.c:15 | after an insertion the name maps to the new value, replacing any old one, and every other entry is kept |
| Styles.AddNum | src/vector-tile-mapcss-style.c:6-16 | the inserted value carries the NUMBER tag |
| Styles.AddColor | src/vector-tile-mapcss-style.c:18-28 | the inserted value carries the COLOR tag |
| Styles.AddDashes | src/vector-tile-mapcss-style.c:30-40 | the inserted value carries the DASH tag |
| Styles.AddEnum | src/vector-tile-mapcss-style.c:42-52 | the inserted value carries the ENUM tag |
| Styles.AddStr | src/vector-tile-mapcss-style.c:54-64 | the inserted value carries the STRING tag |
| Styles.DefaultNamesExactly | src/vector-tile-mapcss-style.c:138-215 | the default table holds exactly the 25 documented property names, each once |
| Styles.DefaultLineNumbers | src/vector-tile-mapcss-style.c:148-150 | width is 1, z-index 0 and opacity 1 by default |
| Styles.DefaultFillNumbers | src/vector-tile-mapcss-style.c:151-153 | fill-opacity and casing-opacity are 1 and casing-width is 0 by default |
| Styles.DefaultTextNumbers | src/vector-tile-mapcss-style.c:185-212 | font-size is 12, text-opacity 1, and text-offset and text-halo-radius 0 by default |
| Styles.DefaultColors | src/vector-tile-mapcss-style.c:155-172 | fill-color is grey (0.5, 0.5, 0.5); color and casing-color are black |
| Styles.DefaultTextColors | src/vector-tile-mapcss-style.c:198-209 | text-color and text-halo-color are black |
| Styles.DefaultLineShape | src/vector-tile-mapcss-style.c:173-182 | dashes holds four zero lengths with no dash in use, linecap is NONE and linejoin is ROUND |
| Styles.DefaultFont | src/vector-tile-mapcss-style.c:184-191 | font-family is "DejaVu"; font-weight, font-style and font-variant are NORMAL |
| Styles.DefaultTextLayout | src/vector-tile-mapcss-style.c:192-197 | text-decoration and text-transform are NONE and text-position is CENTER |
| Styles.GetAfterAdd | src/vector-tile-mapcss-style.c:72-136 | each getter returns exactly the value its helper last stored under the name |
| Styles.AddKeepsOthers | src/vector-tile-mapcss-style.c:15 | an insertion changes nothing a getter reads under any other name |
| Styles.AbsentSentinels | src/vector-tile-mapcss-style.c:72-136 | for an absent name, get_num gives -G_MAXDOUBLE, get_enum gives -1, and get_color, get_dash and get_str give NULL |
| Styles.Overlay | src/vector-tile-mapcss.c:333-340 | inserting every entry of one table into another gives each of its names its value and keeps every other name's value |
| Styles.InsertAll | src/vector-tile-mapcss.c:333-340 | the insertion loop, in any key order, leaves that overlay |
| Styles.OverlayIdempotent | src/vector-tile-mapcss-selector.c:143-153 | inserting the same table twice is the same as inserting it once |
| Selectors.SameString | src/vector-tile-mapcss-selector.c:95-99 | `g_strcmp0` reports equality exactly for two NULLs or two equal strings |
| Selectors.New | src/vector-tile-mapcss-selector.c:67-81 | a new selector stores the given kind, tests and zoom range unchanged, with no declarations |
| Selectors.AddDeclarations | src/vector-tile-mapcss-selector.c:155-163 | a table replaces the declarations; NULL leaves the selector unchanged |
| Selectors.GettersReturnStored | src/vector-tile-mapcss-selector.c:165-187 | the getters return exactly the stored kind, tests, range and declarations |
| Selectors.TestInList | src/vector-tile-mapcss-selector.c:84-105 | true exactly when some element has the same operator, tag and value (two NULL values equal); false on an empty list |
| Selectors.SelectorEquals | src/vector-tile-mapcss-selector.c:107-141 | true exactly when the kinds match, the ranges match (both absent, or both present with equal bounds), the test lists have the same length and every test of a occurs in b |
| Selectors.EqualsReflexive | src/vector-tile-mapcss-selector.c:107-141 | every selector equals itself |
| Selectors.EqualsNeedsSameKindAndZoom | src/vector-tile-mapcss-selector.c:113-123 | different kinds or different zoom ranges are never equal |
| Selectors.EqualsIgnoresTestOrder | src/vector-tile-mapcss-selector.c:125-138 | permuting either selector's tests does not change the answer |
| Selectors.EqualsNotSymmetric | src/vector-tile-mapcss-selector.c:125-138 | [x, x] equals [x, y] but [x, y] does not equal [x, x]: equality is not symmetric when a test repeats |
| Selectors.Merge | src/vector-tile-mapcss-selector.c:143-153 | after a merge, a's declarations map every name of b to b's value and every other name to its old value; kind, tests and range are unchanged |
| Selectors.MergeIdempotent | src/vector-tile-mapcss-selector.c:143-153 | merging the same selector twice gives what merging it once gives |
| Cascade.TestPasses | src/vector-tile-mapcss.c:361-385 | IsSet passes iff the tag is present, IsNotSet iff it is absent, Equals iff it is present with the value, NotEquals iff it is present with another value, so an absent tag fails NotEquals |
| Cascade.NullTagsPassOnlyIsNotSet | src/vector-tile-mapcss.c:356-385 | with a NULL tag table only IsNotSet passes |
| Cascade.MatchTests | src/vector-tile-mapcss.c:343-389 | a selector matches exactly when every one of its tests passes; an empty test list matches any tag table, NULL included |
| Cascade.MatchZoom | src/vector-tile-mapcss.c:391-402 | a selector without a range matches every level; a range with non-negative bounds [lo, hi] matches z exactly when lo <= z <= hi; bounds are read as unsigned, so a negative bound b acts as b + 2^32: a negative lower bound with a non-negative upper bound matches nothing, a negative upper bound with a non-negative lower bound no longer limits levels below 2^31, and two negative bounds match z exactly when lo + 2^32 <= z <= hi + 2^32 |
| Cascade.LastDeclaring | src/vector-tile-mapcss.c:418-423 | finds the last selector of the queue that applies and declares the property, or reports that none does |
| Cascade.LastMatchWins | src/vector-tile-mapcss.c:414-423 | each property takes the value of the last applying selector that declares it; a property no such selector declares keeps its base value or stays absent |
| Cascade.NothingAppliesKeepsBase | src/vector-tile-mapcss.c:414-426 | when no selector of the queue applies, the result is exactly the base style |
| Cascade.GetStyle | src/vector-tile-mapcss.c:404-427 | the loop computes the in-order fold of the kind's queue over the default style, and gives exactly the defaults for a kind without a queue |
| Cascade.FirstEqual | src/vector-tile-mapcss.c:308-316 | finds the first queued selector equal to the new one, or reports that none is |
| Cascade.Add | src/vector-tile-mapcss.c:291-320 | the kind gets a queue; with no equal selector the new one joins the tail, otherwise the first equal one absorbs its declarations in place, so the length and order are kept; other queues are untouched |
| Cascade.AddSelector | src/vector-tile-mapcss.c:291-320 | the lookup, scan, merge-or-push loop computes that stylesheet |
| Cascade.SumQueuesRemove | src/vector-tile-mapcss.c:435-441 | the sum of queue lengths does not depend on the order the kinds are visited in |
| Cascade.GetNumStyles | src/vector-tile-mapcss.c:429-444 | the count is the total number of queued selectors, whatever order the kinds are listed in |
| Cascade.AddCount | src/vector-tile-mapcss.c:301-319 | each add raises the total by exactly 1 when it appends and by 0 when it merges |
| Cascade.NullTagsKeepBase | src/vector-tile-mapcss.c:358-385 | with a NULL tag table, a queue whose every selector has a test other than IsNotSet leaves the base style unchanged |
| ParseDriver.Parse | src/vector-tile-mapcss.c:179-196 | the loop feeds at least one token, and stops at the first end-of-input token or the first token after which an error is recorded. It fails exactly when an error is recorded, the position reported is that of the last token fed, and an error already recorded on entry stops it after one token |
| Scenarios.MergeTakesEffectEarlier | src/vector-tile-mapcss.c:308-319 | a selector equal to an earlier one is merged into it, so a selector queued between them still overrides its width, and the queue does not grow |
| Scenarios.KindSheetQueues | test/test-mapcss-parse.c:27-73 | four rules for canvas, way, way[area=yes] and node give three queues, with the two way rules in order |
| Scenarios.CanvasWidth | test/test-mapcss-parse.c:40-46 | the canvas style gets width 2 |
| Scenarios.UntaggedWayWidth | test/test-mapcss-parse.c:48-54 | a way without tags gets width 3 |
| Scenarios.TaggedWayWidth | test/test-mapcss-parse.c:56-62 | a way tagged area=yes gets width 4 from the later, tagged rule |
| Scenarios.NodeWidth | test/test-mapcss-parse.c:64-70 | the node style gets width 5 |
| Scenarios.NullTagsDefaultWidth | test/test-mapcss-parse.c:159-164 | without tags, a queue whose selectors all test tags leaves the default width 1 |

## Left out

- Loading a stylesheet file (`vtile_mapcss_load`) is GIO file I/O. The model starts from the token sequence.
- The flex lexer and the lemon grammar are not part of this model. `ParseDriver.Parse` takes the grammar as an arbitrary step function from parser state and token to next state plus error flag.
- The grammar actions that build selectors are left out for the same reason. A stylesheet is built by `Cascade.Add` calls.
- GObject class, property and finalize boilerplate is left out, as are reference counting and freeing. The error messages built with `g_strdup_printf` are reduced to the error flag and the token position.
- `vtile_mapcss_selector_get_name` is not part of this model. The queue key of a selector is its kind.
- In C, `selector_merge` and `apply_selector` dereference the declarations table, so a selector that never received one would crash there. The model gives every selector a table, empty at first.
- The numeric codes of the line-cap, line-join, font and text enumerators come from a header that is not part of this model. They are left as unspecified constants, and the defaults are stated in terms of them.
- Cairo drawing is left out. So are the floating-point scale `tile_size / extent`, the per-layer colour table of `mapbox_feature_set_style`, and protobuf unpacking of tiles. These are rendering, floating point and a generated foreign library.
- The value, test, boxed and declaration source files only allocate, copy and free. In an immutable model a value copy is the identity.
- Numbers are `real`. They are only stored and compared, never computed with. -G_MAXDOUBLE is the exact value -(2^1024 - 2^971).
- Cascade.GetNumStyles: the `gint` counter is unbounded here. With 2^31 or more queued selectors the C counter would overflow.
- Geometry.Vertices: its contract only bounds the number of points. The exact points are pinned for the documented stream by `Geometry.DocumentedExample`. Cairo's current-point bookkeeping is not modelled further.
- Selectors.Merge: the model treats declaration tables as values. In the source a selector keeps a reference to the caller's table (`vector-tile-mapcss-selector.c:161-162`) and a merge inserts into that table in place (`vector-tile-mapcss-selector.c:150-152`), so every other holder of the same table, such as the members of one selector list, sees the merged declarations too. This aliasing is not modelled.
- The scenario stylesheets are small reconstructions. The test suite's stylesheet files are not part of this model, so `Scenarios` builds stylesheets that give the widths the tests expect. The zoom-range test file is not reconstructed; `Cascade.MatchZoom` states the rule it checks.
