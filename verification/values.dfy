/**
 * The typed property values of the MapCSS engine: the tagged union of
 * vector-tile-mapcss-value.h and the colour and dash records of
 * vector-tile-boxed.h.
 */
module Values {

  /** An RGB colour; the components are documented to lie between 0.0 and 1.0. */
  datatype Color = Color(r: real, g: real, b: real)

  /** A dash pattern as C stores it: a fixed array of four lengths and the number in use. */
  datatype DashPattern = DashPattern(dashes: seq<real>, count: int)

  /** A dash pattern holds at most four on/off lengths. */
  type Dash = d: DashPattern | |d.dashes| == 4 && 0 <= d.count <= 4
    witness DashPattern([0.0, 0.0, 0.0, 0.0], 0)

  /** The type tag of a value, in the order of the C enumeration. */
  datatype ValueType = ColorType | NumberType | StringType | DashType | EnumType

  /** A property value: the C struct's tag together with the union member it selects. */
  datatype Value =
    | ColorValue(color: Color)
    | NumberValue(num: real)
    | StringValue(str: string)
    | DashValue(dash: Dash)
    | EnumValue(enumValue: int)

  /** The type tag stored beside the union. */
  function TypeOf(v: Value): ValueType {
    match v
    case ColorValue(_) => ColorType
    case NumberValue(_) => NumberType
    case StringValue(_) => StringType
    case DashValue(_) => DashType
    case EnumValue(_) => EnumType
  }
}
