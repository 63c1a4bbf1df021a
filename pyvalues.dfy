/**
 * The Python values that reach the response normaliser and the JSON
 * provider: what zeep's `serialize_object` hands over, lxml elements found
 * inside a response, and the standard-library scalar types the normaliser
 * switches on.
 */
module PyValues {

  import opened Wrappers

  /** An lxml element: Clark-notation tag, optional text, attributes, child elements. */
  datatype Element = Element(tag: string, text: Option<string>, attrib: map<string, string>, children: seq<Element>)

  /** `datetime.date`, `datetime.datetime` and `datetime.time` values. */
  datatype Temporal =
    | Date(year: int, month: int, day: int)
    | DateTime(year: int, month: int, day: int, hour: int, minute: int, second: int, micro: int, utcOffset: Option<int>)
    | TimeOfDay(hour: int, minute: int, second: int, micro: int, utcOffset: Option<int>)

  /** `datetime.timedelta`, in Python's normalised form (`seconds` < 86400, `microseconds` < 10**6). */
  datatype Duration = Duration(days: int, seconds: nat, microseconds: nat)

  /** `decimal.Decimal` as sign, coefficient and exponent. */
  datatype Decimal = Decimal(negative: bool, coefficient: nat, exponent: int)

  /** An IEEE-754 double, kept as its bit pattern. */
  datatype Float = Float(bits: bv64)

  datatype PyValue =
    | PNone
    | PBool(b: bool)
    | PInt(i: int)
    | PFloat(f: Float)
    | PStr(s: string)
    | PBytes(bytes: seq<bv8>)
    | PDecimal(d: Decimal)
    | PTemporal(t: Temporal)
    | PDuration(dur: Duration)
    | PList(items: seq<PyValue>)
    | PTuple(items: seq<PyValue>)
    | PDict(entries: map<string, PyValue>)
      /** A `set`, given by its members in iteration order. */
    | PSet(members: seq<PyValue>)
    | PElement(e: Element)
      /** Any other object, e.g. a zeep value the helpers left alone. */
    | PObject(className: string)

  /**
   * The library behaviour the normaliser delegates to and that this model
   * does not reproduce: `isoformat()`, `str(timedelta)`, `float(Decimal)`,
   * `bytes.decode("utf-8", errors="replace")` and `str(o)` of other objects.
   */
  datatype PyLib = PyLib(
    isoformat: Temporal -> string,
    durationText: Duration -> string,
    decimalToFloat: Decimal -> Float,
    decodeUtf8: seq<bv8> -> string,
    str: PyValue -> string)
}
