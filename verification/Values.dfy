/** Go's dynamically typed values (`any`), as far as the SDK's store and sensors look at them. */
module GoValues {
  datatype Option<+T> = None | Some(value: T)

  datatype IntKind =
    | Int | Int8 | Int16 | Int32 | Int64
    | Uint | Uint8 | Uint16 | Uint32 | Uint64

  const MAX_INT64: int := 0x7FFF_FFFF_FFFF_FFFF
  const MIN_INT64: int := -0x8000_0000_0000_0000
  const MAX_UINT64: int := 0xFFFF_FFFF_FFFF_FFFF

  /** The first magnitude at which a float64 no longer holds every integer. */
  const TWO_53: nat := 0x20_0000_0000_0000

  predicate Fits(kind: IntKind, n: int) {
    match kind
    case Int => MIN_INT64 <= n <= MAX_INT64
    case Int8 => -0x80 <= n < 0x80
    case Int16 => -0x8000 <= n < 0x8000
    case Int32 => -0x8000_0000 <= n < 0x8000_0000
    case Int64 => MIN_INT64 <= n <= MAX_INT64
    case Uint => 0 <= n <= MAX_UINT64
    case Uint8 => 0 <= n < 0x100
    case Uint16 => 0 <= n < 0x1_0000
    case Uint32 => 0 <= n < 0x1_0000_0000
    case Uint64 => 0 <= n <= MAX_UINT64
  }

  datatype Float = Finite(r: real) | PosInf | NegInf | NaN

  /** `wide` tells a float64 from a float32; the value of a float32 is exact in a float64. */
  datatype RawNumber = Integer(kind: IntKind, n: int) | Floating(wide: bool, f: Float)

  type Number = x: RawNumber | x.Integer? ==> Fits(x.kind, x.n) witness Integer(Int64, 0)

  datatype Box = Box(x: real, y: real, width: real, height: real)

  datatype Detection = Detection(labelText: string, confidence: real, box: Option<Box>, attribute: string)

  /** Struct values are leaves: Go compares them with reflect.DeepEqual.
      `tracking` stands for the tracker's fields, which nothing here reads. */
  datatype Record =
    | FaceRecord(detection: Detection, identity: string)
    | TrackedRecord(detection: Detection, tracking: int)

  datatype Val =
    | Nil
    | Bool(b: bool)
    | Str(s: string)
    | Num(num: Number)
    | List(items: seq<Val>)
    | Map(entries: map<string, Val>)
    | Struct(record: Record)

  /** What `m[key]` yields in Go: the zero value of `any` when the key is absent. */
  function Get(m: map<string, Val>, key: string): Val {
    if key in m then m[key] else Nil
  }

  /** Conversion of an integer to float64: exact below 2^53, then to the nearest
      multiple of the unit in the last place, ties to even. */
  function RoundToFloat64(n: int): int {
    if n < 0 then 0 - RoundMagnitude(0 - n, 1) as int else RoundMagnitude(n, 1)
  }

  function RoundMagnitude(m: nat, ulp: nat): nat
    requires ulp > 0
    decreases m - TWO_53 * ulp
  {
    if m < TWO_53 * ulp then RoundHalfEven(m, ulp) * ulp
    else RoundMagnitude(m, 2 * ulp)
  }

  function RoundHalfEven(m: nat, ulp: nat): nat
    requires ulp > 0
  {
    var q, r := m / ulp, m % ulp;
    if 2 * r < ulp || (2 * r == ulp && q % 2 == 0) then q else q + 1
  }

  /** `asNumber` of a value that is a number. */
  function AsFloat64(x: Number): Float {
    match x
    case Integer(_, n) => Finite(RoundToFloat64(n) as real)
    case Floating(_, f) => f
  }

  /** The `==` of float64: NaN equals nothing, itself included. */
  predicate FloatEq(x: Float, y: Float) {
    !x.NaN? && x == y
  }

  /** No NaN anywhere inside the value. */
  predicate NaNFree(v: Val) {
    match v
    case Num(x) => x != Floating(true, NaN) && x != Floating(false, NaN)
    case List(items) => forall i | 0 <= i < |items| :: NaNFree(items[i])
    case Map(entries) => forall k | k in entries :: NaNFree(entries[k])
    case _ => true
  }
}
