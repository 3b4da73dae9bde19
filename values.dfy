/**
 * The two value worlds the converter translates between, and its errors.
 *
 * GoValue is the closed set of dynamic Go values the converter dispatches on
 * (a type switch followed by reflection); CFObject is the closed set of
 * CoreFoundation property-list objects it creates or reads.
 */
module Values {

  newtype byte = x: int | 0 <= x < 256

  /** math.MaxUint32: CFData's length is checked against it before creation. */
  const MaxUint32: int := 0xFFFF_FFFF

  /** Seconds between the Unix epoch (1970) and the CF absolute-time epoch (2001). */
  const UnixToCFEpoch: int := 978307200

  /** The IEEE-754 bit pattern of a float64; payloads are compared by bit equality. */
  type FloatBits = bv64

  /** Go's `f != 0` on a float64 is false exactly for +0.0 and -0.0. */
  predicate IsZeroFloat(f: FloatBits)
  {
    f & 0x7FFF_FFFF_FFFF_FFFF == 0
  }

  /** The integer kinds of the numeric case of the type switch. */
  datatype IntKind = Int | Int8 | Int16 | Int32 | Int64 | Uint | Uint8 | Uint16 | Uint32 | Uint64

  predicate IsSigned(k: IntKind)
  {
    k.Int? || k.Int8? || k.Int16? || k.Int32? || k.Int64?
  }

  datatype FloatKind = Float32 | Float64

  /**
   * The element type of a slice or a string-keyed map: `interface{}` (the
   * types `[]interface{}` and `map[string]interface{}`), or some other type,
   * named as `%T` prints the whole value's type.
   */
  datatype Container = Interface | Typed(typeName: string)

  /**
   * A Go dynamic value. GoTime keeps Unix seconds, the nanosecond part and
   * whether its location is UTC; GoFloat keeps the float64 value (a float32
   * widens to float64 exactly, so its bits are those of the widened value).
   * GoOther is any value whose type has no conversion rule.
   */
  datatype GoValue =
    | GoNil
    | GoString(s: string)
    | GoBytes(bytes: seq<byte>)
    | GoBool(b: bool)
    | GoTime(unix: int, nanos: nat, utc: bool)
    | GoInt(kind: IntKind, i: int)
    | GoFloat(fkind: FloatKind, f: FloatBits)
    | GoSlice(elem: Container, items: seq<GoValue>)
    | GoMap(valueType: Container, entries: map<string, GoValue>)
    | GoOther(typeName: string)

  /** What `%T` prints for a value, as used in "unsupported type: %T". */
  function TypeName(v: GoValue): string
  {
    match v
    case GoNil => "<nil>"
    case GoString(_) => "string"
    case GoBytes(_) => "[]uint8"
    case GoBool(_) => "bool"
    case GoTime(_, _, _) => "time.Time"
    case GoInt(k, _) => IntKindName(k)
    case GoFloat(k, _) => if k.Float32? then "float32" else "float64"
    case GoSlice(Interface, _) => "[]interface {}"
    case GoSlice(Typed(n), _) => n
    case GoMap(Interface, _) => "map[string]interface {}"
    case GoMap(Typed(n), _) => n
    case GoOther(n) => n
  }

  function IntKindName(k: IntKind): string
  {
    match k
    case Int => "int"
    case Int8 => "int8"
    case Int16 => "int16"
    case Int32 => "int32"
    case Int64 => "int64"
    case Uint => "uint"
    case Uint8 => "uint8"
    case Uint16 => "uint16"
    case Uint32 => "uint32"
    case Uint64 => "uint64"
  }

  /** The CFNumberType tags that the decoders list as integer types. */
  datatype IntegerType =
    | SInt8Type | SInt16Type | SInt32Type | SInt64Type
    | CharType | ShortType | IntType | LongType | LongLongType
    | CFIndexType | NSIntegerType

  /** The floating CFNumberType tags; CGFloatType is the one no decoder lists. */
  datatype FloatingType = Float32Type | Float64Type | FloatType | DoubleType | CGFloatType

  /**
   * A CoreFoundation object as a value. CFDate holds its absolute time
   * (seconds since 2001-01-01T00:00:00Z); CFOther is any type ID the
   * decoders do not switch on.
   */
  datatype CFObject =
    | CFString(s: string)
    | CFData(bytes: seq<byte>)
    | CFBoolean(b: bool)
    | CFDate(absolute: real)
    | CFInteger(itype: IntegerType, i: int)
    | CFReal(ftype: FloatingType, d: FloatBits)
    | CFArray(items: seq<CFObject>)
    | CFDictionary(entries: map<string, CFObject>)
    | CFOther(typeID: nat)

  /**
   * The ways the conversion code stops abnormally. The first three are Go
   * run-time panics, which unwind and run the deferred calls; the last is a
   * CoreFoundation trap that ends the process, so nothing runs after it.
   */
  datatype PanicReason =
    | IntOnUnsigned(kind: IntKind)        // reflect.Value.Int on an unsigned kind
    | MapTypeAssertion(typeName: string)  // .(map[string]interface{}) on another map type
    | IndexOutOfRange                     // &s[0] on an empty slice
    | RetainNull                          // CFArrayCreate/CFDictionaryCreate retaining a NULL member: an abort

  /**
   * A conversion error, one constructor per message the code formats.
   * The wrapping constructors carry the error they wrap (`%v`).
   */
  datatype ConvError =
    | StringCreateFailed                             // "CFStringCreateWithCString failed"
    | DataTooLarge                                   // "data is too large"
    | DataCreateFailed                               // "CFDataCreate failed"
    | DictionaryCreateFailed                         // "CFDictionaryCreate failed"
    | UnsupportedType(typeName: string)              // "unsupported type: %T"
    | UnsupportedNumberType                          // "unsupported CFNumber type"
    | UnsupportedCFType                              // "unsupported CFTypeRef type"
    | KeyToCFString(cause: ConvError)                // "error converting key to CFString: %v"
    | ValueForKey(key: string, cause: ConvError)     // "error converting value for key %s: %v"
    | ArrayItem(index: nat, cause: ConvError)        // "error converting array item at index %d: %v"
    | MapToDictionary(cause: ConvError)              // "error converting map to CFDictionary: %v"
    | DictionaryValue(key: string, cause: ConvError) // "error converting dictionary value for key %s: %v"
    | Panic(reason: PanicReason)                     // a run-time panic, never wrapped

  /**
   * The outcome of a conversion. Go map iteration order is unspecified, so a
   * failing conversion is described by the set of errors it may report.
   */
  datatype Result<T> = Success(value: T) | Failure(errors: set<ConvError>)

  datatype Option<T> = None | Some(value: T)

  // Wrapping an error with context; a panic unwinds past every wrapper.

  function AtIndex(i: nat, e: ConvError): ConvError
  {
    if e.Panic? then e else ArrayItem(i, e)
  }

  function ForKey(k: string, e: ConvError): ConvError
  {
    if e.Panic? then e else ValueForKey(k, e)
  }

  function ForDictionaryKey(k: string, e: ConvError): ConvError
  {
    if e.Panic? then e else DictionaryValue(k, e)
  }

  function ForMap(e: ConvError): ConvError
  {
    if e.Panic? then e else MapToDictionary(e)
  }

  /** The index of the first failed result, or |rs| when every one succeeded. */
  function FirstFailure<T>(rs: seq<Result<T>>): (i: nat)
    ensures i <= |rs|
    ensures forall j :: 0 <= j < i ==> rs[j].Success?
    ensures i < |rs| ==> rs[i].Failure?
  {
    if |rs| == 0 then 0
    else if rs[0].Failure? then 0
    else 1 + FirstFailure(rs[1..])
  }

  /** The first failure is the only index meeting both halves of its contract. */
  lemma FirstFailureUnique<T>(rs: seq<Result<T>>, i: nat)
    requires i <= |rs|
    requires forall j :: 0 <= j < i ==> rs[j].Success?
    requires i < |rs| ==> rs[i].Failure?
    ensures FirstFailure(rs) == i
  {
  }

  /** Map extensionality, stated once for the solver. */
  lemma MapsEqual<K, V>(a: map<K, V>, b: map<K, V>)
    requires forall x :: x in a ==> x in b && a[x] == b[x]
    requires forall x :: x in b ==> x in a
    ensures a == b
  {
  }
}
