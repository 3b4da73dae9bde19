/**
 * The converter of foundation.go: the helpers the preference functions call.
 *
 * Encode and Decode state what convertToCFType and convertFromCFType compute
 * when no CoreFoundation allocation fails; the methods below them follow the
 * Go code step by step over a CFRuntime and are proved against them.
 */
module Foundation {
  import opened Values
  import opened CoreFoundation

  // ---------------------------------------------------------------------
  // Specification
  // ---------------------------------------------------------------------

  /** timeToCFDate: whole Unix seconds moved to the 2001 epoch (t.Unix() drops the nanoseconds). */
  function TimeToAbsolute(t: GoValue): real
    requires t.GoTime?
  {
    (t.unix - UnixToCFEpoch) as real
  }

  /** Go's int64(x) for a float x: truncation toward zero. */
  function Truncate(x: real): (n: int)
    ensures x >= 0.0 ==> n as real <= x < n as real + 1.0
    ensures x < 0.0 ==> n as real - 1.0 < x <= n as real
  {
    if x >= 0.0 then x.Floor else -((-x).Floor)
  }

  /** cfDateToTime: back to Unix seconds, truncated, with no sub-second part, in UTC. */
  function AbsoluteToTime(absolute: real): GoValue
  {
    GoTime(Truncate(absolute + UnixToCFEpoch as real), 0, true)
  }

  /** convertToCFType when every CF allocation succeeds; None is NilCFType. */
  function Encode(v: GoValue): Result<Option<CFObject>>
    decreases v, 1
  {
    match v
    case GoNil => Success(None)
    case GoString(s) => Success(Some(CFString(s)))
    case GoBytes(b) => if |b| > MaxUint32 then Failure({DataTooLarge}) else Success(Some(CFData(b)))
    case GoBool(b) => Success(Some(CFBoolean(b)))
    case GoTime(_, _, _) => Success(Some(CFDate(TimeToAbsolute(v))))
    case GoInt(k, i) =>
      // reflect.Value.Int panics on the unsigned kinds
      if IsSigned(k) then Success(Some(CFInteger(LongLongType, i))) else Failure({Panic(IntOnUnsigned(k))})
    case GoFloat(_, f) => Success(Some(CFReal(DoubleType, f)))
    case GoSlice(_, items) =>
      EncodeArray(seq(|items|, i requires 0 <= i < |items| => Encode(items[i])))
    case GoMap(Interface, _) =>
      EncodeDictionary(EntryEncodings(v))
    case GoMap(Typed(n), _) => Failure({Panic(MapTypeAssertion(n))})
    case GoOther(n) => Failure({UnsupportedType(n)})
  }

  /** convertSliceToCFArray, given the encodings of the elements in index order. */
  function EncodeArray(rs: seq<Result<Option<CFObject>>>): Result<Option<CFObject>>
  {
    var i := FirstFailure(rs);
    if i < |rs| then Failure(set e | e in rs[i].errors :: AtIndex(i, e))
    else if |rs| == 0 then Failure({Panic(IndexOutOfRange)})
    else if exists j :: 0 <= j < |rs| && rs[j].value.None? then Failure({Panic(RetainNull)})
    else Success(Some(CFArray(seq(|rs|, j requires 0 <= j < |rs| => rs[j].value.value))))
  }

  /** The encodings of the values of a string-keyed map, by key. */
  function EntryEncodings(v: GoValue): map<string, Result<Option<CFObject>>>
    requires v.GoMap?
    decreases v, 0
  {
    map k | k in v.entries :: Encode(v.entries[k])
  }

  /**
   * convertMapToCFDictionary followed by mapToCFDictionary, given the
   * encodings of the values. Any failing value can be the first one met.
   */
  function EncodeDictionary(rs: map<string, Result<Option<CFObject>>>): Result<Option<CFObject>>
  {
    if exists k :: k in rs && rs[k].Failure? then
      Failure(set k, e | k in rs && rs[k].Failure? && e in rs[k].errors :: ForKey(k, e))
    else if |rs| == 0 then Failure({Panic(IndexOutOfRange)})
    else if exists k :: k in rs && rs[k].value.None? then Failure({Panic(RetainNull)})
    else Success(Some(CFDictionary(map k | k in rs :: rs[k].value.value)))
  }

  /** convertFromCFType. */
  function Decode(o: CFObject): Result<GoValue>
    decreases o
  {
    match o
    case CFString(s) => Success(GoString(s))
    case CFData(b) => Success(GoBytes(b))
    case CFBoolean(b) => Success(GoBool(b))
    case CFDate(absolute) => Success(AbsoluteToTime(absolute))
    case CFInteger(_, i) => Success(GoInt(Int, i))
    case CFReal(t, d) => if t == CGFloatType then Failure({UnsupportedNumberType}) else Success(GoFloat(Float64, d))
    case CFArray(items) =>
      DecodeArray(seq(|items|, i requires 0 <= i < |items| => Decode(items[i])))
    case CFDictionary(entries) =>
      DecodeDictionary(map k | k in entries :: Decode(entries[k]))
    case CFOther(_) => Failure({UnsupportedCFType})
  }

  /** The array branch of convertFromCFType, given the decodings of the items. */
  function DecodeArray(rs: seq<Result<GoValue>>): Result<GoValue>
  {
    var i := FirstFailure(rs);
    if i < |rs| then Failure(set e | e in rs[i].errors :: AtIndex(i, e))
    else Success(GoSlice(Interface, seq(|rs|, j requires 0 <= j < |rs| => rs[j].value)))
  }

  /** The dictionary branch of convertFromCFType; &keys[0] panics on an empty dictionary. */
  function DecodeDictionary(rs: map<string, Result<GoValue>>): Result<GoValue>
  {
    if |rs| == 0 then Failure({Panic(IndexOutOfRange)})
    else if exists k :: k in rs && rs[k].Failure? then
      Failure(set k, e | k in rs && rs[k].Failure? && e in rs[k].errors :: ForDictionaryKey(k, e))
    else Success(GoMap(Interface, map k | k in rs :: rs[k].value))
  }

  // ---------------------------------------------------------------------
  // Properties of the specification
  // ---------------------------------------------------------------------

  /**
   * What a value becomes after writing and reading back: every integer kind
   * reads back as int, every float as float64, a time as whole seconds in
   * UTC, and every slice and map with interface{} elements.
   */
  function Normal(v: GoValue): GoValue
    decreases v
  {
    match v
    case GoTime(u, _, _) => GoTime(u, 0, true)
    case GoInt(_, i) => GoInt(Int, i)
    case GoFloat(_, f) => GoFloat(Float64, f)
    case GoSlice(_, items) => GoSlice(Interface, seq(|items|, i requires 0 <= i < |items| => Normal(items[i])))
    case GoMap(_, entries) => GoMap(Interface, map k | k in entries :: Normal(entries[k]))
    case _ => v
  }

  /** The values that read back DeepEqual to what was written. */
  predicate RoundTrips(v: GoValue)
    decreases v
  {
    match v
    case GoNil => false
    case GoString(_) => true
    case GoBytes(b) => |b| <= MaxUint32
    case GoBool(_) => true
    case GoTime(_, nanos, utc) => nanos == 0 && utc
    case GoInt(k, _) => k == Int
    case GoFloat(k, _) => k == Float64
    case GoSlice(c, items) =>
      c == Interface && |items| > 0 && forall i :: 0 <= i < |items| ==> RoundTrips(items[i])
    case GoMap(c, entries) =>
      c == Interface && |entries| > 0 && forall k :: k in entries ==> RoundTrips(entries[k])
    case GoOther(_) => false
  }

  /** Decoding what Encode produced gives the normalised value back. */
  lemma {:induction false} DecodeEncode(v: GoValue)
    requires Encode(v).Success? && Encode(v).value.Some?
    ensures Decode(Encode(v).value.value) == Success(Normal(v))
    decreases v, 1
  {
    match v
    case GoSlice(_, items) => DecodeEncodeSlice(v);
    case GoMap(_, entries) => DecodeEncodeMap(v);
    case _ =>
  }

  lemma {:induction false} DecodeEncodeSlice(v: GoValue)
    requires v.GoSlice? && Encode(v).Success? && Encode(v).value.Some?
    ensures Decode(Encode(v).value.value) == Success(Normal(v))
    decreases v, 0
  {
    var items := v.items;
    var rs := seq(|items|, i requires 0 <= i < |items| => Encode(items[i]));
    assert Encode(v) == EncodeArray(rs);
    assert FirstFailure(rs) == |rs|;
    assert forall j :: 0 <= j < |rs| ==> rs[j].Success? && rs[j].value.Some?;
    var os := seq(|rs|, j requires 0 <= j < |rs| => rs[j].value.value);
    assert Encode(v).value.value == CFArray(os);
    var ds := seq(|os|, i requires 0 <= i < |os| => Decode(os[i]));
    forall i | 0 <= i < |items|
      ensures ds[i] == Success(Normal(items[i]))
    {
      assert rs[i] == Encode(items[i]);
      DecodeEncode(items[i]);
    }
    FirstFailureUnique(ds, |ds|);
    assert seq(|ds|, j requires 0 <= j < |ds| => ds[j].value)
        == seq(|items|, i requires 0 <= i < |items| => Normal(items[i]));
  }

  lemma {:induction false} DecodeEncodeMap(v: GoValue)
    requires v.GoMap? && Encode(v).Success? && Encode(v).value.Some?
    ensures Decode(Encode(v).value.value) == Success(Normal(v))
    decreases v, 0
  {
    var entries := v.entries;
    var rs := EntryEncodings(v);
    EncodeDictionarySuccess(rs);
    var os := map k | k in rs :: rs[k].value.value;
    var normal := map k | k in entries :: Normal(entries[k]);
    forall k | k in os
      ensures Decode(os[k]) == Success(normal[k])
    {
      assert rs[k] == Encode(entries[k]);
      DecodeEncode(entries[k]);
    }
    DecodeDictionarySuccess(os, normal);
  }

  /** A successful dictionary encoding has only successful, non-nil values. */
  lemma EncodeDictionarySuccess(rs: map<string, Result<Option<CFObject>>>)
    requires EncodeDictionary(rs).Success?
    ensures |rs| > 0
    ensures forall k :: k in rs ==> rs[k].Success? && rs[k].value.Some?
    ensures EncodeDictionary(rs) == Success(Some(CFDictionary(map k | k in rs :: rs[k].value.value)))
  {
  }

  /** A dictionary whose every value decodes successfully decodes to the map of those values. */
  lemma DecodeDictionarySuccess(os: map<string, CFObject>, m: map<string, GoValue>)
    requires |os| > 0 && os.Keys == m.Keys
    requires forall k :: k in os ==> Decode(os[k]) == Success(m[k])
    ensures Decode(CFDictionary(os)) == Success(GoMap(Interface, m))
  {
    var ds := map k | k in os :: Decode(os[k]);
    assert ds.Keys == os.Keys;
    assert (map k | k in ds :: ds[k].value) == m;
  }

  /** The round-trip values encode, and normalisation leaves them unchanged. */
  lemma {:induction false} RoundTripsNormal(v: GoValue)
    requires RoundTrips(v)
    ensures Encode(v).Success? && Encode(v).value.Some?
    ensures Normal(v) == v
    decreases v
  {
    match v
    case GoSlice(_, items) =>
      var rs := seq(|items|, i requires 0 <= i < |items| => Encode(items[i]));
      forall i | 0 <= i < |items|
        ensures rs[i].Success? && rs[i].value.Some? && Normal(items[i]) == items[i]
      {
        RoundTripsNormal(items[i]);
      }
      FirstFailureUnique(rs, |rs|);
      assert seq(|items|, i requires 0 <= i < |items| => Normal(items[i])) == items;
    case GoMap(_, entries) =>
      forall k | k in entries
        ensures Encode(entries[k]).Success? && Encode(entries[k]).value.Some? && Normal(entries[k]) == entries[k]
      {
        RoundTripsNormal(entries[k]);
      }
      assert (map k | k in entries :: Normal(entries[k])) == entries;
    case _ =>
  }

  /** Writing a round-trip value and reading it back yields exactly that value. */
  lemma RoundTrip(v: GoValue)
    requires RoundTrips(v)
    ensures Encode(v).Success? && Encode(v).value.Some?
    ensures Decode(Encode(v).value.value) == Success(v)
  {
    RoundTripsNormal(v);
    DecodeEncode(v);
  }

  /** nil encodes to NilCFType without error; it has no decode counterpart. */
  lemma NilIsNoObject()
    ensures Encode(GoNil) == Success(None)
  {
  }

  /** A bool encodes to one of the boolean singletons and decodes to itself. */
  lemma BoolRoundTrip(b: bool)
    ensures Encode(GoBool(b)) == Success(Some(CFBoolean(b)))
    ensures Decode(CFBoolean(b)) == Success(GoBool(b))
  {
  }

  /** Byte slices over MaxUint32 fail; all others, the empty one included, read back unchanged. */
  lemma BytesRoundTrip(b: seq<byte>)
    ensures |b| > MaxUint32 ==> Encode(GoBytes(b)) == Failure({DataTooLarge})
    ensures |b| <= MaxUint32 ==> Encode(GoBytes(b)) == Success(Some(CFData(b)))
                                 && Decode(CFData(b)) == Success(GoBytes(b))
  {
  }

  /** Dates keep whole Unix seconds and lose the sub-second part and the location. */
  lemma TimeRoundTrip(unix: int, nanos: nat, utc: bool)
    ensures Encode(GoTime(unix, nanos, utc)) == Success(Some(CFDate((unix - UnixToCFEpoch) as real)))
    ensures AbsoluteToTime(TimeToAbsolute(GoTime(unix, nanos, utc))) == GoTime(unix, 0, true)
  {
    assert TimeToAbsolute(GoTime(unix, nanos, utc)) + UnixToCFEpoch as real == unix as real;
  }

  /** A stored date with a fraction of a second reads back truncated toward zero. */
  lemma DateTruncatesTowardZero(absolute: real)
    ensures AbsoluteToTime(absolute).unix as real <= absolute + UnixToCFEpoch as real < AbsoluteToTime(absolute).unix as real + 1.0
            || AbsoluteToTime(absolute).unix as real - 1.0 < absolute + UnixToCFEpoch as real <= AbsoluteToTime(absolute).unix as real
    ensures absolute + UnixToCFEpoch as real >= 0.0 ==> AbsoluteToTime(absolute).unix as real <= absolute + UnixToCFEpoch as real
    ensures absolute + UnixToCFEpoch as real < 0.0 ==> absolute + UnixToCFEpoch as real <= AbsoluteToTime(absolute).unix as real
  {
  }

  /** Every integer-family tag reads back as a Go int, every listed float tag as float64, CGFloat not at all. */
  lemma NumberDecoding(t: IntegerType, i: int, f: FloatingType, d: FloatBits)
    ensures Decode(CFInteger(t, i)) == Success(GoInt(Int, i))
    ensures f != CGFloatType ==> Decode(CFReal(f, d)) == Success(GoFloat(Float64, d))
    ensures Decode(CFReal(CGFloatType, d)) == Failure({UnsupportedNumberType})
  {
  }

  /** Every CF type the switch does not list is refused. */
  lemma OtherTypesRefused(id: nat)
    ensures Decode(CFOther(id)) == Failure({UnsupportedCFType})
  {
  }

  /** The failing element with the lowest index decides a slice's error, wrapped with that index. */
  lemma {:induction false} SliceFailsAtFirstBadElement(items: seq<GoValue>, c: Container, i: nat)
    requires i < |items| && Encode(items[i]).Failure?
    requires forall j :: 0 <= j < i ==> Encode(items[j]).Success?
    ensures Encode(GoSlice(c, items)) == Failure(set e | e in Encode(items[i]).errors :: AtIndex(i, e))
  {
    var rs := seq(|items|, j requires 0 <= j < |items| => Encode(items[j]));
    FirstFailureUnique(rs, i);
  }

  /** A failing conversion always reports some error. */
  lemma {:induction false} EncodeFailureHasError(v: GoValue)
    requires Encode(v).Failure?
    ensures Encode(v).errors != {}
    decreases v
  {
    match v
    case GoSlice(_, items) =>
      var rs := seq(|items|, j requires 0 <= j < |items| => Encode(items[j]));
      var i := FirstFailure(rs);
      if i < |rs| {
        EncodeFailureHasError(items[i]);
        var e :| e in rs[i].errors;
        assert AtIndex(i, e) in Encode(v).errors;
      }
    case GoMap(Interface, entries) =>
      var rs := map k | k in entries :: Encode(entries[k]);
      if exists k :: k in rs && rs[k].Failure? {
        var k :| k in rs && rs[k].Failure?;
        EncodeFailureHasError(entries[k]);
        var e :| e in rs[k].errors;
        assert ForKey(k, e) in Encode(v).errors;
      }
    case _ =>
  }

  /** An empty slice or map cannot be written: &s[0] panics; an empty CF array reads back fine. */
  lemma EmptyAggregates(c: Container)
    ensures Encode(GoSlice(c, [])) == Failure({Panic(IndexOutOfRange)})
    ensures Encode(GoMap(Interface, map[])) == Failure({Panic(IndexOutOfRange)})
    ensures Decode(CFArray([])) == Success(GoSlice(Interface, []))
    ensures Decode(CFDictionary(map[])) == Failure({Panic(IndexOutOfRange)})
  {
    var none: seq<Result<GoValue>> := [];
    assert FirstFailure(none) == 0;
    assert |DecodeArray(none).value.items| == 0;
    var noItems: seq<CFObject> := [];
    assert Decode(CFArray(noItems)) == DecodeArray(none);
  }

  /**
   * A nil element passes NilCFType to CFArrayCreate, whose retain callback
   * crashes: a slice whose elements all convert, one of them (a nil) to
   * nothing, fails with that panic alone.
   */
  lemma NilElementCrashes(c: Container, items: seq<GoValue>, k: nat)
    requires forall j :: 0 <= j < |items| ==> Encode(items[j]).Success?
    requires k < |items| && Encode(items[k]) == Success(None)
    ensures Encode(GoSlice(c, items)) == Failure({Panic(RetainNull)})
  {
    var rs := seq(|items|, i requires 0 <= i < |items| => Encode(items[i]));
    FirstFailureUnique(rs, |items|);
    assert rs[k].value.None?;
  }

  /** The examples written and read back by the preference tests. */
  lemma TestExamples()
    ensures RoundTrips(GoString("TestValue"))
    ensures RoundTrips(GoInt(Int, 42))
    ensures RoundTrips(GoFloat(Float64, 0x40091EB851EB851F))  // 3.14
    ensures RoundTrips(GoSlice(Interface, [GoString("apple"), GoString("banana"), GoString("cherry")]))
    ensures RoundTrips(GoMap(Interface, map["name" := GoString("John"), "age" := GoInt(Int, 30), "city" := GoString("New York")]))
    ensures RoundTrips(GoTime(1682942400, 0, true))  // 2023-05-01T12:00:00Z
  {
    var fruits := [GoString("apple"), GoString("banana"), GoString("cherry")];
    assert forall i :: 0 <= i < |fruits| ==> RoundTrips(fruits[i]);
  }

  // ---------------------------------------------------------------------
  // The conversion code over a CoreFoundation runtime
  // ---------------------------------------------------------------------

  /** The handle and error a conversion returned are the outcome r describes. */
  ghost predicate Yields(objs: map<Handle, CFObject>, r: Result<Option<CFObject>>, h: Handle, err: Option<ConvError>)
  {
    match r
    case Success(o) =>
      && err.None?
      && (o.None? ==> h == NilRef)
      && (o.Some? ==> h != NilRef && h in objs && objs[h] == o.value)
    case Failure(errors) => err.Some? && err.value in errors && h == NilRef
  }

  /** release: CFRelease unless the reference is NULL. */
  method Release(rt: CFRuntime, ref: Handle)
    requires rt.Valid() && (ref == NilRef || rt.Live(ref))
    modifies rt
    ensures rt.Valid() && rt.objects == old(rt.objects) && rt.next == old(rt.next)
    ensures rt.owned == old(rt.owned) - {ref}
  {
    if ref != NilRef {
      rt.Release(ref);
    }
  }

  /** stringToCFString. */
  method StringToCFString(rt: CFRuntime, s: string) returns (h: Handle, err: Option<ConvError>)
    requires rt.Valid()
    modifies rt
    ensures rt.Valid() && rt.Extends(old(rt.objects), old(rt.owned), old(rt.next))
    ensures rt.next == old(rt.next) + 1
    ensures old(rt.next) in rt.failing ==>
      err == Some(StringCreateFailed) && h == NilRef && rt.objects == old(rt.objects) && rt.owned == old(rt.owned)
    ensures old(rt.next) !in rt.failing ==>
      err.None? && h == old(rt.next) && rt.objects == old(rt.objects)[h := CFString(s)] && rt.owned == old(rt.owned) + {h}
  {
    h := rt.StringCreate(s);
    if h == NilRef {
      err := Some(StringCreateFailed);
    } else {
      err := None;
    }
  }

  /** bytesToCFData: the length check comes before any allocation. */
  method BytesToCFData(rt: CFRuntime, b: seq<byte>) returns (h: Handle, err: Option<ConvError>)
    requires rt.Valid()
    modifies rt
    ensures rt.Valid() && rt.Extends(old(rt.objects), old(rt.owned), old(rt.next))
    ensures |b| > MaxUint32 ==>
      err == Some(DataTooLarge) && h == NilRef && rt.next == old(rt.next)
      && rt.objects == old(rt.objects) && rt.owned == old(rt.owned)
    ensures |b| <= MaxUint32 ==> rt.next == old(rt.next) + 1
    ensures |b| <= MaxUint32 && old(rt.next) in rt.failing ==>
      err == Some(DataCreateFailed) && h == NilRef && rt.objects == old(rt.objects) && rt.owned == old(rt.owned)
    ensures |b| <= MaxUint32 && old(rt.next) !in rt.failing ==>
      err.None? && h == old(rt.next) && rt.objects == old(rt.objects)[h := CFData(b)] && rt.owned == old(rt.owned) + {h}
  {
    if |b| > MaxUint32 {
      return NilRef, Some(DataTooLarge);
    }
    h := rt.DataCreate(b);
    if h == NilRef {
      err := Some(DataCreateFailed);
    } else {
      err := None;
    }
  }

  /** timeToCFDate: no error is reported even when CFDateCreate returns NULL. */
  method TimeToCFDate(rt: CFRuntime, t: GoValue) returns (h: Handle)
    requires rt.Valid() && t.GoTime?
    modifies rt
    ensures rt.Valid() && rt.Extends(old(rt.objects), old(rt.owned), old(rt.next))
    ensures rt.next == old(rt.next) + 1
    ensures h == if old(rt.next) in rt.failing then NilRef else old(rt.next)
    ensures rt.objects == if h == NilRef then old(rt.objects) else old(rt.objects)[h := CFDate(TimeToAbsolute(t))]
    ensures rt.owned == if h == NilRef then old(rt.owned) else old(rt.owned) + {h}
  {
    h := rt.DateCreate((t.unix - UnixToCFEpoch) as real);
  }

  /**
   * convertToCFType. A successful conversion hands back every reference it
   * created, nested ones included: nothing it made is released.
   */
  method ConvertToCFType(rt: CFRuntime, value: GoValue) returns (h: Handle, err: Option<ConvError>)
    requires rt.Valid()
    modifies rt
    decreases value, 3
    ensures rt.Valid() && rt.Extends(old(rt.objects), old(rt.owned), old(rt.next))
    ensures err.Some? ==> h == NilRef
    ensures h != NilRef ==> h in rt.objects && rt.Live(h) && (IsSingleton(h) || old(rt.next) <= h == rt.next - 1)
    ensures err.None? ==> rt.owned == old(rt.owned) + rt.CreatedSince(old(rt.next))
    ensures !value.GoSlice? && !value.GoMap? ==>
      rt.owned == old(rt.owned) + rt.CreatedSince(old(rt.next)) && rt.CreatedSince(old(rt.next)) <= {h}
    ensures value.GoNil? || value.GoBool? ==>
      rt.objects == old(rt.objects) && rt.owned == old(rt.owned) && rt.next == old(rt.next)
    ensures err.Some? && err.value.Panic? ==> rt.owned == old(rt.owned) + rt.CreatedSince(old(rt.next))
    ensures err == Some(Panic(RetainNull)) ==> value.GoSlice? || value.GoMap?
    ensures rt.NoFailureSince(old(rt.next)) ==> Yields(rt.objects, Encode(value), h, err)
  {
    match value
    case GoNil =>
      h, err := NilRef, None;
    case GoString(s) =>
      h, err := StringToCFString(rt, s);
    case GoBytes(b) =>
      h, err := BytesToCFData(rt, b);
    case GoBool(b) =>
      h, err := if b then TrueRef else FalseRef, None;
    case GoTime(_, _, _) =>
      h := TimeToCFDate(rt, value);
      err := None;
    case GoInt(k, i) =>
      if IsSigned(k) {
        h := rt.NumberCreateLongLong(i);
        err := None;
      } else {
        h, err := NilRef, Some(Panic(IntOnUnsigned(k)));
      }
    case GoFloat(_, f) =>
      h := rt.NumberCreateDouble(f);
      err := None;
    case GoSlice(_, _) =>
      ghost var converted, failedFrom;
      h, err, converted, failedFrom := ConvertSliceToCFArray(rt, value);
    case GoMap(Interface, _) =>
      ghost var pairs, failedKey;
      h, err, pairs, failedKey := ConvertMapToCFDictionary(rt, value);
    case GoMap(Typed(n), _) =>
      h, err := NilRef, Some(Panic(MapTypeAssertion(n)));
    case GoOther(n) =>
      h, err := NilRef, Some(UnsupportedType(n));
  }

  /** The i-th handle of hs is what the i-th encoding in rs describes, NULL for NilCFType. */
  ghost predicate Denote(objs: map<Handle, CFObject>, hs: seq<Handle>, rs: seq<Result<Option<CFObject>>>)
  {
    && |hs| <= |rs|
    && forall j :: 0 <= j < |hs| ==>
         && rs[j].Success?
         && (hs[j] == NilRef <==> rs[j].value.None?)
         && (hs[j] != NilRef ==> hs[j] in objs && objs[hs[j]] == rs[j].value.value)
  }

  /** Denote survives adding fresh objects and grows by one converted element. */
  lemma DenoteStep(objs: map<Handle, CFObject>, objs': map<Handle, CFObject>, hs: seq<Handle>, h: Handle,
                   rs: seq<Result<Option<CFObject>>>)
    requires Denote(objs, hs, rs) && |hs| < |rs|
    requires forall x :: x in objs ==> x in objs' && objs'[x] == objs[x]
    requires rs[|hs|].Success? && (h == NilRef <==> rs[|hs|].value.None?)
    requires h != NilRef ==> h in objs' && objs'[h] == rs[|hs|].value.value
    ensures Denote(objs', hs + [h], rs)
  {
  }

  /** A completed Denote over non-NULL handles gives the array Encode describes. */
  lemma DenoteArray(objs: map<Handle, CFObject>, hs: seq<Handle>, rs: seq<Result<Option<CFObject>>>)
    requires Denote(objs, hs, rs) && |hs| == |rs| > 0
    requires forall j :: 0 <= j < |hs| ==> hs[j] != NilRef
    ensures EncodeArray(rs) == Success(Some(CFArray(seq(|hs|, j requires 0 <= j < |hs| => objs[hs[j]]))))
  {
    FirstFailureUnique(rs, |rs|);
    assert seq(|hs|, j requires 0 <= j < |hs| => objs[hs[j]])
        == seq(|rs|, j requires 0 <= j < |rs| => rs[j].value.value);
  }

  /**
   * The invariant of the loop of convertSliceToCFArray, on the runtime's
   * state (objs, owned, next): nothing older than `start` changed, everything
   * made since is held, every converted element is NULL or a live reference,
   * and while no creation has failed the elements are what rs describes.
   */
  ghost predicate SliceLoop(objs: map<Handle, CFObject>, owned: set<Handle>, next: Handle, failing: set<Handle>,
                            objs0: map<Handle, CFObject>, owned0: set<Handle>, start: Handle,
                            hs: seq<Handle>, rs: seq<Result<Option<CFObject>>>)
  {
    && Extended(objs, owned, next, objs0, owned0, start)
    && owned == owned0 + Created(objs, start)
    && (forall j :: 0 <= j < |hs| ==>
          hs[j] == NilRef || (hs[j] in objs && (IsSingleton(hs[j]) || (start <= hs[j] && hs[j] in owned))))
    && (NoneFail(failing, start, next) ==> Denote(objs, hs, rs))
  }

  /** One more converted element keeps the loop's invariant. */
  lemma SliceLoopStep(objs: map<Handle, CFObject>, owned: set<Handle>, next: Handle,
                      objs': map<Handle, CFObject>, owned': set<Handle>, next': Handle, failing: set<Handle>,
                      objs0: map<Handle, CFObject>, owned0: set<Handle>, start: Handle,
                      hs: seq<Handle>, rs: seq<Result<Option<CFObject>>>, h: Handle)
    requires SliceLoop(objs, owned, next, failing, objs0, owned0, start, hs, rs) && |hs| < |rs|
    requires start <= next && forall x :: x in objs ==> x < next
    requires Extended(objs', owned', next', objs, owned, next)
    requires owned' == owned + Created(objs', next)
    requires h == NilRef || (h in objs' && (IsSingleton(h) || (next <= h && h in owned')))
    requires NoneFail(failing, next, next') ==>
      && rs[|hs|].Success? && (h == NilRef <==> rs[|hs|].value.None?)
      && (h != NilRef ==> objs'[h] == rs[|hs|].value.value)
    ensures SliceLoop(objs', owned', next', failing, objs0, owned0, start, hs + [h], rs)
  {
    ExtendedTrans(objs0, owned0, start, objs, owned, next, objs', owned', next');
    CreatedSplit(objs, objs', start, next);
    if NoneFail(failing, start, next') {
      assert NoneFail(failing, start, next) && NoneFail(failing, next, next');
      DenoteStep(objs, objs', hs, h, rs);
    }
  }

  /**
   * What a failed slice conversion begun at `start` leaves held: every
   * reference made before `from` (the first handle of the failing element),
   * and each element reference converted so far.
   */
  ghost predicate SliceFailed(objs: map<Handle, CFObject>, owned: set<Handle>, next: Handle, start: Handle, from: Handle,
                              converted: seq<Handle>)
  {
    && start <= from <= next
    && (forall x :: x in objs && start <= x < from ==> x in owned)
    && (forall j :: 0 <= j < |converted| ==>
          converted[j] == NilRef
          || (converted[j] in objs && (IsSingleton(converted[j]) || (start <= converted[j] < from && converted[j] in owned))))
  }

  /**
   * An element whose conversion failed ends the loop of convertSliceToCFArray
   * in the state SliceFailed describes, with `from` the handle the element
   * started at; a panic, which releases nothing, keeps everything held.
   */
  lemma SliceFailStep(objs: map<Handle, CFObject>, owned: set<Handle>, next: Handle,
                      objs': map<Handle, CFObject>, owned': set<Handle>, next': Handle,
                      objs0: map<Handle, CFObject>, owned0: set<Handle>, start: Handle,
                      hs: seq<Handle>, failing: set<Handle>, rs: seq<Result<Option<CFObject>>>, panicked: bool)
    requires SliceLoop(objs, owned, next, failing, objs0, owned0, start, hs, rs)
    requires start <= next && forall x :: x in objs ==> x < next
    requires Extended(objs', owned', next', objs, owned, next)
    requires panicked ==> owned' == owned + Created(objs', next)
    ensures Extended(objs', owned', next', objs0, owned0, start)
    ensures SliceFailed(objs', owned', next', start, next, hs)
    ensures panicked ==> owned' == owned0 + Created(objs', start)
  {
    ExtendedTrans(objs0, owned0, start, objs, owned, next, objs', owned', next');
    CreatedSplit(objs, objs', start, next);
  }

  /**
   * convertSliceToCFArray: converts the elements in index order and stops at
   * the first error, leaving the elements already converted unreleased.
   * converted holds the element references made before the error, and
   * failedFrom is the first handle of the element whose conversion failed
   * (the next handle, when the failure is CFArrayCreate's or the empty slice's).
   */
  method ConvertSliceToCFArray(rt: CFRuntime, slice: GoValue)
    returns (h: Handle, err: Option<ConvError>, ghost converted: seq<Handle>, ghost failedFrom: Handle)
    requires rt.Valid() && slice.GoSlice?
    modifies rt
    decreases slice, 1
    ensures rt.Valid() && rt.Extends(old(rt.objects), old(rt.owned), old(rt.next))
    ensures err.Some? ==> h == NilRef
    ensures h != NilRef ==> h in rt.objects && rt.Live(h) && old(rt.next) <= h == rt.next - 1
    ensures err.None? ==> rt.owned == old(rt.owned) + rt.CreatedSince(old(rt.next))
    ensures |converted| <= |slice.items|
    ensures err.Some? ==> SliceFailed(rt.objects, rt.owned, rt.next, old(rt.next), failedFrom, converted)
    ensures err.Some? && err.value.ArrayItem? ==> |converted| == err.value.index
    ensures err.Some? && err.value.Panic? ==> rt.owned == old(rt.owned) + rt.CreatedSince(old(rt.next))
    ensures rt.NoFailureSince(old(rt.next)) ==> Yields(rt.objects, Encode(slice), h, err)
  {
    var items := slice.items;
    ghost var start := rt.next;
    ghost var rs := seq(|items|, i requires 0 <= i < |items| => Encode(items[i]));
    var cfValues: seq<Handle> := [];
    var i := 0;
    while i < |items|
      invariant 0 <= i <= |items| && |cfValues| == i
      invariant rt.Valid() && start <= rt.next
      invariant SliceLoop(rt.objects, rt.owned, rt.next, rt.failing, old(rt.objects), old(rt.owned), start, cfValues, rs)
    {
      ghost var objs, owned, mid := rt.objects, rt.owned, rt.next;
      var ref, e := ConvertToCFType(rt, items[i]);
      assert rs[i] == Encode(items[i]);
      if e.Some? {
        SliceFailStep(objs, owned, mid, rt.objects, rt.owned, rt.next, old(rt.objects), old(rt.owned), start,
                      cfValues, rt.failing, rs, e.value.Panic?);
        if rt.NoFailureSince(start) {
          assert NoneFail(rt.failing, mid, rt.next);
          FirstFailureUnique(rs, i);
        }
        return NilRef, Some(AtIndex(i, e.value)), cfValues, mid;
      }
      SliceLoopStep(objs, owned, mid, rt.objects, rt.owned, rt.next, rt.failing, old(rt.objects), old(rt.owned), start,
                    cfValues, rs, ref);
      cfValues := cfValues + [ref];
      i := i + 1;
    }
    converted, failedFrom := cfValues, rt.next;
    if |cfValues| == 0 {
      return NilRef, Some(Panic(IndexOutOfRange)), converted, failedFrom;
    }
    ghost var before := rt.objects;
    var arr, crashed := rt.ArrayCreate(cfValues);
    if crashed {
      if rt.NoFailureSince(start) {
        FirstFailureUnique(rs, |rs|);
      }
      return NilRef, Some(Panic(RetainNull)), converted, failedFrom;
    }
    h, err := arr, None;
    if rt.NoFailureSince(start) {
      assert Encode(slice) == EncodeArray(rs);
      DenoteArray(before, cfValues, rs);
    }
  }

  /** A handle-to-handle map fit for mapToCFDictionary: string keys with distinct contents. */
  ghost predicate PairsReady(rt: CFRuntime, m: map<Handle, Handle>)
    reads rt
  {
    && (forall kh :: kh in m ==> rt.Live(kh) && kh in rt.objects && rt.objects[kh].CFString?)
    && (forall kh :: kh in m ==> m[kh] == NilRef || (rt.Live(m[kh]) && m[kh] in rt.objects))
    && (forall k1, k2 :: k1 in m && k2 in m && k1 != k2 ==> rt.objects[k1] != rt.objects[k2])
  }

  /** The entries of the dictionary whose keys are the keys of m, each mapped to its value in m. */
  ghost function PairEntries(objs: map<Handle, CFObject>, m: map<Handle, Handle>): map<string, CFObject>
    requires forall kh :: kh in m ==> kh in objs && objs[kh].CFString? && m[kh] in objs
    requires forall k1, k2 :: k1 in m && k2 in m && objs[k1].s == objs[k2].s ==> k1 == k2
  {
    map kh | kh in m :: objs[kh].s := objs[m[kh]]
  }

  /** The dictionary CFDictionaryCreate builds from the pairs of m. */
  ghost function DictionaryOfPairs(rt: CFRuntime, m: map<Handle, Handle>): CFObject
    reads rt
    requires PairsReady(rt, m)
    requires forall kh :: kh in m ==> m[kh] != NilRef
  {
    CFDictionary(PairEntries(rt.objects, m))
  }

  /**
   * mapToCFDictionary: lays the pairs out as parallel key and value arrays,
   * in map iteration order, and creates the dictionary.
   */
  method MapToCFDictionary(rt: CFRuntime, m: map<Handle, Handle>) returns (h: Handle, err: Option<ConvError>)
    requires rt.Valid() && PairsReady(rt, m)
    modifies rt
    ensures rt.Valid() && rt.Extends(old(rt.objects), old(rt.owned), old(rt.next))
    ensures err.Some? <==> h == NilRef
    ensures |m| == 0 ==> err == Some(Panic(IndexOutOfRange))
    ensures |m| > 0 && (exists kh :: kh in m && m[kh] == NilRef) ==> err == Some(Panic(RetainNull))
    ensures err.Some? && err.value.Panic? ==>
      rt.next == old(rt.next) && rt.objects == old(rt.objects) && rt.owned == old(rt.owned)
    ensures |m| > 0 && (forall kh :: kh in m ==> m[kh] != NilRef) ==>
      && rt.next == old(rt.next) + 1
      && (old(rt.next) in rt.failing ==>
            err == Some(DictionaryCreateFailed) && rt.objects == old(rt.objects) && rt.owned == old(rt.owned))
      && (old(rt.next) !in rt.failing ==>
            && err.None? && h == old(rt.next) && rt.owned == old(rt.owned) + {h}
            && rt.objects == old(rt.objects)[h := old(DictionaryOfPairs(rt, m))])
  {
    var keys, values := LayOut(m);
    if |keys| == 0 {
      // &keys[0] on an empty slice
      return NilRef, Some(Panic(IndexOutOfRange));
    }
    assert keys[0] in m;
    ghost var pre := rt.objects;
    var cfDict, crashed := rt.DictionaryCreate(keys, values);
    if crashed {
      ghost var i :| 0 <= i < |values| && values[i] == NilRef;
      assert keys[i] in m && m[keys[i]] == NilRef;
      return NilRef, Some(Panic(RetainNull));
    }
    if cfDict == NilRef {
      return NilRef, Some(DictionaryCreateFailed);
    }
    h, err := cfDict, None;
    assert rt.objects[h] == CFDictionary(ArrayEntries(pre, keys, values));
    LayOutDictionary(pre, m, keys, values);
  }

  /** The key and value arrays of mapToCFDictionary: every pair once, in a parallel position. */
  method LayOut(m: map<Handle, Handle>) returns (keys: seq<Handle>, values: seq<Handle>)
    ensures |keys| == |values|
    ensures forall i :: 0 <= i < |keys| ==> keys[i] in m && values[i] == m[keys[i]]
    ensures forall kh :: kh in m ==> kh in keys
    ensures forall i, j :: 0 <= i < j < |keys| ==> keys[i] != keys[j]
  {
    keys, values := [], [];
    var rest := m.Keys;
    while rest != {}
      invariant rest <= m.Keys
      invariant |keys| == |values|
      invariant forall i :: 0 <= i < |keys| ==> keys[i] in m && keys[i] !in rest && values[i] == m[keys[i]]
      invariant forall kh :: kh in m && kh !in rest ==> kh in keys
      invariant forall i, j :: 0 <= i < j < |keys| ==> keys[i] != keys[j]
      decreases rest
    {
      var k :| k in rest;
      keys := keys + [k];
      values := values + [m[k]];
      rest := rest - {k};
    }
  }

  /** Distinct key references with distinct strings make distinct key objects. */
  lemma KeysDistinct(pre: map<Handle, CFObject>, m: map<Handle, Handle>, keys: seq<Handle>)
    requires forall i :: 0 <= i < |keys| ==> keys[i] in m
    requires forall i, j :: 0 <= i < j < |keys| ==> keys[i] != keys[j]
    requires forall kh :: kh in m ==> kh in pre && pre[kh].CFString?
    requires forall k1, k2 :: k1 in m && k2 in m && pre[k1].s == pre[k2].s ==> k1 == k2
    ensures forall i, j :: 0 <= i < j < |keys| ==> pre[keys[i]] != pre[keys[j]]
  {
  }

  lemma ArrayEntriesInPairs(pre: map<Handle, CFObject>, m: map<Handle, Handle>, keys: seq<Handle>, values: seq<Handle>, x: string)
    requires |keys| == |values|
    requires forall i :: 0 <= i < |keys| ==> keys[i] in m && values[i] == m[keys[i]]
    requires forall kh :: kh in m ==> kh in pre && pre[kh].CFString? && m[kh] in pre
    requires forall i, j :: 0 <= i < j < |keys| ==> pre[keys[i]] != pre[keys[j]]
    requires forall k1, k2 :: k1 in m && k2 in m && pre[k1].s == pre[k2].s ==> k1 == k2
    requires x in ArrayEntries(pre, keys, values)
    ensures x in PairEntries(pre, m) && ArrayEntries(pre, keys, values)[x] == PairEntries(pre, m)[x]
  {
    var i :| 0 <= i < |keys| && pre[keys[i]].s == x;
    assert keys[i] in m;
    assert PairEntries(pre, m)[x] == pre[m[keys[i]]];
  }

  lemma PairEntriesInArrays(pre: map<Handle, CFObject>, m: map<Handle, Handle>, keys: seq<Handle>, values: seq<Handle>, x: string)
    requires |keys| == |values|
    requires forall i :: 0 <= i < |keys| ==> keys[i] in m && values[i] == m[keys[i]]
    requires forall kh :: kh in m ==> kh in keys
    requires forall kh :: kh in m ==> kh in pre && pre[kh].CFString? && m[kh] in pre
    requires forall i, j :: 0 <= i < j < |keys| ==> pre[keys[i]] != pre[keys[j]]
    requires forall k1, k2 :: k1 in m && k2 in m && pre[k1].s == pre[k2].s ==> k1 == k2
    requires x in PairEntries(pre, m)
    ensures x in ArrayEntries(pre, keys, values)
  {
    var kh :| kh in m && pre[kh].s == x;
    var i :| 0 <= i < |keys| && keys[i] == kh;
    assert pre[keys[i]].s in ArrayEntries(pre, keys, values);
  }

  /** The dictionary of the parallel arrays is the dictionary of the pairs, whatever the order. */
  lemma LayOutDictionary(pre: map<Handle, CFObject>, m: map<Handle, Handle>, keys: seq<Handle>, values: seq<Handle>)
    requires |keys| == |values|
    requires forall i :: 0 <= i < |keys| ==> keys[i] in m && values[i] == m[keys[i]]
    requires forall kh :: kh in m ==> kh in keys
    requires forall i, j :: 0 <= i < j < |keys| ==> keys[i] != keys[j]
    requires forall kh :: kh in m ==> kh in pre && pre[kh].CFString? && m[kh] in pre
    requires forall k1, k2 :: k1 in m && k2 in m && pre[k1].s == pre[k2].s ==> k1 == k2
    ensures forall i, j :: 0 <= i < j < |keys| ==> pre[keys[i]] != pre[keys[j]]
    ensures ArrayEntries(pre, keys, values) == PairEntries(pre, m)
  {
    KeysDistinct(pre, m, keys);
    var a, p := ArrayEntries(pre, keys, values), PairEntries(pre, m);
    forall x | x in a
      ensures x in p && a[x] == p[x]
    {
      ArrayEntriesInPairs(pre, m, keys, values, x);
    }
    forall x | x in p
      ensures x in a
    {
      PairEntriesInArrays(pre, m, keys, values, x);
    }
    MapsEqual(a, p);
  }

  /** The key references ks of m and the value references paired with them. */
  ghost function Refs(m: map<Handle, Handle>, ks: set<Handle>): set<Handle>
    requires ks <= m.Keys
  {
    ks + set k | k in ks :: m[k]
  }

  lemma RefsStep(m: map<Handle, Handle>, ks: set<Handle>, k: Handle)
    requires ks <= m.Keys && k in m
    ensures Refs(m, ks + {k}) == Refs(m, ks) + {k, m[k]}
  {
  }

  lemma RefsAll(m: map<Handle, Handle>)
    ensures Refs(m, m.Keys) == m.Keys + m.Values
  {
    forall x | x in m.Values
      ensures x in Refs(m, m.Keys)
    {
      var k :| k in m && m[k] == x;
    }
  }

  /** The release loop of convertMapToCFDictionary, after mapToCFDictionary failed. */
  method ReleasePairs(rt: CFRuntime, m: map<Handle, Handle>)
    requires rt.Valid()
    requires forall kh :: kh in m ==> kh in rt.owned && m[kh] != NilRef && rt.Live(m[kh])
    requires forall kh :: kh in m ==> m[kh] !in m
    requires forall k1, k2 :: k1 in m && k2 in m && k1 != k2 && m[k1] == m[k2] ==> IsSingleton(m[k1])
    modifies rt
    ensures rt.Valid() && rt.objects == old(rt.objects) && rt.next == old(rt.next)
    ensures rt.owned == old(rt.owned) - m.Keys - m.Values
  {
    var rest := m.Keys;
    while rest != {}
      invariant rest <= m.Keys
      invariant rt.Valid() && rt.objects == old(rt.objects) && rt.next == old(rt.next)
      invariant rt.owned == old(rt.owned) - Refs(m, m.Keys - rest)
      invariant forall kh :: kh in rest ==> kh in rt.owned && rt.Live(m[kh])
      decreases rest
    {
      var k :| k in rest;
      RefsStep(m, m.Keys - rest, k);
      assert m.Keys - (rest - {k}) == (m.Keys - rest) + {k};
      rt.Release(k);
      rt.Release(m[k]);
      rest := rest - {k};
    }
    assert m.Keys - rest == m.Keys;
    RefsAll(m);
  }

  /** The key references of m are those of keyOf, each referring to the string it is filed under. */
  ghost predicate KeyIndex(objs: map<Handle, CFObject>, m: map<Handle, Handle>, keyOf: map<string, Handle>)
  {
    && (forall k :: k in keyOf ==> keyOf[k] in m && keyOf[k] in objs && objs[keyOf[k]] == CFString(k))
    && (forall kh :: kh in m ==> kh in objs && objs[kh].CFString? && objs[kh].s in keyOf && keyOf[objs[kh].s] == kh)
  }

  /** No reference occurs twice among the keys and values of m, except NULL and the booleans as values. */
  ghost predicate PairsDisjoint(m: map<Handle, Handle>)
  {
    && (forall kh :: kh in m ==> m[kh] !in m)
    && (forall k1, k2 :: k1 in m && k2 in m && k1 != k2 && m[k1] == m[k2] ==> m[k1] == NilRef || IsSingleton(m[k1]))
  }

  /**
   * The pairs of a conversion begun when `start` was the next handle: string
   * key references made by it for keys of the map, each paired with NULL, a
   * boolean or a value reference made by it.
   */
  ghost predicate PairsFrom(objs: map<Handle, CFObject>, m: map<Handle, Handle>, start: Handle, entries: map<string, GoValue>)
  {
    forall kh :: kh in m ==>
      && start <= kh && kh in objs && objs[kh].CFString? && objs[kh].s in entries
      && (m[kh] == NilRef || IsSingleton(m[kh]) || (start <= m[kh] && m[kh] in objs))
  }

  /** The value reference filed under each string key is what that key's encoding in rs describes. */
  ghost predicate DenotePairs(objs: map<Handle, CFObject>, m: map<Handle, Handle>, keyOf: map<string, Handle>,
                              rs: map<string, Result<Option<CFObject>>>)
  {
    forall k :: k in keyOf ==>
      && k in rs && keyOf[k] in m && rs[k].Success?
      && (m[keyOf[k]] == NilRef <==> rs[k].value.None?)
      && (m[keyOf[k]] != NilRef ==> m[keyOf[k]] in objs && objs[m[keyOf[k]]] == rs[k].value.value)
  }

  lemma KeyIndexStep(objs: map<Handle, CFObject>, objs': map<Handle, CFObject>, m: map<Handle, Handle>,
                     keyOf: map<string, Handle>, key: string, kr: Handle, vr: Handle)
    requires KeyIndex(objs, m, keyOf) && key !in keyOf && kr !in m
    requires forall x :: x in objs ==> x in objs' && objs'[x] == objs[x]
    requires kr in objs' && objs'[kr] == CFString(key)
    ensures KeyIndex(objs', m[kr := vr], keyOf[key := kr])
  {
  }

  lemma DisjointStep(m: map<Handle, Handle>, kr: Handle, vr: Handle)
    requires PairsDisjoint(m)
    requires forall kh :: kh in m ==> FirstHandle <= kh < kr && (m[kh] == NilRef || IsSingleton(m[kh]) || m[kh] < kr)
    requires FirstHandle <= kr
    requires vr == NilRef || IsSingleton(vr) || kr < vr
    ensures PairsDisjoint(m[kr := vr])
  {
  }

  lemma DenotePairsStep(objs: map<Handle, CFObject>, objs': map<Handle, CFObject>, m: map<Handle, Handle>,
                        keyOf: map<string, Handle>, rs: map<string, Result<Option<CFObject>>>,
                        key: string, kr: Handle, vr: Handle)
    requires DenotePairs(objs, m, keyOf, rs) && key !in keyOf && kr !in m
    requires forall x :: x in objs ==> x in objs' && objs'[x] == objs[x]
    requires key in rs && rs[key].Success? && (vr == NilRef <==> rs[key].value.None?)
    requires vr != NilRef ==> vr in objs' && objs'[vr] == rs[key].value.value
    ensures DenotePairs(objs', m[kr := vr], keyOf[key := kr], rs)
  {
  }

  /**
   * What the loop of convertMapToCFDictionary keeps about the pairs made so
   * far, since `start` was the next handle and before `next` is: each key
   * reference is held and refers to the string it is filed under; each value
   * reference is NULL, a boolean, or a held reference made after its key.
   */
  ghost predicate EntriesInv(objs: map<Handle, CFObject>, owned: set<Handle>, next: Handle,
                             m: map<Handle, Handle>, keyOf: map<string, Handle>, start: Handle)
  {
    && KeyIndex(objs, m, keyOf)
    && PairsDisjoint(m)
    && (forall kh :: kh in m ==>
          && FirstHandle <= start <= kh < next && kh in owned
          && (m[kh] == NilRef || IsSingleton(m[kh])
              || (kh < m[kh] < next && m[kh] in objs && m[kh] in owned))
          && (IsSingleton(m[kh]) ==> m[kh] in objs))
  }

  /** One more converted pair keeps the loop's facts about the pairs. */
  lemma EntryStep(objs: map<Handle, CFObject>, owned: set<Handle>, next: Handle,
                  objs': map<Handle, CFObject>, owned': set<Handle>, next': Handle,
                  m: map<Handle, Handle>, keyOf: map<string, Handle>, start: Handle,
                  key: string, kr: Handle, vr: Handle)
    requires EntriesInv(objs, owned, next, m, keyOf, start) && key !in keyOf
    requires FirstHandle <= start <= next
    requires forall x :: x in objs ==> x in objs' && objs'[x] == objs[x]
    requires owned <= owned'
    requires kr == next < next' && kr in objs' && objs'[kr] == CFString(key) && kr in owned'
    requires vr == NilRef || (vr in objs' && (IsSingleton(vr) || (kr < vr < next' && vr in owned')))
    ensures EntriesInv(objs', owned', next', m[kr := vr], keyOf[key := kr], start)
  {
    KeyIndexStep(objs, objs', m, keyOf, key, kr, vr);
    DisjointStep(m, kr, vr);
  }

  /**
   * The invariant of the loop of convertMapToCFDictionary, on the runtime's
   * state (objs, owned, next): the keys in `done` are converted, nothing
   * older than `start` changed, everything made since is held, and while no
   * creation has failed the pairs are what the encodings rs describe.
   */
  ghost predicate EntriesLoop(objs: map<Handle, CFObject>, owned: set<Handle>, next: Handle, failing: set<Handle>,
                              objs0: map<Handle, CFObject>, owned0: set<Handle>, start: Handle,
                              m: map<Handle, Handle>, keyOf: map<string, Handle>,
                              rs: map<string, Result<Option<CFObject>>>, done: set<string>)
  {
    && keyOf.Keys == done
    && Extended(objs, owned, next, objs0, owned0, start)
    && owned == owned0 + Created(objs, start)
    && EntriesInv(objs, owned, next, m, keyOf, start)
    && (NoneFail(failing, start, next) ==> DenotePairs(objs, m, keyOf, rs))
  }

  /** One converted pair, (kr, vr) for `key`, keeps the loop's invariant. */
  lemma EntriesLoopStep(objs: map<Handle, CFObject>, owned: set<Handle>, next: Handle,
                        objs': map<Handle, CFObject>, owned': set<Handle>, next': Handle, failing: set<Handle>,
                        objs0: map<Handle, CFObject>, owned0: set<Handle>, start: Handle,
                        m: map<Handle, Handle>, keyOf: map<string, Handle>,
                        rs: map<string, Result<Option<CFObject>>>, done: set<string>,
                        key: string, kr: Handle, vr: Handle)
    requires EntriesLoop(objs, owned, next, failing, objs0, owned0, start, m, keyOf, rs, done)
    requires FirstHandle <= start && key !in done
    requires forall x :: x in objs ==> x < next
    requires Extended(objs', owned', next', objs, owned, next)
    requires owned' == owned + Created(objs', next)
    requires kr == next < next' && kr in objs' && objs'[kr] == CFString(key)
    requires vr == NilRef || (vr in objs' && (vr in owned' || IsSingleton(vr)) && (IsSingleton(vr) || kr < vr == next' - 1))
    requires NoneFail(failing, next, next') ==>
      && key in rs && rs[key].Success? && (vr == NilRef <==> rs[key].value.None?)
      && (vr != NilRef ==> objs'[vr] == rs[key].value.value)
    ensures EntriesLoop(objs', owned', next', failing, objs0, owned0, start, m[kr := vr], keyOf[key := kr], rs, done + {key})
  {
    ExtendedTrans(objs0, owned0, start, objs, owned, next, objs', owned', next');
    CreatedSplit(objs, objs', start, next);
    EntryStep(objs, owned, next, objs', owned', next', m, keyOf, start, key, kr, vr);
    if NoneFail(failing, start, next') {
      DenotePairsStep(objs, objs', m, keyOf, rs, key, kr, vr);
    }
  }

  /**
   * The state the loop of convertMapToCFDictionary leaves when it returns
   * the error e: the key's conversion failed (KeyToCFString, which releases
   * nothing), or its value's did (ValueForKey, after releasing failedKey, or
   * a panic, which releases nothing). Either way the pairs already in m stay
   * held, and on ValueForKey so does everything made before failedKey; while
   * no creation has failed, e is an error EncodeDictionary allows.
   */
  ghost predicate EntriesFailed(objs: map<Handle, CFObject>, owned: set<Handle>, next: Handle, failing: set<Handle>,
                                objs0: map<Handle, CFObject>, owned0: set<Handle>, start: Handle,
                                m: map<Handle, Handle>, keyOf: map<string, Handle>,
                                entries: map<string, GoValue>, rs: map<string, Result<Option<CFObject>>>,
                                e: ConvError, failedKey: Handle)
  {
    && Extended(objs, owned, next, objs0, owned0, start)
    && (e.KeyToCFString? || e.ValueForKey? || e.Panic?)
    && (e.KeyToCFString? || e.Panic? ==> owned == owned0 + Created(objs, start))
    && (e.ValueForKey? ==>
          && start <= failedKey && failedKey in objs && failedKey !in owned && objs[failedKey] == CFString(e.key)
          && (forall x :: x in objs && start <= x < failedKey ==> x in owned))
    && PairsHeld(owned, m)
    && keyOf.Keys <= entries.Keys && KeyIndex(objs, m, keyOf) && PairsFrom(objs, m, start, entries)
    && (NoneFail(failing, start, next) ==> EncodeDictionary(rs).Failure? && e in EncodeDictionary(rs).errors)
  }

  /** Every key reference of m is held, and so is every value reference but NULL and the booleans. */
  ghost predicate PairsHeld(owned: set<Handle>, m: map<Handle, Handle>)
  {
    forall kh :: kh in m ==> kh in owned && (m[kh] == NilRef || IsSingleton(m[kh]) || m[kh] in owned)
  }

  /** A pair whose conversion failed with e ends the loop in the state EntriesFailed describes. */
  lemma EntriesFailStep(objs: map<Handle, CFObject>, owned: set<Handle>, next: Handle,
                        objs': map<Handle, CFObject>, owned': set<Handle>, next': Handle, failing: set<Handle>,
                        objs0: map<Handle, CFObject>, owned0: set<Handle>, start: Handle,
                        m: map<Handle, Handle>, keyOf: map<string, Handle>,
                        entries: map<string, GoValue>, rs: map<string, Result<Option<CFObject>>>,
                        key: string, kr: Handle, e: ConvError)
    requires key in entries && key in rs
    requires EntriesLoop(objs, owned, next, failing, objs0, owned0, start, m, keyOf, rs, keyOf.Keys)
    requires keyOf.Keys <= entries.Keys && start <= next
    requires forall x :: x in objs ==> x < next
    requires Extended(objs', owned', next', objs, owned, next)
    requires e.KeyToCFString? || e.ValueForKey? || e.Panic?
    requires e.KeyToCFString? || e.Panic? ==> owned' == owned + Created(objs', next)
    requires e.ValueForKey? ==> e.key == key && kr == next && kr in objs' && kr !in owned' && objs'[kr] == CFString(key)
    requires NoneFail(failing, next, next') ==>
      exists x :: rs[key].Failure? && x in rs[key].errors && e == ForKey(key, x)
    ensures EntriesFailed(objs', owned', next', failing, objs0, owned0, start, m, keyOf, entries, rs, e, kr)
  {
    ExtendedTrans(objs0, owned0, start, objs, owned, next, objs', owned', next');
    CreatedSplit(objs, objs', start, next);
    EntriesFrame(objs, owned, next, objs', m, keyOf, start, entries);
    if NoneFail(failing, start, next') {
      assert NoneFail(failing, next, next');
      DictionaryError(rs, key, e);
    }
  }

  /** The loop's facts survive new objects, for the pairs of the map being converted. */
  lemma EntriesFrame(objs: map<Handle, CFObject>, owned: set<Handle>, next: Handle, objs': map<Handle, CFObject>,
                     m: map<Handle, Handle>, keyOf: map<string, Handle>, start: Handle, entries: map<string, GoValue>)
    requires EntriesInv(objs, owned, next, m, keyOf, start) && keyOf.Keys <= entries.Keys
    requires forall x :: x in objs ==> x in objs' && objs'[x] == objs[x]
    ensures KeyIndex(objs', m, keyOf) && PairsFrom(objs', m, start, entries)
  {
  }

  /** At the end of the loop the pairs are fit for mapToCFDictionary. */
  lemma EntriesReady(rt: CFRuntime, m: map<Handle, Handle>, keyOf: map<string, Handle>, start: Handle)
    requires rt.Valid() && EntriesInv(rt.objects, rt.owned, rt.next, m, keyOf, start)
    ensures PairsReady(rt, m) && PairsDisjoint(m) && (forall kh :: kh in m ==> kh in rt.owned)
  {
    forall k1, k2 | k1 in m && k2 in m && k1 != k2
      ensures rt.objects[k1] != rt.objects[k2]
    {
      assert keyOf[rt.objects[k1].s] == k1;
    }
  }

  /** The value reference and error of one pair are what the encoding r of its value describes. */
  ghost predicate PairYields(objs: map<Handle, CFObject>, r: Result<Option<CFObject>>, key: string, valueRef: Handle,
                             err: Option<ConvError>)
  {
    match r
    case Success(o) =>
      && err.None?
      && (valueRef == NilRef <==> o.None?)
      && (valueRef != NilRef ==> valueRef in objs && objs[valueRef] == o.value)
    case Failure(errors) =>
      exists e :: e in errors && err == Some(ForKey(key, e))
  }

  /**
   * One round of the loop of convertMapToCFDictionary: the key string, then
   * the value; when the value fails, the key reference is released (unless
   * the failure is a panic, which unwinds first).
   */
  method ConvertPair(rt: CFRuntime, value: GoValue, key: string)
    returns (keyRef: Handle, valueRef: Handle, err: Option<ConvError>)
    requires rt.Valid() && value.GoMap? && key in value.entries
    modifies rt
    decreases value, 0
    ensures rt.Valid() && rt.Extends(old(rt.objects), old(rt.owned), old(rt.next))
    ensures err.Some? ==> err.value.KeyToCFString? || err.value.ValueForKey? || err.value.Panic?
    ensures err.Some? && (err.value.KeyToCFString? || err.value.Panic?) ==>
      rt.owned == old(rt.owned) + rt.CreatedSince(old(rt.next))
    ensures err.None? || (err.Some? && err.value.ValueForKey?) ==>
      && keyRef == old(rt.next) && keyRef in rt.objects && rt.objects[keyRef] == CFString(key)
    ensures err.Some? && err.value.ValueForKey? ==> err.value.key == key && keyRef !in rt.owned
    ensures err.None? ==>
      && rt.owned == old(rt.owned) + rt.CreatedSince(old(rt.next))
      && (valueRef == NilRef || (valueRef in rt.objects && rt.Live(valueRef)
                                 && (IsSingleton(valueRef) || keyRef < valueRef == rt.next - 1)))
    ensures rt.NoFailureSince(old(rt.next)) ==> PairYields(rt.objects, EntryEncodings(value)[key], key, valueRef, err)
  {
    var e;
    keyRef, e := StringToCFString(rt, key);
    if e.Some? {
      return NilRef, NilRef, Some(KeyToCFString(e.value));
    }
    ghost var mid := rt.next;
    ghost var objs := rt.objects;
    assert EntryEncodings(value)[key] == Encode(value.entries[key]);
    valueRef, e := ConvertToCFType(rt, value.entries[key]);
    if e.Some? {
      if rt.NoFailureSince(old(rt.next)) {
        assert rt.NoFailureSince(mid);
        assert e.value in Encode(value.entries[key]).errors;
        assert ForKey(key, e.value) == if e.value.Panic? then e.value else ValueForKey(key, e.value);
      }
      if e.value.Panic? {
        // the panic unwinds before keyRef is released
        CreatedSplit(objs, rt.objects, old(rt.next), mid);
        return NilRef, NilRef, e;
      }
      rt.Release(keyRef);
      return keyRef, NilRef, Some(ValueForKey(key, e.value));
    }
    CreatedSplit(objs, rt.objects, old(rt.next), mid);
    if rt.NoFailureSince(old(rt.next)) {
      assert rt.NoFailureSince(mid);
    }
    err := None;
  }

  /**
   * The loop of convertMapToCFDictionary, over the keys in an arbitrary
   * order: m maps each key reference to its value reference, keyOf files the
   * key references by string, and failedKey is the key reference released
   * after its value failed.
   */
  method ConvertEntries(rt: CFRuntime, value: GoValue)
    returns (m: map<Handle, Handle>, err: Option<ConvError>, ghost keyOf: map<string, Handle>, ghost failedKey: Handle)
    requires rt.Valid() && value.GoMap?
    modifies rt
    decreases value, 1
    ensures rt.Valid()
    ensures err.None? ==>
      EntriesLoop(rt.objects, rt.owned, rt.next, rt.failing, old(rt.objects), old(rt.owned), old(rt.next),
                  m, keyOf, EntryEncodings(value), value.entries.Keys)
    ensures err.Some? ==>
      EntriesFailed(rt.objects, rt.owned, rt.next, rt.failing, old(rt.objects), old(rt.owned), old(rt.next),
                    m, keyOf, value.entries, EntryEncodings(value), err.value, failedKey)
  {
    var attr := value.entries;
    ghost var start := rt.next;
    ghost var rs := EntryEncodings(value);
    m := map[];
    keyOf := map[];
    failedKey := NilRef;
    var remaining := attr.Keys;
    while remaining != {}
      invariant remaining <= attr.Keys && rt.Valid() && start <= rt.next
      invariant EntriesLoop(rt.objects, rt.owned, rt.next, rt.failing, old(rt.objects), old(rt.owned), start,
                            m, keyOf, rs, attr.Keys - remaining)
      decreases remaining
    {
      var key :| key in remaining;
      ghost var objs, owned, head := rt.objects, rt.owned, rt.next;
      var keyRef, valueRef, e := ConvertPair(rt, value, key);
      if e.Some? {
        EntriesFailStep(objs, owned, head, rt.objects, rt.owned, rt.next, rt.failing, old(rt.objects), old(rt.owned),
                        start, m, keyOf, attr, rs, key, keyRef, e.value);
        return m, e, keyOf, keyRef;
      }
      EntriesLoopStep(objs, owned, head, rt.objects, rt.owned, rt.next, rt.failing, old(rt.objects), old(rt.owned), start,
                      m, keyOf, rs, attr.Keys - remaining, key, keyRef, valueRef);
      m := m[keyRef := valueRef];
      keyOf := keyOf[key := keyRef];
      remaining := remaining - {key};
    }
    err := None;
  }

  /**
   * convertMapToCFDictionary over a map[string]interface{}. pairs is the
   * key-to-value reference map it built and failedKey the key reference it
   * released after that key's value failed. On success every reference made
   * along the way is still held: the keys and values are not released after
   * the dictionary has retained them. On every error but a failed
   * CFDictionaryCreate the pairs made so far stay held as well.
   */
  method ConvertMapToCFDictionary(rt: CFRuntime, value: GoValue)
    returns (h: Handle, err: Option<ConvError>, ghost pairs: map<Handle, Handle>, ghost failedKey: Handle)
    requires rt.Valid() && value.GoMap? && value.valueType == Interface
    modifies rt
    decreases value, 2
    ensures rt.Valid() && rt.Extends(old(rt.objects), old(rt.owned), old(rt.next))
    ensures err.Some? ==> h == NilRef
    ensures h != NilRef ==> h in rt.objects && rt.Live(h) && old(rt.next) <= h == rt.next - 1
    ensures PairsFrom(rt.objects, pairs, old(rt.next), value.entries)
    ensures err.None? || (err.Some? && (err.value.KeyToCFString? || err.value.Panic?)) ==>
      rt.owned == old(rt.owned) + rt.CreatedSince(old(rt.next))
    ensures err.Some? && err.value.ValueForKey? ==>
      && old(rt.next) <= failedKey && failedKey in rt.objects && failedKey !in rt.owned
      && rt.objects[failedKey] == CFString(err.value.key)
      && (forall x :: x in rt.objects && old(rt.next) <= x < failedKey ==> x in rt.owned)
    ensures err != Some(DictionaryCreateFailed) ==> PairsHeld(rt.owned, pairs)
    ensures err == Some(DictionaryCreateFailed) ==>
      rt.owned == old(rt.owned) + rt.CreatedSince(old(rt.next)) - pairs.Keys - pairs.Values
    ensures rt.NoFailureSince(old(rt.next)) ==> Yields(rt.objects, EncodeDictionary(EntryEncodings(value)), h, err)
  {
    ghost var keyOf;
    var m;
    m, err, keyOf, failedKey := ConvertEntries(rt, value);
    pairs := m;
    if err.Some? {
      return NilRef, err, pairs, failedKey;
    }
    failedKey := NilRef;
    EntriesReady(rt, m, keyOf, old(rt.next));
    ghost var o1, ow1, n1 := rt.objects, rt.owned, rt.next;
    h, err := DictionaryFromPairs(rt, m, keyOf, EntryEncodings(value));
    DictionaryOutcome(old(rt.objects), old(rt.owned), old(rt.next), o1, ow1, n1, rt.objects, rt.owned, rt.next,
                      rt.failing, m, keyOf, value.entries, EntryEncodings(value), h, err);
    assert EntryEncodings(value).Keys == value.entries.Keys;
    DictionaryResult(o1, ow1, n1, rt.objects, rt.next, rt.failing, old(rt.objects), old(rt.owned), old(rt.next),
                     m, keyOf, EntryEncodings(value), h, err);
  }

  /**
   * The references convertMapToCFDictionary ends up holding, from the state
   * (o1, ow1, n1) its loop left and what mapToCFDictionary and the release
   * loop did next.
   */
  lemma DictionaryOutcome(o0: map<Handle, CFObject>, ow0: set<Handle>, n0: Handle,
                          o1: map<Handle, CFObject>, ow1: set<Handle>, n1: Handle,
                          o2: map<Handle, CFObject>, ow2: set<Handle>, n2: Handle, failing: set<Handle>,
                          m: map<Handle, Handle>, keyOf: map<string, Handle>,
                          entries: map<string, GoValue>, rs: map<string, Result<Option<CFObject>>>,
                          h: Handle, err: Option<ConvError>)
    requires EntriesLoop(o1, ow1, n1, failing, o0, ow0, n0, m, keyOf, rs, entries.Keys)
    requires NilRef !in ow1 && TrueRef !in ow1 && FalseRef !in ow1
    requires n1 <= n2
    requires err.None? ==> h == n1 && h !in o1 && ow2 == ow1 + {h} && h in o2 && o2 == o1[h := o2[h]]
    requires err.Some? ==> h == NilRef && o2 == o1
    requires err.Some? && err.value.Panic? ==> ow2 == ow1
    requires err.Some? && !err.value.Panic? ==> err.value == DictionaryCreateFailed && ow2 == ow1 - m.Keys - m.Values
    ensures Extended(o2, ow2, n2, o0, ow0, n0)
    ensures err.None? ==> ow2 == ow0 + Created(o2, n0)
    ensures err.Some? && err.value.Panic? ==> ow2 == ow0 + Created(o2, n0)
    ensures err == Some(DictionaryCreateFailed) ==> ow2 == ow0 + Created(o2, n0) - m.Keys - m.Values
    ensures err != Some(DictionaryCreateFailed) ==> PairsHeld(ow2, m)
    ensures PairsFrom(o2, m, n0, entries)
  {
    EntriesFrame(o1, ow1, n1, o2, m, keyOf, n0, entries);
    if err.None? {
      CreatedInsert(o1, n0, h, o2[h]);
    }
  }

  /** What convertMapToCFDictionary returns is what EncodeDictionary describes, while no creation failed. */
  lemma DictionaryResult(o1: map<Handle, CFObject>, ow1: set<Handle>, n1: Handle,
                         o2: map<Handle, CFObject>, n2: Handle, failing: set<Handle>,
                         o0: map<Handle, CFObject>, ow0: set<Handle>, n0: Handle,
                         m: map<Handle, Handle>, keyOf: map<string, Handle>,
                         rs: map<string, Result<Option<CFObject>>>, h: Handle, err: Option<ConvError>)
    requires EntriesLoop(o1, ow1, n1, failing, o0, ow0, n0, m, keyOf, rs, rs.Keys)
    requires n1 <= n2
    requires (&& NoneFail(failing, n1, n2) && KeyIndex(o1, m, keyOf) && keyOf.Keys == rs.Keys
              && DenotePairs(o1, m, keyOf, rs))
             ==> Yields(o2, EncodeDictionary(rs), h, err)
    ensures NoneFail(failing, n0, n2) ==> Yields(o2, EncodeDictionary(rs), h, err)
  {
    if NoneFail(failing, n0, n2) {
      assert NoneFail(failing, n0, n1) && NoneFail(failing, n1, n2);
    }
  }

  /** A handle added at or after start is one more handle created since start. */
  lemma CreatedInsert(o: map<Handle, CFObject>, start: Handle, h: Handle, x: CFObject)
    requires h !in o && start <= h
    ensures Created(o[h := x], start) == Created(o, start) + {h}
  {
  }

  /**
   * The tail of convertMapToCFDictionary: mapToCFDictionary, and when it
   * reports an error other than a panic, the loop releasing every key and
   * value reference.
   */
  method DictionaryFromPairs(rt: CFRuntime, m: map<Handle, Handle>,
                             ghost keyOf: map<string, Handle>, ghost rs: map<string, Result<Option<CFObject>>>)
    returns (h: Handle, err: Option<ConvError>)
    requires rt.Valid() && PairsReady(rt, m) && PairsDisjoint(m)
    requires forall kh :: kh in m ==> kh in rt.owned
    modifies rt
    ensures rt.Valid() && old(rt.next) <= rt.next <= old(rt.next) + 1
    ensures err.None? ==>
      && h == old(rt.next) && h !in old(rt.objects) && rt.owned == old(rt.owned) + {h}
      && h in rt.objects && rt.objects == old(rt.objects)[h := rt.objects[h]]
    ensures err.Some? ==> h == NilRef && rt.objects == old(rt.objects)
    ensures err.Some? && err.value.Panic? ==> rt.owned == old(rt.owned)
    ensures err.Some? && !err.value.Panic? ==>
      err.value == DictionaryCreateFailed && rt.owned == old(rt.owned) - m.Keys - m.Values
    ensures (&& rt.NoFailureSince(old(rt.next)) && KeyIndex(old(rt.objects), m, keyOf) && keyOf.Keys == rs.Keys
             && old(DenotePairs(rt.objects, m, keyOf, rs)))
            ==> Yields(rt.objects, EncodeDictionary(rs), h, err)
  {
    ghost var pre := rt.objects;
    h, err := MapToCFDictionary(rt, m);
    if err.Some? && !err.value.Panic? {
      ReleasePairs(rt, m);
    }
    if rt.NoFailureSince(old(rt.next)) && KeyIndex(pre, m, keyOf) && keyOf.Keys == rs.Keys && DenotePairs(pre, m, keyOf, rs) {
      DenotedDictionary(pre, m, keyOf, rs);
    }
  }

  /** A failing value makes the dictionary fail with that value's error, wrapped with its key. */
  lemma DictionaryError(rs: map<string, Result<Option<CFObject>>>, key: string, e: ConvError)
    requires key in rs && rs[key].Failure?
    requires exists x :: x in rs[key].errors && e == ForKey(key, x)
    ensures EncodeDictionary(rs).Failure? && e in EncodeDictionary(rs).errors
  {
    var x :| x in rs[key].errors && e == ForKey(key, x);
    assert rs[key].Failure? && x in rs[key].errors;
  }

  /**
   * What EncodeDictionary gives once every value has been converted into
   * the pairs of m: the three outcomes of mapToCFDictionary.
   */
  lemma DenotedDictionary(objs: map<Handle, CFObject>, m: map<Handle, Handle>, keyOf: map<string, Handle>,
                          rs: map<string, Result<Option<CFObject>>>)
    requires KeyIndex(objs, m, keyOf) && DenotePairs(objs, m, keyOf, rs) && keyOf.Keys == rs.Keys
    ensures |m| == 0 ==> EncodeDictionary(rs) == Failure({Panic(IndexOutOfRange)})
    ensures |m| > 0 && (exists kh :: kh in m && m[kh] == NilRef) ==> EncodeDictionary(rs) == Failure({Panic(RetainNull)})
    ensures |m| > 0 && (forall kh :: kh in m ==> m[kh] != NilRef) ==>
      && (forall kh :: kh in m ==> m[kh] in objs)
      && EncodeDictionary(rs) == Success(Some(CFDictionary(PairEntries(objs, m))))
  {
    assert forall k :: k in rs ==> rs[k].Success?;
    if |m| != 0 {
      var kh :| kh in m;
      assert objs[kh].s in rs;
      if exists kh :: kh in m && m[kh] == NilRef {
        var kh :| kh in m && m[kh] == NilRef;
        assert rs[objs[kh].s].value.None?;
      } else {
        PairsMatch(objs, m, keyOf, rs);
      }
    }
  }

  /** The dictionary built from the pairs is the one the value encodings describe. */
  lemma PairsMatch(objs: map<Handle, CFObject>, m: map<Handle, Handle>, keyOf: map<string, Handle>,
                   rs: map<string, Result<Option<CFObject>>>)
    requires KeyIndex(objs, m, keyOf) && DenotePairs(objs, m, keyOf, rs) && keyOf.Keys == rs.Keys
    requires forall kh :: kh in m ==> m[kh] != NilRef
    ensures forall kh :: kh in m ==> m[kh] in objs
    ensures forall k :: k in rs ==> rs[k].Success? && rs[k].value.Some?
    ensures PairEntries(objs, m) == (map k | k in rs :: rs[k].value.value)
  {
    forall kh | kh in m
      ensures m[kh] in objs
    {
      assert keyOf[objs[kh].s] == kh;
    }
    var d := PairEntries(objs, m);
    forall k | k in rs
      ensures k in d && d[k] == rs[k].value.value
    {
      assert objs[keyOf[k]].s == k;
    }
    MapsEqual(d, map k | k in rs :: rs[k].value.value);
  }

  // ---------------------------------------------------------------------
  // Reading CoreFoundation objects back
  // ---------------------------------------------------------------------

  /** The value and error convertFromCFType returned are the outcome r describes; a failure returns nil. */
  predicate Decoded(r: Result<GoValue>, v: GoValue, err: Option<ConvError>)
  {
    match r
    case Success(x) => err.None? && v == x
    case Failure(errors) => err.Some? && err.value in errors && v == GoNil
  }

  /**
   * convertFromCFType on the object a reference refers to. The Get calls it
   * makes do not transfer ownership, so it needs no runtime.
   */
  method ConvertFromCFType(o: CFObject) returns (v: GoValue, err: Option<ConvError>)
    decreases o, 1
    ensures Decoded(Decode(o), v, err)
  {
    match o
    case CFString(s) =>
      v, err := GoString(s), None;
    case CFData(b) =>
      v, err := GoBytes(b), None;
    case CFBoolean(b) =>
      v, err := GoBool(b), None;
    case CFDate(absolute) =>
      v, err := AbsoluteToTime(absolute), None;
    case CFInteger(_, i) =>
      // read with kCFNumberLongLongType into an int
      v, err := GoInt(Int, i), None;
    case CFReal(t, d) =>
      if t == CGFloatType {
        v, err := GoNil, Some(UnsupportedNumberType);
      } else {
        // read with kCFNumberDoubleType into a float64
        v, err := GoFloat(Float64, d), None;
      }
    case CFArray(_) =>
      v, err := ArrayFromCF(o);
    case CFDictionary(_) =>
      v, err := DictionaryFromCF(o);
    case CFOther(_) =>
      v, err := GoNil, Some(UnsupportedCFType);
  }

  /** The array branch of convertFromCFType: items in index order, stopping at the first error. */
  method ArrayFromCF(o: CFObject) returns (v: GoValue, err: Option<ConvError>)
    requires o.CFArray?
    decreases o, 0
    ensures Decoded(Decode(o), v, err)
  {
    var items := o.items;
    ghost var rs := seq(|items|, i requires 0 <= i < |items| => Decode(items[i]));
    var result: seq<GoValue> := seq(|items|, _ => GoNil);
    var i := 0;
    while i < |items|
      invariant 0 <= i <= |items| && |result| == |items|
      invariant forall j :: 0 <= j < i ==> rs[j] == Success(result[j])
      invariant forall j :: i <= j < |items| ==> result[j] == GoNil
    {
      var item, e := ConvertFromCFType(items[i]);
      if e.Some? {
        FirstFailureUnique(rs, i);
        return GoNil, Some(AtIndex(i, e.value));
      }
      result := result[i := item];
      i := i + 1;
    }
    FirstFailureUnique(rs, |rs|);
    assert result == seq(|rs|, j requires 0 <= j < |rs| => rs[j].value);
    v, err := GoSlice(Interface, result), None;
  }

  /**
   * The dictionary branch of convertFromCFType: &keys[0] panics on an empty
   * dictionary; otherwise the entries in the order CoreFoundation lists them,
   * stopping at the first error.
   */
  method DictionaryFromCF(o: CFObject) returns (v: GoValue, err: Option<ConvError>)
    requires o.CFDictionary?
    decreases o, 0
    ensures Decoded(Decode(o), v, err)
  {
    var entries := o.entries;
    ghost var rs := map k | k in entries :: Decode(entries[k]);
    assert Decode(o) == DecodeDictionary(rs);
    if |entries| == 0 {
      assert |rs| == 0;
      return GoNil, Some(Panic(IndexOutOfRange));
    }
    var result: map<string, GoValue> := map[];
    var remaining := entries.Keys;
    while remaining != {}
      invariant remaining <= entries.Keys
      invariant result.Keys == entries.Keys - remaining
      invariant forall k :: k in result ==> rs[k] == Success(result[k])
      decreases remaining
    {
      var key :| key in remaining;
      var value, e := ConvertFromCFType(entries[key]);
      if e.Some? {
        DecodeDictionaryError(rs, key, e.value);
        return GoNil, Some(ForDictionaryKey(key, e.value));
      }
      result := result[key := value];
      remaining := remaining - {key};
    }
    assert result == map k | k in rs :: rs[k].value;
    v, err := GoMap(Interface, result), None;
  }

  /** A failing value makes the dictionary fail with that value's error, wrapped with its key. */
  lemma DecodeDictionaryError(rs: map<string, Result<GoValue>>, key: string, e: ConvError)
    requires key in rs && rs[key].Failure? && e in rs[key].errors
    ensures DecodeDictionary(rs).Failure? && ForDictionaryKey(key, e) in DecodeDictionary(rs).errors
  {
  }
}
