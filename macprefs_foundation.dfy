/**
 * The exported-name converter of mac_prefs/foundation.go.
 *
 * It shares the string, data and date helpers and mapToCFDictionary with
 * foundation.go and differs in ConvertToCFType and ConvertFromCFType: there
 * is no nil case, every number goes through an int64 and a float64 variable
 * and is stored as a double only when the float64 is non-zero, only
 * []interface{} and map[string]interface{} are aggregates, the map error is
 * wrapped once more, integers read back as int64, and a dictionary does not
 * read back at all.
 */
module MacPrefsFoundation {
  import opened Values
  import opened CoreFoundation
  import Foundation

  // ---------------------------------------------------------------------
  // Specification
  // ---------------------------------------------------------------------

  const TwoTo63: int := 0x8000_0000_0000_0000
  const TwoTo64: int := 0x1_0000_0000_0000_0000

  /** Go's int64(x) on an integer: x modulo 2^64, read as a two's-complement int64. */
  function Wrap64(x: int): (r: int)
    ensures -TwoTo63 <= r < TwoTo63
    ensures (x - r) % TwoTo64 == 0
  {
    var m := x % TwoTo64;
    assert x == (x / TwoTo64) * TwoTo64 + m;
    if m >= TwoTo63 then m - TwoTo64 else m
  }

  /** ConvertToCFType when every CF allocation succeeds; it never yields NilCFType on success. */
  function Encode(v: GoValue): Result<Option<CFObject>>
    decreases v, 1
  {
    match v
    case GoString(s) => Success(Some(CFString(s)))
    case GoBytes(b) => if |b| > MaxUint32 then Failure({DataTooLarge}) else Success(Some(CFData(b)))
    case GoBool(b) => Success(Some(CFBoolean(b)))
    case GoTime(_, _, _) => Success(Some(CFDate(Foundation.TimeToAbsolute(v))))
    case GoInt(_, i) => Success(Some(CFInteger(LongLongType, Wrap64(i))))
    case GoFloat(_, f) =>
      if IsZeroFloat(f) then Success(Some(CFInteger(LongLongType, 0))) else Success(Some(CFReal(DoubleType, f)))
    case GoSlice(Interface, items) =>
      Foundation.EncodeArray(seq(|items|, i requires 0 <= i < |items| => Encode(items[i])))
    case GoMap(Interface, _) =>
      WrapMapError(Foundation.EncodeDictionary(EntryEncodings(v)))
    case _ => Failure({UnsupportedType(TypeName(v))})
  }

  /** The encodings of the values of a map[string]interface{}, by key. */
  function EntryEncodings(v: GoValue): map<string, Result<Option<CFObject>>>
    requires v.GoMap?
    decreases v, 0
  {
    map k | k in v.entries :: Encode(v.entries[k])
  }

  /** "error converting map to CFDictionary: %v" around every error ConvertMapToCFDictionary returns. */
  function WrapMapError(r: Result<Option<CFObject>>): Result<Option<CFObject>>
  {
    if r.Success? then r else Failure(set e | e in r.errors :: ForMap(e))
  }

  /** ConvertFromCFType: no dictionary case. */
  function Decode(o: CFObject): Result<GoValue>
    decreases o
  {
    match o
    case CFString(s) => Success(GoString(s))
    case CFData(b) => Success(GoBytes(b))
    case CFBoolean(b) => Success(GoBool(b))
    case CFDate(absolute) => Success(Foundation.AbsoluteToTime(absolute))
    case CFInteger(_, i) => Success(GoInt(Int64, i))
    case CFReal(t, d) => if t == CGFloatType then Failure({UnsupportedNumberType}) else Success(GoFloat(Float64, d))
    case CFArray(items) =>
      Foundation.DecodeArray(seq(|items|, i requires 0 <= i < |items| => Decode(items[i])))
    case _ => Failure({UnsupportedCFType})
  }

  // ---------------------------------------------------------------------
  // Properties of the specification
  // ---------------------------------------------------------------------

  /** The values with no map inside: the only ones whose encoding can be read back. */
  predicate MapFree(v: GoValue)
    decreases v
  {
    match v
    case GoSlice(_, items) => forall i :: 0 <= i < |items| ==> MapFree(items[i])
    case GoMap(_, _) => false
    case _ => true
  }

  /**
   * What a value becomes after writing and reading back: integers come back
   * as int64 (wrapped), a zero float as the int64 0, other floats as
   * float64, a time as whole seconds in UTC, slices with interface{} items.
   */
  function Normal(v: GoValue): GoValue
    decreases v
  {
    match v
    case GoTime(u, _, _) => GoTime(u, 0, true)
    case GoInt(_, i) => GoInt(Int64, Wrap64(i))
    case GoFloat(_, f) => if IsZeroFloat(f) then GoInt(Int64, 0) else GoFloat(Float64, f)
    case GoSlice(_, items) => GoSlice(Interface, seq(|items|, i requires 0 <= i < |items| => Normal(items[i])))
    case _ => v
  }

  /** The values that read back DeepEqual to what was written. */
  predicate RoundTrips(v: GoValue)
    decreases v
  {
    match v
    case GoString(_) => true
    case GoBytes(b) => |b| <= MaxUint32
    case GoBool(_) => true
    case GoTime(_, nanos, utc) => nanos == 0 && utc
    case GoInt(k, i) => k == Int64 && -TwoTo63 <= i < TwoTo63
    case GoFloat(k, f) => k == Float64 && !IsZeroFloat(f)
    case GoSlice(c, items) =>
      c == Interface && |items| > 0 && forall i :: 0 <= i < |items| ==> RoundTrips(items[i])
    case _ => false
  }

  /** A successful encoding is always an object: with no nil case, NilCFType is never produced. */
  lemma EncodeIsObject(v: GoValue)
    requires Encode(v).Success?
    ensures Encode(v).value.Some?
  {
    match v
    case GoMap(Interface, _) =>
      Foundation.EncodeDictionarySuccess(EntryEncodings(v));
    case _ =>
  }

  /**
   * Hence no slice or map ever reaches CFArrayCreate or CFDictionaryCreate
   * with a NULL member while every allocation succeeds.
   */
  lemma {:induction false} NeverRetainsNull(v: GoValue)
    requires Encode(v).Failure?
    ensures Panic(RetainNull) !in Encode(v).errors
    decreases v
  {
    match v
    case GoSlice(Interface, items) =>
      var rs := seq(|items|, j requires 0 <= j < |items| => Encode(items[j]));
      var i := FirstFailure(rs);
      if i < |rs| {
        NeverRetainsNull(items[i]);
      } else {
        forall j | 0 <= j < |rs|
          ensures rs[j].value.Some?
        {
          assert rs[j] == Encode(items[j]);
          EncodeIsObject(items[j]);
        }
      }
    case GoMap(Interface, entries) =>
      var rs := EntryEncodings(v);
      if exists k :: k in rs && rs[k].Failure? {
        forall k, e | k in rs && rs[k].Failure? && e in rs[k].errors
          ensures ForMap(ForKey(k, e)) != Panic(RetainNull)
        {
          NeverRetainsNull(entries[k]);
        }
      } else {
        forall k | k in rs
          ensures rs[k].value.Some?
        {
          EncodeIsObject(entries[k]);
        }
      }
    case _ =>
  }

  /**
   * Reading back what Encode produced: a value without maps comes back
   * normalised; a value holding a map fails, as a CFDictionary is refused.
   */
  lemma {:induction false} DecodeEncode(v: GoValue)
    requires Encode(v).Success?
    ensures Encode(v).value.Some?
    ensures MapFree(v) ==> Decode(Encode(v).value.value) == Success(Normal(v))
    ensures !MapFree(v) ==> Decode(Encode(v).value.value).Failure?
    decreases v
  {
    EncodeIsObject(v);
    match v
    case GoSlice(_, items) =>
      var rs := seq(|items|, i requires 0 <= i < |items| => Encode(items[i]));
      assert Encode(v) == Foundation.EncodeArray(rs);
      FirstFailureUnique(rs, FirstFailure(rs));
      assert FirstFailure(rs) == |rs|;
      assert forall j :: 0 <= j < |rs| ==> rs[j].Success?;
      forall j | 0 <= j < |rs|
        ensures rs[j].value.Some?
      {
        assert rs[j] == Encode(items[j]);
        EncodeIsObject(items[j]);
      }
      var os := seq(|rs|, j requires 0 <= j < |rs| => rs[j].value.value);
      assert Encode(v).value.value == CFArray(os);
      var ds := seq(|os|, i requires 0 <= i < |os| => Decode(os[i]));
      assert Decode(CFArray(os)) == Foundation.DecodeArray(ds);
      if MapFree(v) {
        forall i | 0 <= i < |items|
          ensures ds[i] == Success(Normal(items[i]))
        {
          assert rs[i] == Encode(items[i]);
          DecodeEncode(items[i]);
        }
        FirstFailureUnique(ds, |ds|);
        assert seq(|ds|, j requires 0 <= j < |ds| => ds[j].value)
            == seq(|items|, i requires 0 <= i < |items| => Normal(items[i]));
      } else {
        var i :| 0 <= i < |items| && !MapFree(items[i]);
        assert rs[i] == Encode(items[i]);
        DecodeEncode(items[i]);
        assert ds[i].Failure?;
        assert FirstFailure(ds) < |ds|;
      }
    case GoMap(_, _) =>
      Foundation.EncodeDictionarySuccess(EntryEncodings(v));
    case _ =>
  }

  /** A map[string]interface{} is written as a CFDictionary, which this decoder refuses. */
  lemma MapsDoNotRoundTrip(entries: map<string, GoValue>)
    requires Encode(GoMap(Interface, entries)).Success?
    ensures Encode(GoMap(Interface, entries)).value.Some?
    ensures Decode(Encode(GoMap(Interface, entries)).value.value) == Failure({UnsupportedCFType})
  {
    Foundation.EncodeDictionarySuccess(EntryEncodings(GoMap(Interface, entries)));
  }

  /** The round-trip values encode, contain no map, and normalisation leaves them unchanged. */
  lemma {:induction false} RoundTripsNormal(v: GoValue)
    requires RoundTrips(v)
    ensures Encode(v).Success? && MapFree(v) && Normal(v) == v
    decreases v
  {
    match v
    case GoSlice(_, items) =>
      var rs := seq(|items|, i requires 0 <= i < |items| => Encode(items[i]));
      forall i | 0 <= i < |items|
        ensures rs[i].Success? && MapFree(items[i]) && Normal(items[i]) == items[i]
      {
        RoundTripsNormal(items[i]);
      }
      forall j | 0 <= j < |rs|
        ensures rs[j].value.Some?
      {
        assert rs[j] == Encode(items[j]);
        EncodeIsObject(items[j]);
      }
      FirstFailureUnique(rs, |rs|);
      assert seq(|items|, i requires 0 <= i < |items| => Normal(items[i])) == items;
    case GoInt(_, i) =>
      Wrap64InRange(i);
    case _ =>
  }

  /**
   * This variant's round trip, over its own class RoundTrips (map-free,
   * int64 integers, non-zero floats): writing such a value and reading it
   * back yields exactly that value.
   */
  lemma RoundTrip(v: GoValue)
    requires RoundTrips(v)
    ensures Encode(v).Success? && Encode(v).value.Some?
    ensures Decode(Encode(v).value.value) == Success(v)
  {
    RoundTripsNormal(v);
    DecodeEncode(v);
  }

  /** int64(x) leaves every value in the int64 range alone. */
  lemma Wrap64InRange(x: int)
    requires -TwoTo63 <= x < TwoTo63
    ensures Wrap64(x) == x
  {
    if x < 0 {
      assert x % TwoTo64 == x + TwoTo64;
    } else {
      assert x % TwoTo64 == x;
    }
  }

  /** A uint64 above MaxInt64 is stored as a negative number, where foundation.go panics. */
  lemma Uint64Wraps(i: int)
    requires TwoTo63 <= i < TwoTo64
    ensures Encode(GoInt(Uint64, i)) == Success(Some(CFInteger(LongLongType, i - TwoTo64)))
    ensures Foundation.Encode(GoInt(Uint64, i)) == Failure({Panic(IntOnUnsigned(Uint64))})
  {
    assert i % TwoTo64 == i;
  }

  /**
   * The stored number format follows the float64 variable, not the Go type:
   * a double exactly when it is non-zero, otherwise a LongLong of the int64
   * variable, so every integer and both float zeroes are stored as integers.
   */
  lemma NumberFormat(k: IntKind, i: int, fk: FloatKind, f: FloatBits)
    ensures Encode(GoInt(k, i)) == Success(Some(CFInteger(LongLongType, Wrap64(i))))
    ensures Encode(GoFloat(fk, f)).Success? && Encode(GoFloat(fk, f)).value.Some?
    ensures Encode(GoFloat(fk, f)).value.value.CFReal? <==> !IsZeroFloat(f)
    ensures IsZeroFloat(f) ==> Encode(GoFloat(fk, f)) == Success(Some(CFInteger(LongLongType, 0)))
    ensures Decode(Encode(GoFloat(fk, 0)).value.value) == Success(GoInt(Int64, 0))
    ensures Decode(Encode(GoFloat(fk, 0x8000_0000_0000_0000)).value.value) == Success(GoInt(Int64, 0))  // -0.0
    ensures Foundation.Encode(GoFloat(fk, 0)) == Success(Some(CFReal(DoubleType, 0)))
  {
  }

  /** Integer-tagged numbers read back as int64 here and as int in foundation.go. */
  lemma IntegersDecodeToInt64(t: IntegerType, i: int)
    ensures Decode(CFInteger(t, i)) == Success(GoInt(Int64, i))
    ensures Foundation.Decode(CFInteger(t, i)) == Success(GoInt(Int, i))
  {
  }

  /** nil has no case of its own: it is an unsupported type, where foundation.go writes NilCFType. */
  lemma NoNilCase()
    ensures Encode(GoNil) == Failure({UnsupportedType("<nil>")})
    ensures Foundation.Encode(GoNil) == Success(None)
  {
  }

  /** Typed slices and maps are unsupported types here; foundation.go converts them through reflection. */
  lemma OnlyInterfaceAggregates(n: string, items: seq<GoValue>, entries: map<string, GoValue>)
    ensures Encode(GoSlice(Typed(n), items)) == Failure({UnsupportedType(n)})
    ensures Encode(GoMap(Typed(n), entries)) == Failure({UnsupportedType(n)})
    ensures Foundation.Encode(GoSlice(Typed(n), items)) == Foundation.Encode(GoSlice(Interface, items))
  {
  }

  /** The string, data, boolean and date conversions and their byte bound and epoch agree with foundation.go. */
  lemma SharedConversions(s: string, b: seq<byte>, x: bool, unix: int, nanos: nat, utc: bool, absolute: real)
    ensures Encode(GoString(s)) == Foundation.Encode(GoString(s))
    ensures Encode(GoBytes(b)) == Foundation.Encode(GoBytes(b))
    ensures Encode(GoBool(x)) == Foundation.Encode(GoBool(x))
    ensures Encode(GoTime(unix, nanos, utc)) == Foundation.Encode(GoTime(unix, nanos, utc))
    ensures Decode(CFString(s)) == Foundation.Decode(CFString(s))
    ensures Decode(CFData(b)) == Foundation.Decode(CFData(b))
    ensures Decode(CFBoolean(x)) == Foundation.Decode(CFBoolean(x))
    ensures Decode(CFDate(absolute)) == Foundation.Decode(CFDate(absolute))
  {
  }

  /** The failing item with the lowest index decides an array's error, wrapped with that index. */
  lemma ArrayFailsAtFirstBadItem(items: seq<GoValue>, i: nat)
    requires i < |items| && Encode(items[i]).Failure?
    requires forall j :: 0 <= j < i ==> Encode(items[j]).Success?
    ensures Encode(GoSlice(Interface, items)) == Failure(set e | e in Encode(items[i]).errors :: AtIndex(i, e))
  {
    var rs := seq(|items|, j requires 0 <= j < |items| => Encode(items[j]));
    FirstFailureUnique(rs, i);
  }

  /** A failing map value is reported with its key and then with the map wrapper, unless it panicked. */
  lemma MapValueError(entries: map<string, GoValue>, k: string, e: ConvError)
    requires k in entries && Encode(entries[k]).Failure? && e in Encode(entries[k]).errors
    ensures Encode(GoMap(Interface, entries)).Failure?
    ensures ForMap(ForKey(k, e)) in Encode(GoMap(Interface, entries)).errors
    ensures !e.Panic? ==> MapToDictionary(ValueForKey(k, e)) in Encode(GoMap(Interface, entries)).errors
  {
    var rs := EntryEncodings(GoMap(Interface, entries));
    assert rs[k] == Encode(entries[k]);
    assert ForKey(k, e) in Foundation.EncodeDictionary(rs).errors;
  }

  /** Empty aggregates cannot be written (&s[0] panics); an empty array reads back, a dictionary never does. */
  lemma EmptyAggregates()
    ensures Encode(GoSlice(Interface, [])) == Failure({Panic(IndexOutOfRange)})
    ensures Encode(GoMap(Interface, map[])) == Failure({Panic(IndexOutOfRange)})
    ensures Decode(CFArray([])) == Success(GoSlice(Interface, []))
    ensures Decode(CFDictionary(map[])) == Failure({UnsupportedCFType})
  {
    var none: seq<Result<GoValue>> := [];
    assert FirstFailure(none) == 0;
    assert |Foundation.DecodeArray(none).value.items| == 0;
    var noItems: seq<CFObject> := [];
    assert Decode(CFArray(noItems)) == Foundation.DecodeArray(none);
    var noEntries: map<string, Result<Option<CFObject>>> := map[];
    assert EntryEncodings(GoMap(Interface, map[])) == noEntries;
  }

  // ---------------------------------------------------------------------
  // The conversion code over a CoreFoundation runtime
  // ---------------------------------------------------------------------

  /**
   * The numeric case of ConvertToCFType: the inner type switch sets
   * int64Value or floatValue (the other stays zero), then the float64
   * decides which CFNumber is created. CFNumberCreate's NULL is not checked.
   */
  method NumberToCFNumber(rt: CFRuntime, value: GoValue) returns (h: Handle)
    requires rt.Valid() && (value.GoInt? || value.GoFloat?)
    modifies rt
    ensures rt.Valid() && rt.Extends(old(rt.objects), old(rt.owned), old(rt.next))
    ensures rt.next == old(rt.next) + 1
    ensures h == if old(rt.next) in rt.failing then NilRef else old(rt.next)
    ensures rt.owned == if h == NilRef then old(rt.owned) else old(rt.owned) + {h}
    ensures h != NilRef ==> rt.objects == old(rt.objects)[h := Encode(value).value.value]
    ensures h == NilRef ==> rt.objects == old(rt.objects)
  {
    var int64Value: int := 0;
    var floatValue: FloatBits := 0;
    if value.GoInt? {
      int64Value := Wrap64(value.i);
    } else {
      floatValue := value.f;
    }
    if !IsZeroFloat(floatValue) {
      h := rt.NumberCreateDouble(floatValue);
    } else {
      h := rt.NumberCreateLongLong(int64Value);
    }
  }

  /**
   * ConvertToCFType. A successful conversion hands back every reference it
   * created, nested ones included: nothing it made is released.
   */
  method ConvertToCFType(rt: CFRuntime, value: GoValue) returns (h: Handle, err: Option<ConvError>)
    requires rt.Valid()
    modifies rt
    decreases value, 3
    ensures rt.Valid() && rt.Extends(old(rt.objects), old(rt.owned), old(rt.next))
    ensures err.Some? ==> h == NilRef
    ensures h != NilRef ==> h in rt.objects && rt.Live(h) && (IsSingleton(h) || old(rt.next) <= h == rt.next - 1)
    ensures err.None? ==> rt.owned == old(rt.owned) + rt.CreatedSince(old(rt.next))
    ensures value.GoNil? ==>
      && err == Some(UnsupportedType("<nil>"))
      && rt.objects == old(rt.objects) && rt.owned == old(rt.owned) && rt.next == old(rt.next)
    ensures value.GoBool? ==> rt.objects == old(rt.objects) && rt.owned == old(rt.owned) && rt.next == old(rt.next)
    ensures err.Some? && err.value.Panic? ==> rt.owned == old(rt.owned) + rt.CreatedSince(old(rt.next))
    ensures rt.NoFailureSince(old(rt.next)) ==> Foundation.Yields(rt.objects, Encode(value), h, err)
  {
    match value
    case GoString(s) =>
      h, err := Foundation.StringToCFString(rt, s);
    case GoBytes(b) =>
      h, err := Foundation.BytesToCFData(rt, b);
    case GoBool(b) =>
      h, err := if b then TrueRef else FalseRef, None;
    case GoTime(_, _, _) =>
      h := Foundation.TimeToCFDate(rt, value);
      err := None;
    case GoInt(_, _) =>
      h := NumberToCFNumber(rt, value);
      err := None;
    case GoFloat(_, _) =>
      h := NumberToCFNumber(rt, value);
      err := None;
    case GoSlice(Interface, _) =>
      ghost var converted, failedFrom;
      h, err, converted, failedFrom := ConvertArray(rt, value);
    case GoMap(Interface, _) =>
      ghost var pairs, failedKey;
      h, err, pairs, failedKey := ConvertMapToCFDictionary(rt, value);
      if err.Some? {
        if rt.NoFailureSince(old(rt.next)) {
          assert ForMap(err.value) in WrapMapError(Foundation.EncodeDictionary(EntryEncodings(value))).errors;
        }
        err := Some(ForMap(err.value));
      }
    case _ =>
      h, err := NilRef, Some(UnsupportedType(TypeName(value)));
  }

  /**
   * The []interface{} case of ConvertToCFType: items in index order, stopping
   * at the first error and leaving the items already converted unreleased.
   * converted holds the item references made before the error, and
   * failedFrom is the first handle of the item whose conversion failed.
   */
  method ConvertArray(rt: CFRuntime, slice: GoValue)
    returns (h: Handle, err: Option<ConvError>, ghost converted: seq<Handle>, ghost failedFrom: Handle)
    requires rt.Valid() && slice.GoSlice? && slice.elem == Interface
    modifies rt
    decreases slice, 1
    ensures rt.Valid() && rt.Extends(old(rt.objects), old(rt.owned), old(rt.next))
    ensures err.Some? ==> h == NilRef
    ensures h != NilRef ==> h in rt.objects && rt.Live(h) && old(rt.next) <= h == rt.next - 1
    ensures err.None? ==> rt.owned == old(rt.owned) + rt.CreatedSince(old(rt.next))
    ensures |converted| <= |slice.items|
    ensures err.Some? ==> Foundation.SliceFailed(rt.objects, rt.owned, rt.next, old(rt.next), failedFrom, converted)
    ensures err.Some? && err.value.ArrayItem? ==> |converted| == err.value.index
    ensures err.Some? && err.value.Panic? ==> rt.owned == old(rt.owned) + rt.CreatedSince(old(rt.next))
    ensures rt.NoFailureSince(old(rt.next)) ==> Foundation.Yields(rt.objects, Encode(slice), h, err)
  {
    var items := slice.items;
    ghost var start := rt.next;
    ghost var rs := seq(|items|, i requires 0 <= i < |items| => Encode(items[i]));
    var cfValues: seq<Handle> := [];
    var i := 0;
    while i < |items|
      invariant 0 <= i <= |items| && |cfValues| == i
      invariant rt.Valid() && start <= rt.next
      invariant Foundation.SliceLoop(rt.objects, rt.owned, rt.next, rt.failing, old(rt.objects), old(rt.owned), start,
                                     cfValues, rs)
    {
      ghost var objs, owned, mid := rt.objects, rt.owned, rt.next;
      var cfItem, e := ConvertToCFType(rt, items[i]);
      assert rs[i] == Encode(items[i]);
      if e.Some? {
        Foundation.SliceFailStep(objs, owned, mid, rt.objects, rt.owned, rt.next, old(rt.objects), old(rt.owned), start,
                                 cfValues, rt.failing, rs, e.value.Panic?);
        if rt.NoFailureSince(start) {
          assert NoneFail(rt.failing, mid, rt.next);
          FirstFailureUnique(rs, i);
        }
        return NilRef, Some(AtIndex(i, e.value)), cfValues, mid;
      }
      Foundation.SliceLoopStep(objs, owned, mid, rt.objects, rt.owned, rt.next, rt.failing, old(rt.objects),
                               old(rt.owned), start, cfValues, rs, cfItem);
      cfValues := cfValues + [cfItem];
      i := i + 1;
    }
    converted, failedFrom := cfValues, rt.next;
    if |cfValues| == 0 {
      return NilRef, Some(Panic(IndexOutOfRange)), converted, failedFrom;
    }
    ghost var before := rt.objects;
    var arr, crashed := rt.ArrayCreate(cfValues);
    if crashed {
      if rt.NoFailureSince(start) {
        FirstFailureUnique(rs, |rs|);
      }
      return NilRef, Some(Panic(RetainNull)), converted, failedFrom;
    }
    // the result of CFArrayCreate is returned without a NULL check
    h, err := arr, None;
    if rt.NoFailureSince(start) {
      assert Encode(slice) == Foundation.EncodeArray(rs);
      Foundation.DenoteArray(before, cfValues, rs);
    }
  }

  /**
   * One round of the loop of ConvertMapToCFDictionary: the key string, then
   * the value; when the value fails, the key reference is released (unless
   * the failure is a panic, which unwinds first).
   */
  method ConvertPair(rt: CFRuntime, value: GoValue, key: string)
    returns (keyRef: Handle, valueRef: Handle, err: Option<ConvError>)
    requires rt.Valid() && value.GoMap? && key in value.entries
    modifies rt
    decreases value, 0
    ensures rt.Valid() && rt.Extends(old(rt.objects), old(rt.owned), old(rt.next))
    ensures err.Some? ==> err.value.KeyToCFString? || err.value.ValueForKey? || err.value.Panic?
    ensures err.Some? && (err.value.KeyToCFString? || err.value.Panic?) ==>
      rt.owned == old(rt.owned) + rt.CreatedSince(old(rt.next))
    ensures err.None? || (err.Some? && err.value.ValueForKey?) ==>
      && keyRef == old(rt.next) && keyRef in rt.objects && rt.objects[keyRef] == CFString(key)
    ensures err.Some? && err.value.ValueForKey? ==> err.value.key == key && keyRef !in rt.owned
    ensures err.None? ==>
      && rt.owned == old(rt.owned) + rt.CreatedSince(old(rt.next))
      && (valueRef == NilRef || (valueRef in rt.objects && rt.Live(valueRef)
                                 && (IsSingleton(valueRef) || keyRef < valueRef == rt.next - 1)))
    ensures rt.NoFailureSince(old(rt.next)) ==>
      Foundation.PairYields(rt.objects, EntryEncodings(value)[key], key, valueRef, err)
  {
    var e;
    keyRef, e := Foundation.StringToCFString(rt, key);
    if e.Some? {
      return NilRef, NilRef, Some(KeyToCFString(e.value));
    }
    ghost var mid := rt.next;
    ghost var objs := rt.objects;
    assert EntryEncodings(value)[key] == Encode(value.entries[key]);
    valueRef, e := ConvertToCFType(rt, value.entries[key]);
    if e.Some? {
      if rt.NoFailureSince(old(rt.next)) {
        assert rt.NoFailureSince(mid);
        assert e.value in Encode(value.entries[key]).errors;
        assert ForKey(key, e.value) == if e.value.Panic? then e.value else ValueForKey(key, e.value);
      }
      if e.value.Panic? {
        // the panic unwinds before keyRef is released
        CreatedSplit(objs, rt.objects, old(rt.next), mid);
        return NilRef, NilRef, e;
      }
      rt.Release(keyRef);
      return keyRef, NilRef, Some(ValueForKey(key, e.value));
    }
    CreatedSplit(objs, rt.objects, old(rt.next), mid);
    if rt.NoFailureSince(old(rt.next)) {
      assert rt.NoFailureSince(mid);
    }
    err := None;
  }

  /**
   * The loop of ConvertMapToCFDictionary, over the keys in an arbitrary
   * order: m maps each key reference to its value reference, keyOf files the
   * key references by string, and failedKey is the key reference released
   * after its value failed.
   */
  method ConvertEntries(rt: CFRuntime, value: GoValue)
    returns (m: map<Handle, Handle>, err: Option<ConvError>, ghost keyOf: map<string, Handle>, ghost failedKey: Handle)
    requires rt.Valid() && value.GoMap?
    modifies rt
    decreases value, 1
    ensures rt.Valid()
    ensures err.None? ==>
      Foundation.EntriesLoop(rt.objects, rt.owned, rt.next, rt.failing, old(rt.objects), old(rt.owned), old(rt.next),
                             m, keyOf, EntryEncodings(value), value.entries.Keys)
    ensures err.Some? ==>
      Foundation.EntriesFailed(rt.objects, rt.owned, rt.next, rt.failing, old(rt.objects), old(rt.owned), old(rt.next),
                               m, keyOf, value.entries, EntryEncodings(value), err.value, failedKey)
  {
    var attr := value.entries;
    ghost var start := rt.next;
    ghost var rs := EntryEncodings(value);
    m := map[];
    keyOf := map[];
    failedKey := NilRef;
    var remaining := attr.Keys;
    while remaining != {}
      invariant remaining <= attr.Keys && rt.Valid() && start <= rt.next
      invariant Foundation.EntriesLoop(rt.objects, rt.owned, rt.next, rt.failing, old(rt.objects), old(rt.owned), start,
                                       m, keyOf, rs, attr.Keys - remaining)
      decreases remaining
    {
      var key :| key in remaining;
      ghost var objs, owned, head := rt.objects, rt.owned, rt.next;
      var keyRef, valueRef, e := ConvertPair(rt, value, key);
      if e.Some? {
        Foundation.EntriesFailStep(objs, owned, head, rt.objects, rt.owned, rt.next, rt.failing, old(rt.objects),
                                   old(rt.owned), start, m, keyOf, attr, rs, key, keyRef, e.value);
        return m, e, keyOf, keyRef;
      }
      Foundation.EntriesLoopStep(objs, owned, head, rt.objects, rt.owned, rt.next, rt.failing, old(rt.objects),
                                 old(rt.owned), start, m, keyOf, rs, attr.Keys - remaining, key, keyRef, valueRef);
      m := m[keyRef := valueRef];
      keyOf := keyOf[key := keyRef];
      remaining := remaining - {key};
    }
    err := None;
  }

  /**
   * ConvertMapToCFDictionary: the same loop and the same release rules as
   * in foundation.go, over this file's ConvertToCFType. On success every
   * reference made along the way is still held; on every error but a failed
   * CFDictionaryCreate the pairs made so far stay held as well.
   */
  method ConvertMapToCFDictionary(rt: CFRuntime, value: GoValue)
    returns (h: Handle, err: Option<ConvError>, ghost pairs: map<Handle, Handle>, ghost failedKey: Handle)
    requires rt.Valid() && value.GoMap? && value.valueType == Interface
    modifies rt
    decreases value, 2
    ensures rt.Valid() && rt.Extends(old(rt.objects), old(rt.owned), old(rt.next))
    ensures err.Some? ==> h == NilRef
    ensures h != NilRef ==> h in rt.objects && rt.Live(h) && old(rt.next) <= h == rt.next - 1
    ensures Foundation.PairsFrom(rt.objects, pairs, old(rt.next), value.entries)
    ensures err.None? || (err.Some? && (err.value.KeyToCFString? || err.value.Panic?)) ==>
      rt.owned == old(rt.owned) + rt.CreatedSince(old(rt.next))
    ensures err.Some? && err.value.ValueForKey? ==>
      && old(rt.next) <= failedKey && failedKey in rt.objects && failedKey !in rt.owned
      && rt.objects[failedKey] == CFString(err.value.key)
      && (forall x :: x in rt.objects && old(rt.next) <= x < failedKey ==> x in rt.owned)
    ensures err != Some(DictionaryCreateFailed) ==> Foundation.PairsHeld(rt.owned, pairs)
    ensures err == Some(DictionaryCreateFailed) ==>
      rt.owned == old(rt.owned) + rt.CreatedSince(old(rt.next)) - pairs.Keys - pairs.Values
    ensures rt.NoFailureSince(old(rt.next)) ==>
      Foundation.Yields(rt.objects, Foundation.EncodeDictionary(EntryEncodings(value)), h, err)
  {
    ghost var keyOf;
    var m;
    m, err, keyOf, failedKey := ConvertEntries(rt, value);
    pairs := m;
    if err.Some? {
      return NilRef, err, pairs, failedKey;
    }
    failedKey := NilRef;
    Foundation.EntriesReady(rt, m, keyOf, old(rt.next));
    ghost var o1, ow1, n1 := rt.objects, rt.owned, rt.next;
    h, err := Foundation.DictionaryFromPairs(rt, m, keyOf, EntryEncodings(value));
    Foundation.DictionaryOutcome(old(rt.objects), old(rt.owned), old(rt.next), o1, ow1, n1, rt.objects, rt.owned,
                                 rt.next, rt.failing, m, keyOf, value.entries, EntryEncodings(value), h, err);
    assert EntryEncodings(value).Keys == value.entries.Keys;
    Foundation.DictionaryResult(o1, ow1, n1, rt.objects, rt.next, rt.failing, old(rt.objects), old(rt.owned),
                                old(rt.next), m, keyOf, EntryEncodings(value), h, err);
  }

  // ---------------------------------------------------------------------
  // Reading CoreFoundation objects back
  // ---------------------------------------------------------------------

  /** ConvertFromCFType on the object a reference refers to. */
  method ConvertFromCFType(o: CFObject) returns (v: GoValue, err: Option<ConvError>)
    decreases o, 1
    ensures Foundation.Decoded(Decode(o), v, err)
  {
    match o
    case CFString(s) =>
      v, err := GoString(s), None;
    case CFData(b) =>
      v, err := GoBytes(b), None;
    case CFBoolean(b) =>
      v, err := GoBool(b), None;
    case CFDate(absolute) =>
      v, err := Foundation.AbsoluteToTime(absolute), None;
    case CFInteger(_, i) =>
      // read with kCFNumberLongLongType into an int64, returned as is
      v, err := GoInt(Int64, i), None;
    case CFReal(t, d) =>
      if t == CGFloatType {
        v, err := GoNil, Some(UnsupportedNumberType);
      } else {
        v, err := GoFloat(Float64, d), None;
      }
    case CFArray(_) =>
      v, err := ArrayFromCF(o);
    case _ =>
      v, err := GoNil, Some(UnsupportedCFType);
  }

  /** The array case of ConvertFromCFType: items in index order, stopping at the first error. */
  method ArrayFromCF(o: CFObject) returns (v: GoValue, err: Option<ConvError>)
    requires o.CFArray?
    decreases o, 0
    ensures Foundation.Decoded(Decode(o), v, err)
  {
    var items := o.items;
    ghost var rs := seq(|items|, i requires 0 <= i < |items| => Decode(items[i]));
    var result: seq<GoValue> := seq(|items|, _ => GoNil);
    var i := 0;
    while i < |items|
      invariant 0 <= i <= |items| && |result| == |items|
      invariant forall j :: 0 <= j < i ==> rs[j] == Success(result[j])
      invariant forall j :: i <= j < |items| ==> result[j] == GoNil
    {
      var item, e := ConvertFromCFType(items[i]);
      if e.Some? {
        FirstFailureUnique(rs, i);
        return GoNil, Some(AtIndex(i, e.value));
      }
      result := result[i := item];
      i := i + 1;
    }
    FirstFailureUnique(rs, |rs|);
    assert result == seq(|rs|, j requires 0 <= j < |rs| => rs[j].value);
    v, err := GoSlice(Interface, result), None;
  }
}
