# mac_prefs value converter and preference functions, in Dafny

This project models the core of `weswhet/mac_prefs`, a Go package that reads
and writes macOS preferences through CoreFoundation (CF). Three parts are
modelled:

- **The converter of `foundation.go`.** It turns a Go dynamic value into a
  CF property-list object: `convertToCFType`, `convertSliceToCFArray`,
  `convertMapToCFDictionary` and `mapToCFDictionary`. It also reads one back:
  `convertFromCFType`. The helpers come with it: `stringToCFString`,
  `bytesToCFData`, `timeToCFDate`/`cfDateToTime` and `release`.
- **The exported-name variant in `mac_prefs/foundation.go`.** It differs in
  several ways:
  - it has no nil case;
  - it picks the number format by testing the float64 variable against zero;
  - every integer goes through `int64(...)`;
  - integers read back as int64;
  - maps get one extra error wrapper;
  - its decoder has no dictionary case.
- **The preference functions of `mac_prefs/mac_prefs.go`.** These are `Set`,
  `SetApp`, `Get` and `GetApp`, with the scope constants and the scope
  switches. They are modelled over an abstract store that maps (application
  ID, user, host, key) to a CF object.

Modules:

- `values.dfy` (`Values`): the Go value datatype, the CF object datatype, the
  conversion errors and `Result`. Go map iteration order is unspecified, so a
  failing conversion is described by the *set* of errors it may report.
- `corefoundation.dfy` (`CoreFoundation`): the class `CFRuntime`, a ledger
  of handles.
  - Every Create call hands back a new owned reference, or NULL when it
    fails.
  - The two boolean singletons are owned by nobody.
  - `CFRelease` gives up one reference.
  - Allocation failure is not computed: the constant `failing` names the
    creation calls that return NULL.
- `foundation.dfy` (`Foundation`) has two halves:
  - the pure specification, `Encode`/`Decode` with their properties;
  - the Go code as methods over a `CFRuntime`, each proved to produce what
    `Encode`/`Decode` describe while no allocation fails. Each method also
    states which references stay held: every one it made on success and on a
    panic, and on the other errors the ones its row lists.
- `macprefs_foundation.dfy` (`MacPrefsFoundation`): the same for the variant.
  It reuses the shared helpers and loop invariants of `Foundation`.
- `macprefs.dfy` (`MacPrefs`) holds the store specification and its lemmas,
  plus the class `Preferences`. Its methods `Set`, `SetApp`, `Get` and
  `GetApp` follow the Go code step by step: handles are created, the deferred
  releases run, the scope is switched on, and the store is written before
  synchronizing.

An abnormal stop is an explicit error, `Panic(reason)`. A wrapping
`fmt.Errorf` never wraps it, and `MacPrefs` reports it as `Panicked(reason)`.
Three reasons are Go run-time panics. They unwind, and the deferred releases
of `mac_prefs/mac_prefs.go` still run:

- `reflect.Value.Int` on an unsigned kind;
- the `.(map[string]interface{})` assertion on another map type;
- `&s[0]` on an empty slice.

The fourth, `RetainNull`, is not a Go panic. `CFRetain(NULL)` inside
`CFArrayCreate`/`CFDictionaryCreate` is a CoreFoundation trap that ends the
process, so no deferred call runs after it. The model returns it as an error
whose state is the state at the trap (`MacPrefs.Aborts`): every reference
made so far, the key included, is still held.

`mac_prefs/mac_prefs.go` calls lower-case helpers (`stringToCFString`,
`convertToCFType`, `convertFromCFType`, `release`). Of the two converter files,
only the root `foundation.go` defines functions with those names;
`mac_prefs/foundation.go` beside it defines the exported ones. The model
follows the calls by the names the text uses, so `MacPrefs` is built on
`Foundation`. This is a choice about which definitions the names denote, not
a claim about how Go builds the packages, since Go compiles a package from
one directory. `MacPrefsFoundation` stands on its own as the second converter.

## Model

| member | source | states |
|---|---|---|
| Values.FirstFailure | foundation.go:227-233 | the index of the first failing conversion: every earlier one succeeded, and it failed or is the length |
| CoreFoundation.CFRuntime.StringCreate | foundation.go:53 | CFStringCreateWithCString returns NULL when the call fails, otherwise a new owned reference to the string; nothing older changes |
| CoreFoundation.CFRuntime.DataCreate | foundation.go:37 | CFDataCreate: NULL on failure, otherwise a new owned reference to exactly those bytes |
| CoreFoundation.CFRuntime.DateCreate | foundation.go:147 | CFDateCreate: NULL on failure, otherwise a new owned date with that absolute time |
| CoreFoundation.CFRuntime.NumberCreateLongLong | foundation.go:187 | CFNumberCreate with kCFNumberLongLongType: NULL or a new owned LongLong number |
| CoreFoundation.CFRuntime.NumberCreateDouble | foundation.go:190 | CFNumberCreate with kCFNumberDoubleType: NULL or a new owned Double number |
| CoreFoundation.CFRuntime.ArrayCreate | foundation.go:234 | a NULL member aborts the process in the retain callback, reported as RetainNull, and nothing is created; otherwise NULL or a new array of the members in order |
| CoreFoundation.CFRuntime.DictionaryCreate | foundation.go:85 | a NULL value aborts the process (RetainNull); otherwise NULL or a new dictionary pairing each key string with its value |
| CoreFoundation.CFRuntime.Release | foundation.go:140 | CFRelease gives up exactly that reference and changes no object |
| Foundation.Truncate | foundation.go:153 | Go's int64 of a float: the whole number next to x toward zero |
| Foundation.DecodeEncode | foundation.go:157-298 | reading back a successful non-nil encoding gives the normalised value: int kinds as int, floats as float64, whole-second UTC times, interface{} aggregates |
| Foundation.DecodeEncodeSlice | foundation.go:224-236 | the slice case of DecodeEncode: each element reads back normalised, in index order |
| Foundation.DecodeEncodeMap | foundation.go:109-135 | the map case of DecodeEncode: each value reads back normalised under its key |
| Foundation.EncodeDictionarySuccess | foundation.go:78-90 | a successful dictionary has at least one pair, and every value converted to a non-NULL object |
| Foundation.DecodeDictionarySuccess | foundation.go:279-294 | a dictionary whose values all decode reads back as the map of those values |
| Foundation.RoundTripsNormal | foundation.go:157-222 | the round-trip values encode to an object and are their own normal form |
| Foundation.RoundTrip | mac_prefs/mac_prefs_test.go:70-87 | a string, int, float64, byte slice, bool, whole-second UTC time, or non-empty interface{} aggregate of such values reads back DeepEqual to what was written |
| Foundation.NilIsNoObject | foundation.go:158-160 | nil encodes to NilCFType without an error |
| Foundation.BoolRoundTrip | foundation.go:175-179 | a bool encodes to its singleton and decodes back to the same bool |
| Foundation.BytesRoundTrip | foundation.go:29-46 | over MaxUint32 bytes fails with "data is too large"; every other byte slice, the empty one included, reads back unchanged |
| Foundation.TimeRoundTrip | foundation.go:145-154 | a time is stored as Unix seconds minus 978307200 and reads back with no sub-second part and in UTC |
| Foundation.DateTruncatesTowardZero | foundation.go:151-154 | a fractional absolute time reads back truncated toward zero |
| Foundation.NumberDecoding | foundation.go:250-265 | the eleven integer tags read back as int and the four listed float tags as float64; CGFloat is "unsupported CFNumber type" |
| Foundation.OtherTypesRefused | foundation.go:295-296 | a type ID the switch does not list is "unsupported CFTypeRef type" |
| Foundation.SliceFailsAtFirstBadElement | foundation.go:227-231 | the failing element with the lowest index decides a slice's error, wrapped with that index |
| Foundation.EncodeFailureHasError | foundation.go:157-222 | every failing conversion reports at least one error |
| Foundation.EmptyAggregates | foundation.go:85 | empty slices and maps panic at &s[0]; an empty array reads back as an empty slice; an empty dictionary panics when read |
| Foundation.NilElementCrashes | foundation.go:224-234 | any slice whose elements all convert, one of them to NilCFType, fails with the RetainNull abort alone |
| Foundation.TestExamples | mac_prefs/mac_prefs_test.go:20-67 | the test values "TestValue", 42, 3.14, the fruit slice, the John map and 2023-05-01T12:00:00Z all round-trip |
| Foundation.Release | foundation.go:138-142 | a no-op on NilCFType; otherwise exactly that reference is released |
| Foundation.StringToCFString | foundation.go:50-58 | a failed creation returns NULL with "CFStringCreateWithCString failed" and holds nothing new; otherwise a new reference to the string |
| Foundation.BytesToCFData | foundation.go:29-42 | the length check comes before any allocation; then a failure is "CFDataCreate failed", and success a new data reference with those bytes |
| Foundation.TimeToCFDate | foundation.go:145-148 | the date holds Unix seconds minus 978307200; a NULL from CFDateCreate is passed on without an error |
| Foundation.ConvertToCFType | foundation.go:157-222 | with no allocation failure it returns what Encode describes, for the value and for each of its errors; every reference made stays held on success; a scalar holds at most its result; nil and bool create nothing |
| Foundation.ConvertSliceToCFArray | foundation.go:224-236 | elements converted in index order, stopping at the first error; on an error the elements already converted, and everything made before the failing element, stay held (ArrayItem carries their count); a panic releases nothing; with no failure the result is what Encode describes |
| Foundation.MapToCFDictionary | foundation.go:78-90 | no pairs panics at &keys[0]; a NULL value aborts (RetainNull); otherwise the dictionary of the pairs, whatever order they are laid out in, or "CFDictionaryCreate failed" |
| Foundation.LayOut | foundation.go:79-84 | the parallel key and value slices hold every pair exactly once, in matching positions |
| Foundation.LayOutDictionary | foundation.go:85 | the dictionary made from the parallel slices is the dictionary of the pairs, whatever their order |
| Foundation.ReleasePairs | foundation.go:128-131 | the release loop gives up every key and every value reference of the pairs |
| Foundation.ConvertPair | foundation.go:112-123 | the key string, then the value; a failing value releases the key (unless it panicked) and is reported with the key name |
| Foundation.ConvertEntries | foundation.go:110-124 | the loop over the map in any order; on success every key is paired with a value that is what its encoding describes; on an error the pairs already made stay held, a key failure or a panic releases nothing, and a value failure releases only its own key |
| Foundation.ConvertMapToCFDictionary | foundation.go:109-135 | with no allocation failure the result is what EncodeDictionary describes; a failing value releases its key and keeps the earlier pairs and everything made before that key held; a key failure or a panic releases nothing; a failed CFDictionaryCreate releases all pairs; success releases none |
| Foundation.DictionaryOutcome | foundation.go:126-134 | the references held after the map conversion, on each of its three outcomes: success and a panic keep every pair held, a failed CFDictionaryCreate releases exactly the pairs |
| Foundation.DictionaryResult | foundation.go:109-135 | what the map conversion returns is what EncodeDictionary describes while no creation failed |
| Foundation.DictionaryFromPairs | foundation.go:126-134 | mapToCFDictionary and, on a non-panic error, the release loop: exactly the pairs are released on failure, nothing on success |
| Foundation.DictionaryError | foundation.go:117-120 | a failing value makes the dictionary fail with that value's error, wrapped with its key |
| Foundation.DenotedDictionary | foundation.go:85-89 | once every value is converted, EncodeDictionary is the panic, the RetainNull abort, or the dictionary of the pairs |
| Foundation.ConvertFromCFType | foundation.go:239-298 | returns what Decode describes: the value, or one of its errors with nil |
| Foundation.ArrayFromCF | foundation.go:266-278 | items decoded in index order, stopping at the first error, which carries that index |
| Foundation.DictionaryFromCF | foundation.go:279-294 | an empty dictionary panics at &keys[0]; otherwise the entries in CF's order, stopping at the first failing value, reported with its key |
| Foundation.DecodeDictionaryError | foundation.go:288-291 | a failing value makes the dictionary decode fail, wrapped with its key |
| MacPrefsFoundation.Wrap64 | mac_prefs/foundation.go:182-201 | Go's int64(x): the result is in the int64 range and equal to x modulo 2^64 |
| MacPrefsFoundation.EncodeIsObject | mac_prefs/foundation.go:156-236 | with no nil case, a successful conversion is never NilCFType |
| MacPrefsFoundation.NeverRetainsNull | mac_prefs/foundation.go:225 | no array or dictionary ever retains a NULL member while allocation succeeds |
| MacPrefsFoundation.DecodeEncode | mac_prefs/foundation.go:240-282 | a map-free value reads back normalised; anything holding a map fails to read back |
| MacPrefsFoundation.MapsDoNotRoundTrip | mac_prefs/foundation.go:280-281 | a written map[string]interface{} reads back as "unsupported CFTypeRef type" |
| MacPrefsFoundation.RoundTripsNormal | mac_prefs/foundation.go:156-236 | the round-trip values encode, hold no map, and are their own normal form |
| MacPrefsFoundation.RoundTrip | mac_prefs/foundation.go:156-282 | strings, bytes, bools, whole-second UTC times, int64 values, non-zero float64 values and non-empty []interface{} of these read back DeepEqual |
| MacPrefsFoundation.Wrap64InRange | mac_prefs/foundation.go:182-191 | int64 of a value already in range leaves it alone |
| MacPrefsFoundation.Uint64Wraps | mac_prefs/foundation.go:200-201 | a uint64 above MaxInt64 is stored as a negative number, where foundation.go panics |
| MacPrefsFoundation.NumberFormat | mac_prefs/foundation.go:208-213 | Double exactly when the float64 variable is non-zero; every integer and both float zeroes are stored as LongLong, and a zero float reads back as int64 0 |
| MacPrefsFoundation.IntegersDecodeToInt64 | mac_prefs/foundation.go:256-260 | integer tags read back as int64 here and as int in foundation.go |
| MacPrefsFoundation.NoNilCase | mac_prefs/foundation.go:234-235 | nil is an "unsupported type: <nil>", where foundation.go writes NilCFType |
| MacPrefsFoundation.OnlyInterfaceAggregates | mac_prefs/foundation.go:215-235 | typed slices and maps are unsupported types here; foundation.go converts any slice |
| MacPrefsFoundation.SharedConversions | mac_prefs/foundation.go:28-56 | the string, data, bool and date conversions, the byte bound and the epoch shift agree with foundation.go |
| MacPrefsFoundation.ArrayFailsAtFirstBadItem | mac_prefs/foundation.go:218-222 | the failing item with the lowest index decides the array's error, wrapped with that index |
| MacPrefsFoundation.MapValueError | mac_prefs/foundation.go:229-231 | a failing map value is reported with its key and then with "error converting map to CFDictionary", unless it panicked |
| MacPrefsFoundation.EmptyAggregates | mac_prefs/foundation.go:225 | empty aggregates panic at &s[0]; an empty array reads back; a dictionary never does |
| MacPrefsFoundation.NumberToCFNumber | mac_prefs/foundation.go:177-214 | the inner switch sets int64Value or floatValue; the number created is what Encode gives, and an unchecked NULL is returned as it is |
| MacPrefsFoundation.ConvertToCFType | mac_prefs/foundation.go:156-237 | with no allocation failure it returns what this file's Encode describes; on success every reference made stays held; nil creates nothing and is an unsupported type |
| MacPrefsFoundation.ConvertArray | mac_prefs/foundation.go:215-226 | items converted in index order, stopping at the first error; on an error the items already converted, and everything made before the failing item, stay held; a panic releases nothing |
| MacPrefsFoundation.ConvertPair | mac_prefs/foundation.go:111-122 | the key string, then the value; a failing value releases the key unless it panicked |
| MacPrefsFoundation.ConvertEntries | mac_prefs/foundation.go:109-123 | the loop over the map in any order; on an error the pairs already made stay held, and a value failure releases only its own key |
| MacPrefsFoundation.ConvertMapToCFDictionary | mac_prefs/foundation.go:108-134 | the result is what EncodeDictionary describes over this file's conversion; a failing value releases its key and keeps the earlier pairs held; a key failure or a panic releases nothing; CFDictionaryCreate failure releases all pairs, success none |
| MacPrefsFoundation.ConvertFromCFType | mac_prefs/foundation.go:240-283 | returns what this file's Decode describes, with no dictionary case |
| MacPrefsFoundation.ArrayFromCF | mac_prefs/foundation.go:267-279 | items decoded in index order, stopping at the first error |
| MacPrefs.SetThenGet | mac_prefs/mac_prefs.go:56-105 | a round-trip value set in a valid scope reads back DeepEqual, and the only possible report is the synchronize result |
| MacPrefs.SetNilDeletes | mac_prefs/mac_prefs.go:63-69 | Set with nil passes NilCFType, which removes the key; the following Get is (nil, nil) |
| MacPrefs.AbsentKeyIsNil | mac_prefs/mac_prefs.go:190-193 | a missing key reads as nil with no error |
| MacPrefs.InvalidScopeRefused | mac_prefs/mac_prefs.go:77-95 | outside the four scopes nothing is written; the user is checked before the host; Get reports the same errors |
| MacPrefs.FourScopes | mac_prefs/mac_prefs.go:26-44 | a scope is accepted exactly when it is one of the four named scopes |
| MacPrefs.ConversionFailureKeepsStore | mac_prefs/mac_prefs.go:63-66 | a value that cannot be converted leaves the store unchanged and is reported as a conversion error |
| MacPrefs.SetIsolated | mac_prefs/mac_prefs.go:97 | writing one preference changes what no other key, application or scope reads |
| MacPrefs.SetAppIsCurrentUserAnyHost | mac_prefs/mac_prefs.go:116-145 | SetApp writes where Set with CurrentUserAnyHost writes, and reports the same errors |
| MacPrefs.TestExamples | mac_prefs/mac_prefs_test.go:252-286 | the write-then-delete test and the GetApp test read back what they expect |
| MacPrefs.KeyReleased | mac_prefs/mac_prefs.go:61-66 | the key's deferred release after a conversion error leaves held only what the conversion made, and nothing new for a scalar |
| MacPrefs.KeyKept | mac_prefs/mac_prefs.go:61-63 | after the CFRetain(NULL) abort in the conversion the key and everything the conversion made are still held |
| MacPrefs.ReleasePrepared | mac_prefs/mac_prefs.go:61-75 | after the three deferred releases, only what the conversion nested in an aggregate value is still held |
| MacPrefs.SetAgrees | mac_prefs/mac_prefs.go:63-105 | the conversion's outcome decides Set's error and its store change |
| MacPrefs.Preferences.CopyValue | mac_prefs/mac_prefs.go:190 | CFPreferencesCopyValue: NULL for a missing key or a failed copy, otherwise a new owned reference to the stored object |
| MacPrefs.Preferences.KeyAndValue | mac_prefs/mac_prefs.go:57-69 | the key string and then the converted value; a conversion error releases the key and is reported as a conversion error; after a Go panic only the key is released; after the CFRetain(NULL) abort the key and all the conversion made stay held |
| MacPrefs.Preferences.AppID | mac_prefs/mac_prefs.go:71-75 | the application ID string; failure releases the value and then the key |
| MacPrefs.Preferences.Prepare | mac_prefs/mac_prefs.go:57-75 | the three references in order, all held and made by the call; on an error the key is released, except after the CFRetain(NULL) abort, and on an app ID failure the value too; with no failure the value is what the conversion describes |
| MacPrefs.Preferences.Set | mac_prefs/mac_prefs.go:56-105 | with no allocation failure the error is one SetErrors allows and the store is SetStore; the store is written only in a valid scope with a converted value, and also when synchronizing fails; the key, value and app ID are released on every path where they were made; after a key failure nothing is held, after a Go panic only the key is released, and after the CFRetain(NULL) abort nothing is released |
| MacPrefs.Preferences.Store | mac_prefs/mac_prefs.go:77-104 | the scope switches, the write, the synchronize result and the three releases |
| MacPrefs.Preferences.SetApp | mac_prefs/mac_prefs.go:116-145 | as Set, with the same releases on every path and none after the abort, writing the current user's any-host domain with no scope check |
| MacPrefs.Preferences.StoreApp | mac_prefs/mac_prefs.go:137-144 | CFPreferencesSetAppValue, the synchronize result and the three releases |
| MacPrefs.Preferences.Get | mac_prefs/mac_prefs.go:157-197 | holds nothing new afterwards; with no allocation failure it returns what GetReply describes; an error always comes with nil |
| MacPrefs.Preferences.Names | mac_prefs/mac_prefs.go:158-168 | the key and application ID strings; a failure of the second releases the first |
| MacPrefs.Preferences.Read | mac_prefs/mac_prefs.go:170-196 | the scope switches, the copy and its decoding; the copy is released after decoding, and the key and app ID on every path |
| MacPrefs.Preferences.GetApp | mac_prefs/mac_prefs.go:208-222 | returns Get with CurrentUserAnyHost and releases its own two strings afterwards |
| MacPrefs.Preferences.ReleaseNames | mac_prefs/mac_prefs.go:162-168 | the deferred releases of Get: the application ID, then the key |
| MacPrefs.Preferences.SetValue | mac_prefs/mac_prefs.go:97 | CFPreferencesSetValue: NULL removes the key, any other value is stored under it |
| MacPrefs.Preferences.ReleaseValue | mac_prefs/mac_prefs.go:67-69 | the value's release is deferred only when it is not NULL |
| MacPrefs.Preferences.ReleaseAll | mac_prefs/mac_prefs.go:61-75 | the three deferred releases in the order they run |

## Left out

- String contents are modelled as exact: there is no UTF-8 transcoding, no `C.CString` truncation at an embedded NUL, no `CFStringGetBytes` failure, and no fallback to "" in `cfStringToString`. These are CF internals.
- Floats are IEEE bit patterns compared by equality. There is no float arithmetic, and NaN is not special in DeepEqual. `float64(t.Unix())` is taken as exact whole seconds.
- Foundation.ConvertToCFType: the int64 range of `reflect.Value.Int` and of CFNumber is not enforced for the signed kinds. Any Go integer value is stored as it is.
- There is no persistence, on-disk format, privilege check for the AnyUser scopes, or coordination between processes. `CFPreferencesSynchronize` and `CFPreferencesAppSynchronize` are a boolean parameter, `synchronized`.
- Allocation failure is a parameter of the runtime, `failing`. The pure specification agrees with the methods only while no creation fails. Failures are otherwise modelled path by path.
- `cfDictionaryToMap` and `CFDictionaryToMap` are not modelled, because nothing in the shown code calls them.
- Map keys are strings. Map iteration order is not modelled: a conversion may report any failing key, and the model says so through sets of errors.
- Nil slices and empty slices are not told apart. Both are the empty sequence, and both panic at `&s[0]`.
- CF's normalisation of number tags is not modelled. A stored CFNumber keeps the tag it was created with.
- Dates whose seconds overflow int64 are not modelled. The Unix seconds are unbounded integers.
- The `CFPreferencesCopyAppValue` code after GetApp's `return` is unreachable and is not modelled.
- Go's `error` strings become constructors, one per message. The full formatted text is not rebuilt.
- ConvertSliceToCFArray: when the failing element is itself a slice or map and fails without a panic, the contract says that nothing made before that element is released, but not which of that element's own nested references stay held. A full description would depend on map iteration order.
- ConvertArray: the same gap as ConvertSliceToCFArray, for `mac_prefs/foundation.go`.
- ConvertMapToCFDictionary: the same gap, for a failing value that is an aggregate, in both files.
- Set: on a ValueConversion error for a slice or map value, the contract says that the key is released and that only references made by the call stay held. Which nested references the failed conversion keeps is left to the conversion's own contract.
- SetApp: the same gap as Set.
- KeyAndValue: the same gap as Set.
- The end of the process at the CFRetain(NULL) trap is not modelled. `KeyAndValue`, `Prepare`, `Set` and `SetApp` return `Panicked(RetainNull)` with the state at the trap and release nothing after it.

## Ownership behaviour of the code

These facts about the source are part of the model, not errors in it.

- Conversion leaks references in four places:
  - `convertSliceToCFArray` never releases its element references after `CFArrayCreate` (foundation.go:234-235).
  - `convertSliceToCFArray` does not release the elements already converted when a later one fails (foundation.go:228-230).
  - `convertMapToCFDictionary` does not release its keys and values after `CFDictionaryCreate` succeeds (foundation.go:126-135).
  - When a later value fails, `convertMapToCFDictionary` releases only the current key and keeps the earlier pairs (foundation.go:117-120).

  The contracts of `Foundation.ConvertSliceToCFArray`, `Foundation.ConvertMapToCFDictionary` and their `mac_prefs/foundation.go` counterparts state which references stay held. The "## Left out" lines above give what they do not state.
- The code releases the boolean singletons in two places: the release loop at foundation.go:128-131, on a bool map value, and the deferred `release(cValue)` at mac_prefs/mac_prefs.go:67-68, on a bool value. CoreFoundation ignores releases of its constant objects, so `CoreFoundation.CFRuntime.Release` leaves the singletons unowned and untouched.
- Integers are not normalised to one signed 64-bit form. In `foundation.go`, unsigned kinds panic in `reflect.Value.Int`, and integers read back as Go `int`. Only `mac_prefs/foundation.go` reads integers back as int64 and wraps a uint64 with `int64(...)`.
- Empty slices, maps and dictionaries do not round-trip. An empty slice or map panics at `&s[0]`, and an empty dictionary panics when read (foundation.go:85, :234 and :284). The empty string and the empty byte slice do round-trip.
- `mac_prefs/mac_prefs.go` calls the lower-case helper names, which only the root `foundation.go` defines. The model follows those names, so `MacPrefs` is built on `Foundation`.
