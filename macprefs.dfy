/**
 * The preference functions of mac_prefs/mac_prefs.go over an abstract
 * CFPreferences store.
 *
 * The store maps (application ID, user, host, key) to a property-list
 * object. Set and SetApp convert with foundation.go's convertToCFType and
 * write with CFPreferencesSetValue / CFPreferencesSetAppValue, where NULL
 * removes the key; Get and GetApp copy the stored object and read it back
 * with convertFromCFType. Whether CFPreferencesSynchronize succeeds is not
 * computed: it is a parameter.
 */
module MacPrefs {
  import opened Values
  import opened CoreFoundation
  import Foundation

  // ---------------------------------------------------------------------
  // Scopes, keys and errors
  // ---------------------------------------------------------------------

  /** The UserType and HostType values: plain strings, so a scope can hold any string. */
  const CurrentUser: string := "kCFPreferencesCurrentUser"
  const AnyUser: string := "kCFPreferencesAnyUser"
  const CurrentHost: string := "kCFPreferencesCurrentHost"
  const AnyHost: string := "kCFPreferencesAnyHost"

  datatype PreferenceScope = PreferenceScope(user: string, host: string)

  const CurrentUserCurrentHost: PreferenceScope := PreferenceScope(CurrentUser, CurrentHost)
  const CurrentUserAnyHost: PreferenceScope := PreferenceScope(CurrentUser, AnyHost)
  const AnyUserCurrentHost: PreferenceScope := PreferenceScope(AnyUser, CurrentHost)
  const AnyUserAnyHost: PreferenceScope := PreferenceScope(AnyUser, AnyHost)

  /** kCFPreferencesCurrentUser / kCFPreferencesAnyUser and the two host names, as CF passes them. */
  datatype UserName = CFCurrentUser | CFAnyUser
  datatype HostName = CFCurrentHost | CFAnyHost

  /** Where one preference lives in the store. */
  datatype PrefKey = PrefKey(app: string, user: UserName, host: HostName, key: string)

  /** The errors the preference functions report, one per message; Panicked is a panic that escapes, or the abort of Aborts. */
  datatype PrefsError =
    | KeyString(cause: ConvError)        // "error creating CFString for key: %v"
    | ValueConversion(cause: ConvError)  // "error converting value to CFType: %v"
    | AppIDString(cause: ConvError)      // "error creating CFString for applicationID: %v"
    | InvalidUser                        // "invalid user type in scope: must be CurrentUser or AnyUser"
    | InvalidHost                        // "invalid host type in scope: must be CurrentHost or AnyHost"
    | SynchronizeFailed                  // "failed to synchronize preferences"
    | Decoding(cause: ConvError)         // convertFromCFType's error, returned as it is
    | Panicked(reason: PanicReason)

  /** The switch on scope.User. */
  function UserNameOf(u: string): Option<UserName>
  {
    if u == CurrentUser then Some(CFCurrentUser)
    else if u == AnyUser then Some(CFAnyUser)
    else None
  }

  /** The switch on scope.Host. */
  function HostNameOf(h: string): Option<HostName>
  {
    if h == CurrentHost then Some(CFCurrentHost)
    else if h == AnyHost then Some(CFAnyHost)
    else None
  }

  predicate ValidScope(scope: PreferenceScope)
  {
    UserNameOf(scope.user).Some? && HostNameOf(scope.host).Some?
  }

  /** The store key of a valid scope. */
  function KeyIn(appID: string, scope: PreferenceScope, key: string): PrefKey
    requires ValidScope(scope)
  {
    PrefKey(appID, UserNameOf(scope.user).value, HostNameOf(scope.host).value, key)
  }

  /** A conversion error as Set reports it; a panic is not wrapped. */
  function ValueError(e: ConvError): PrefsError
  {
    if e.Panic? then Panicked(e.reason) else ValueConversion(e)
  }

  /**
   * The CFRetain(NULL) trap inside CFArrayCreate or CFDictionaryCreate: the
   * process ends there, so no deferred release runs after it.
   */
  predicate Aborts(e: PrefsError)
  {
    e == Panicked(RetainNull)
  }

  /** A decoding error as Get reports it. */
  function ReadError(e: ConvError): PrefsError
  {
    if e.Panic? then Panicked(e.reason) else Decoding(e)
  }

  // ---------------------------------------------------------------------
  // Specification
  // ---------------------------------------------------------------------

  /** CFPreferencesSetValue: a NULL value removes the key, any other is stored under it. */
  function Written(store: map<PrefKey, CFObject>, pk: PrefKey, o: Option<CFObject>): map<PrefKey, CFObject>
  {
    if o.None? then store - {pk} else store[pk := o.value]
  }

  /** The errors Set can report when no CF allocation fails; None is success. */
  function SetErrors(value: GoValue, scope: PreferenceScope, synchronized: bool): set<Option<PrefsError>>
  {
    var r := Foundation.Encode(value);
    if r.Failure? then set e | e in r.errors :: Some(ValueError(e))
    else ScopeErrors(scope, synchronized)
  }

  /** What Set reports once the value has converted: the scope switches, then synchronizing. */
  function ScopeErrors(scope: PreferenceScope, synchronized: bool): set<Option<PrefsError>>
  {
    if UserNameOf(scope.user).None? then {Some(InvalidUser)}
    else if HostNameOf(scope.host).None? then {Some(InvalidHost)}
    else if synchronized then {None}
    else {Some(SynchronizeFailed)}
  }

  /** The store after Set when no CF allocation fails. */
  function SetStore(store: map<PrefKey, CFObject>, key: string, value: GoValue, appID: string,
                    scope: PreferenceScope): map<PrefKey, CFObject>
  {
    var r := Foundation.Encode(value);
    if r.Failure? || !ValidScope(scope) then store
    else Written(store, KeyIn(appID, scope, key), r.value)
  }

  /** The errors SetApp can report when no CF allocation fails. */
  function SetAppErrors(value: GoValue, synchronized: bool): set<Option<PrefsError>>
  {
    var r := Foundation.Encode(value);
    if r.Failure? then set e | e in r.errors :: Some(ValueError(e))
    else if synchronized then {None}
    else {Some(SynchronizeFailed)}
  }

  /**
   * The store after SetApp when no CF allocation fails: CFPreferencesSetAppValue
   * writes the current user's any-host domain.
   */
  function SetAppStore(store: map<PrefKey, CFObject>, key: string, value: GoValue, appID: string): map<PrefKey, CFObject>
  {
    var r := Foundation.Encode(value);
    if r.Failure? then store
    else Written(store, PrefKey(appID, CFCurrentUser, CFAnyHost, key), r.value)
  }

  /** What a read returns: a value (nil when the key is absent) or one of a set of errors. */
  datatype Reply = Value(v: GoValue) | Errors(errors: set<PrefsError>)

  /** Get when no CF allocation fails. */
  function GetReply(store: map<PrefKey, CFObject>, key: string, appID: string, scope: PreferenceScope): Reply
  {
    if UserNameOf(scope.user).None? then Errors({InvalidUser})
    else if HostNameOf(scope.host).None? then Errors({InvalidHost})
    else if KeyIn(appID, scope, key) !in store then Value(GoNil)
    else match Foundation.Decode(store[KeyIn(appID, scope, key)])
      case Success(x) => Value(x)
      case Failure(es) => Errors(set e | e in es :: ReadError(e))
  }

  /** The value and error a read returned are the outcome r describes; an error comes with nil. */
  predicate Replied(r: Reply, v: GoValue, err: Option<PrefsError>)
  {
    match r
    case Value(x) => err.None? && v == x
    case Errors(es) => err.Some? && err.value in es && v == GoNil
  }

  // ---------------------------------------------------------------------
  // Properties of the specification
  // ---------------------------------------------------------------------

  /**
   * A value that reads back unchanged, written in a valid scope, is what Get
   * then returns, whether or not synchronizing succeeded: the write is made
   * before synchronizing.
   */
  lemma SetThenGet(store: map<PrefKey, CFObject>, key: string, value: GoValue, appID: string,
                   scope: PreferenceScope, synchronized: bool)
    requires Foundation.RoundTrips(value) && ValidScope(scope)
    ensures SetErrors(value, scope, synchronized) == {if synchronized then None else Some(SynchronizeFailed)}
    ensures GetReply(SetStore(store, key, value, appID, scope), key, appID, scope) == Value(value)
  {
    Foundation.RoundTrip(value);
  }

  /** Setting nil removes the key, and reading it afterwards gives nil without an error. */
  lemma SetNilDeletes(store: map<PrefKey, CFObject>, key: string, appID: string, scope: PreferenceScope,
                      synchronized: bool)
    requires ValidScope(scope)
    ensures SetErrors(GoNil, scope, synchronized) == {if synchronized then None else Some(SynchronizeFailed)}
    ensures SetStore(store, key, GoNil, appID, scope) == store - {KeyIn(appID, scope, key)}
    ensures GetReply(SetStore(store, key, GoNil, appID, scope), key, appID, scope) == Value(GoNil)
  {
  }

  /** A key that is not stored reads as nil, not as an error. */
  lemma AbsentKeyIsNil(store: map<PrefKey, CFObject>, key: string, appID: string, scope: PreferenceScope)
    requires ValidScope(scope) && KeyIn(appID, scope, key) !in store
    ensures GetReply(store, key, appID, scope) == Value(GoNil)
  {
  }

  /**
   * Outside the four scopes nothing is written, and the user is checked
   * before the host; a failing conversion is still reported first.
   */
  lemma InvalidScopeRefused(store: map<PrefKey, CFObject>, key: string, value: GoValue, appID: string,
                            scope: PreferenceScope, synchronized: bool)
    requires !ValidScope(scope)
    ensures SetStore(store, key, value, appID, scope) == store
    ensures UserNameOf(scope.user).None? ==> GetReply(store, key, appID, scope) == Errors({InvalidUser})
    ensures UserNameOf(scope.user).Some? ==> GetReply(store, key, appID, scope) == Errors({InvalidHost})
    ensures Foundation.Encode(value).Success? ==>
      SetErrors(value, scope, synchronized) == {Some(if UserNameOf(scope.user).None? then InvalidUser else InvalidHost)}
  {
  }

  /** The valid scopes are exactly the four named ones. */
  lemma FourScopes(scope: PreferenceScope)
    ensures ValidScope(scope) <==>
      scope in {CurrentUserCurrentHost, CurrentUserAnyHost, AnyUserCurrentHost, AnyUserAnyHost}
  {
  }

  /** A value that cannot be converted leaves the store alone and is reported as a conversion error. */
  lemma ConversionFailureKeepsStore(store: map<PrefKey, CFObject>, key: string, value: GoValue, appID: string,
                                    scope: PreferenceScope, synchronized: bool)
    requires Foundation.Encode(value).Failure?
    ensures SetStore(store, key, value, appID, scope) == store
    ensures SetErrors(value, scope, synchronized) != {}
    ensures forall r :: r in SetErrors(value, scope, synchronized) ==>
      r.Some? && (r.value.ValueConversion? || r.value.Panicked?)
  {
    Foundation.EncodeFailureHasError(value);
    var e :| e in Foundation.Encode(value).errors;
    assert Some(ValueError(e)) in SetErrors(value, scope, synchronized);
  }

  /** Writing one preference changes no other: every other key, application and scope reads as before. */
  lemma SetIsolated(store: map<PrefKey, CFObject>, key: string, value: GoValue, appID: string, scope: PreferenceScope,
                    key': string, appID': string, scope': PreferenceScope)
    requires ValidScope(scope) && ValidScope(scope') && KeyIn(appID, scope, key) != KeyIn(appID', scope', key')
    ensures GetReply(SetStore(store, key, value, appID, scope), key', appID', scope') == GetReply(store, key', appID', scope')
  {
    var s' := SetStore(store, key, value, appID, scope);
    var pk' := KeyIn(appID', scope', key');
    assert pk' in s' <==> pk' in store;
    assert pk' in store ==> s'[pk'] == store[pk'];
  }

  /** SetApp writes where Set with CurrentUserAnyHost writes, and reports the same errors. */
  lemma SetAppIsCurrentUserAnyHost(store: map<PrefKey, CFObject>, key: string, value: GoValue, appID: string,
                                   synchronized: bool)
    ensures SetAppStore(store, key, value, appID) == SetStore(store, key, value, appID, CurrentUserAnyHost)
    ensures SetAppErrors(value, synchronized) == SetErrors(value, CurrentUserAnyHost, synchronized)
  {
  }

  /** The examples written and read back by the tests of Set, SetApp and the deletion test. */
  lemma TestExamples(store: map<PrefKey, CFObject>)
    ensures var pk := PrefKey("com.github.weswhet.mac_prefs.test", CFCurrentUser, CFCurrentHost, "TestKey");
      && GetReply(SetStore(store, "TestKey", GoString("TestValue"), pk.app, CurrentUserCurrentHost),
                  "TestKey", pk.app, CurrentUserCurrentHost) == Value(GoString("TestValue"))
      && GetReply(SetStore(SetStore(store, "TestKey", GoString("TestValue"), pk.app, CurrentUserCurrentHost),
                           "TestKey", GoNil, pk.app, CurrentUserCurrentHost),
                  "TestKey", pk.app, CurrentUserCurrentHost) == Value(GoNil)
    ensures GetReply(SetAppStore(store, "TestGetAppKey", GoString("TestGetAppValue"), "com.github.weswhet.mac_prefs.test"),
                     "TestGetAppKey", "com.github.weswhet.mac_prefs.test", CurrentUserAnyHost)
            == Value(GoString("TestGetAppValue"))
  {
    var app := "com.github.weswhet.mac_prefs.test";
    SetThenGet(store, "TestKey", GoString("TestValue"), app, CurrentUserCurrentHost, true);
    SetNilDeletes(SetStore(store, "TestKey", GoString("TestValue"), app, CurrentUserCurrentHost), "TestKey", app,
                  CurrentUserCurrentHost, true);
    SetAppIsCurrentUserAnyHost(store, "TestGetAppKey", GoString("TestGetAppValue"), app, true);
    SetThenGet(store, "TestGetAppKey", GoString("TestGetAppValue"), app, CurrentUserAnyHost, true);
  }

  // ---------------------------------------------------------------------
  // The preference functions over a store and a CoreFoundation runtime
  // ---------------------------------------------------------------------

  class Preferences {
    /** The CoreFoundation references the functions create and release. */
    const rt: CFRuntime
    /** The values CFPreferencesCopyValue sees. */
    var store: map<PrefKey, CFObject>

    ghost predicate Valid()
      reads this, rt
    {
      rt.Valid()
    }

    constructor (rt: CFRuntime, store: map<PrefKey, CFObject>)
      requires rt.Valid()
      ensures Valid() && this.rt == rt && this.store == store
    {
      this.rt := rt;
      this.store := store;
    }

    /** CFPreferencesCopyValue: a new reference to the stored object, or NULL when the key is absent. */
    method CopyValue(pk: PrefKey) returns (h: Handle)
      requires Valid()
      modifies rt
      ensures Valid() && Extended(rt.objects, rt.owned, rt.next, old(rt.objects), old(rt.owned), old(rt.next))
      ensures pk !in store ==> h == NilRef && rt.next == old(rt.next) && rt.objects == old(rt.objects)
      ensures pk in store ==> rt.next == old(rt.next) + 1 && h == if old(rt.next) in rt.failing then NilRef else old(rt.next)
      ensures h != NilRef ==> h in rt.objects && rt.objects[h] == store[pk]
      ensures rt.owned == if h == NilRef then old(rt.owned) else old(rt.owned) + {h}
    {
      if pk in store {
        h := rt.Allocate(store[pk]);
      } else {
        h := NilRef;
      }
    }

    /**
     * The first two steps of Set and SetApp: the key string, then the
     * converted value. When the conversion fails the key is released, as its
     * defer would, except after the CFRetain(NULL) abort, where nothing runs;
     * the references nested in a partly converted value stay held.
     */
    method KeyAndValue(key: string, value: GoValue) returns (cKey: Handle, cValue: Handle, err: Option<PrefsError>)
      requires Valid()
      modifies rt
      ensures Valid() && Extended(rt.objects, rt.owned, rt.next, old(rt.objects), old(rt.owned), old(rt.next))
      ensures err.Some? ==> (err.value.KeyString? || err.value.ValueConversion? || err.value.Panicked?)
      ensures err.Some? ==> old(rt.owned) <= rt.owned <= old(rt.owned) + rt.CreatedSince(old(rt.next))
      ensures err.Some? && !value.GoSlice? && !value.GoMap? ==> rt.owned == old(rt.owned)
      ensures err.Some? && err.value.KeyString? ==> rt.owned == old(rt.owned)
      ensures err.Some? && !err.value.KeyString? ==>
        old(rt.next) in rt.objects && rt.objects[old(rt.next)] == CFString(key)
      ensures err.Some? && !err.value.KeyString? && !Aborts(err.value) ==> old(rt.next) !in rt.owned
      ensures err.Some? && err.value.Panicked? && !Aborts(err.value) ==>
        rt.owned == old(rt.owned) + rt.CreatedSince(old(rt.next)) - {old(rt.next)}
      ensures err.Some? && Aborts(err.value) ==> rt.owned == old(rt.owned) + rt.CreatedSince(old(rt.next))
      ensures err.None? ==>
        && cKey == old(rt.next) && cKey in rt.objects && rt.objects[cKey] == CFString(key)
        && (cValue == NilRef || IsSingleton(cValue) || (cKey < cValue == rt.next - 1 && cValue in rt.owned))
        && (cValue != NilRef ==> cValue in rt.objects)
        && rt.owned == old(rt.owned) + rt.CreatedSince(old(rt.next))
        && (!value.GoSlice? && !value.GoMap? ==> rt.CreatedSince(old(rt.next)) <= {cKey, cValue})
      ensures rt.NoFailureSince(old(rt.next)) ==> Converted(rt.objects, Foundation.Encode(value), cValue, err)
    {
      ghost var n0 := rt.next;
      var e;
      cKey, e := Foundation.StringToCFString(rt, key);
      if e.Some? {
        return NilRef, NilRef, Some(KeyString(e.value));
      }
      ghost var o1, ow1, n1 := rt.objects, rt.owned, rt.next;
      cValue, e := Foundation.ConvertToCFType(rt, value);
      CreatedSplit(o1, rt.objects, n0, n1);
      if rt.NoFailureSince(n0) {
        assert rt.NoFailureSince(n1);
      }
      if e == Some(Panic(RetainNull)) {
        // the process ends inside CoreFoundation: the key's defer never runs
        KeyKept(old(rt.objects), old(rt.owned), n0, o1, ow1, n1, rt.objects, rt.owned, rt.next, key);
        return NilRef, NilRef, Some(Panicked(RetainNull));
      }
      if e.Some? {
        ghost var ow2 := rt.owned;
        Foundation.Release(rt, cKey);
        KeyReleased(old(rt.objects), old(rt.owned), n0, o1, ow1, n1, rt.objects, ow2, rt.next, rt.owned,
                    key, !value.GoSlice? && !value.GoMap?, e.value.Panic?);
        return NilRef, NilRef, Some(ValueError(e.value));
      }
      err := None;
    }

    /**
     * The common start of Set and SetApp: the key string, the converted
     * value and the application ID string, in this order. On an error the
     * references made so far are released as their defers would.
     */
    method Prepare(key: string, value: GoValue, applicationID: string)
      returns (cKey: Handle, cValue: Handle, cAppID: Handle, err: Option<PrefsError>)
      requires Valid()
      modifies rt
      ensures Valid() && Extended(rt.objects, rt.owned, rt.next, old(rt.objects), old(rt.owned), old(rt.next))
      ensures err.Some? ==> err.value.KeyString? || err.value.ValueConversion? || err.value.Panicked? || err.value.AppIDString?
      ensures err.Some? ==> old(rt.owned) <= rt.owned <= old(rt.owned) + rt.CreatedSince(old(rt.next))
      ensures err.Some? && !value.GoSlice? && !value.GoMap? ==> rt.owned == old(rt.owned)
      ensures err.Some? && err.value.KeyString? ==> rt.owned == old(rt.owned)
      ensures err.Some? && !err.value.KeyString? && !Aborts(err.value) ==> old(rt.next) !in rt.owned
      ensures err.Some? && err.value.Panicked? && !Aborts(err.value) ==>
        rt.owned == old(rt.owned) + rt.CreatedSince(old(rt.next)) - {old(rt.next)}
      ensures err.Some? && Aborts(err.value) ==> rt.owned == old(rt.owned) + rt.CreatedSince(old(rt.next))
      ensures err.Some? && err.value.AppIDString? ==>
        && cKey == old(rt.next) && cAppID == NilRef
        && rt.owned == old(rt.owned) + rt.CreatedSince(old(rt.next)) - {cKey, cValue}
      ensures err.None? ==> Prepared(rt.objects, rt.owned, rt.next, old(rt.owned), old(rt.next), key, value, applicationID,
                                     cKey, cValue, cAppID)
      ensures rt.NoFailureSince(old(rt.next)) ==> Converted(rt.objects, Foundation.Encode(value), cValue, err)
    {
      ghost var o0, ow0, n0 := rt.objects, rt.owned, rt.next;
      var e;
      cKey, cValue, e := KeyAndValue(key, value);
      if e.Some? {
        return NilRef, NilRef, NilRef, e;
      }
      ghost var o2, n2 := rt.objects, rt.next;
      cAppID, err := AppID(cKey, cValue, applicationID);
      CreatedSplit(o2, rt.objects, n0, n2);
    }

    /**
     * The third step of Set and SetApp: the application ID string. When it
     * cannot be created the value and then the key are released, as their
     * defers would.
     */
    method AppID(cKey: Handle, cValue: Handle, applicationID: string) returns (cAppID: Handle, err: Option<PrefsError>)
      requires Valid() && rt.Live(cKey) && (cValue == NilRef || rt.Live(cValue)) && cKey != cValue
      modifies rt
      ensures Valid() && rt.next == old(rt.next) + 1
      ensures old(rt.next) in rt.failing ==>
        && err == Some(AppIDString(StringCreateFailed)) && cAppID == NilRef
        && rt.objects == old(rt.objects) && rt.owned == old(rt.owned) - {cKey, cValue}
      ensures old(rt.next) !in rt.failing ==>
        && err.None? && cAppID == old(rt.next)
        && rt.objects == old(rt.objects)[cAppID := CFString(applicationID)] && rt.owned == old(rt.owned) + {cAppID}
    {
      var e;
      cAppID, e := Foundation.StringToCFString(rt, applicationID);
      if e.Some? {
        ReleaseValue(cValue);
        Foundation.Release(rt, cKey);
        return NilRef, Some(AppIDString(e.value));
      }
      err := None;
    }

    /**
     * Set. The key, the value unless it is NULL, and the application ID are
     * released on every return (by defer, and also when a panic unwinds),
     * but not after the CFRetain(NULL) abort, which ends the process; the
     * references nested in an array or dictionary value are not.
     */
    method Set(key: string, value: GoValue, applicationID: string, scope: PreferenceScope, synchronized: bool)
      returns (err: Option<PrefsError>, ghost cKey: Handle, ghost cValue: Handle, ghost cAppID: Handle)
      requires Valid()
      modifies this, rt
      ensures Valid() && Extended(rt.objects, rt.owned, rt.next, old(rt.objects), old(rt.owned), old(rt.next))
      ensures old(rt.owned) <= rt.owned <= old(rt.owned) + rt.CreatedSince(old(rt.next))
      ensures !value.GoSlice? && !value.GoMap? ==> rt.owned == old(rt.owned)
      ensures err.Some? && err.value.KeyString? ==> rt.owned == old(rt.owned)
      ensures err.Some? && !err.value.KeyString? && !Aborts(err.value) ==> old(rt.next) !in rt.owned
      ensures err.Some? && err.value.Panicked? && !Aborts(err.value) ==>
        rt.owned == old(rt.owned) + rt.CreatedSince(old(rt.next)) - {old(rt.next)}
      ensures err.Some? && Aborts(err.value) ==> rt.owned == old(rt.owned) + rt.CreatedSince(old(rt.next))
      ensures (err.None? || err.value in {SynchronizeFailed, InvalidUser, InvalidHost} || err.value.AppIDString?) ==>
        rt.owned == old(rt.owned) + rt.CreatedSince(old(rt.next)) - {cKey, cValue, cAppID}
      ensures !ValidScope(scope) ==> store == old(store)
      ensures err.Some? && err.value != SynchronizeFailed ==> store == old(store)
      ensures (err.None? || err == Some(SynchronizeFailed)) ==>
        && ValidScope(scope) && (cValue != NilRef ==> cValue in rt.objects)
        && store == Written(old(store), KeyIn(applicationID, scope, key), Stored(rt.objects, cValue))
      ensures rt.NoFailureSince(old(rt.next)) ==>
        err in SetErrors(value, scope, synchronized) && store == SetStore(old(store), key, value, applicationID, scope)
    {
      ghost var ow0, n0 := rt.owned, rt.next;
      ghost var store0 := store;
      assert forall h :: h in ow0 ==> h < n0;
      var e, k, val, app;
      k, val, app, e := Prepare(key, value, applicationID);
      cKey, cValue, cAppID := k, val, app;
      if rt.NoFailureSince(n0) {
        SetAgrees(store0, key, value, applicationID, scope, synchronized, rt.objects, val, e);
      }
      if e.Some? {
        return e, cKey, cValue, cAppID;
      }
      ReleasePrepared(rt.objects, rt.owned, rt.next, ow0, n0, key, value, applicationID, k, val, app);
      err := Store(key, k, val, app, applicationID, scope, synchronized);
    }

    /**
     * The rest of Set once the three references exist: the scope switches,
     * CFPreferencesSetValue, the synchronize result, and the three deferred
     * releases, which run on every return.
     */
    method Store(key: string, cKey: Handle, cValue: Handle, cAppID: Handle, applicationID: string,
                 scope: PreferenceScope, synchronized: bool) returns (err: Option<PrefsError>)
      requires Valid() && rt.Live(cKey) && rt.Live(cAppID) && (cValue == NilRef || rt.Live(cValue))
      requires cKey != cValue && cKey != cAppID && cValue != cAppID
      modifies this, rt
      ensures Valid() && rt.objects == old(rt.objects) && rt.next == old(rt.next)
      ensures rt.owned == old(rt.owned) - {cKey, cValue, cAppID}
      ensures err in ScopeErrors(scope, synchronized)
      ensures ValidScope(scope) ==> store == Written(old(store), KeyIn(applicationID, scope, key), Stored(rt.objects, cValue))
      ensures !ValidScope(scope) ==> store == old(store)
    {
      var cUserName: UserName;
      if scope.user == CurrentUser {
        cUserName := CFCurrentUser;
      } else if scope.user == AnyUser {
        cUserName := CFAnyUser;
      } else {
        ReleaseAll(cKey, cValue, cAppID);
        return Some(InvalidUser);
      }
      var cHostName: HostName;
      if scope.host == CurrentHost {
        cHostName := CFCurrentHost;
      } else if scope.host == AnyHost {
        cHostName := CFAnyHost;
      } else {
        ReleaseAll(cKey, cValue, cAppID);
        return Some(InvalidHost);
      }
      SetValue(PrefKey(applicationID, cUserName, cHostName, key), cValue);
      err := if synchronized then None else Some(SynchronizeFailed);
      ReleaseAll(cKey, cValue, cAppID);
    }

    /**
     * SetApp: Set's steps with CFPreferencesSetAppValue, which writes the
     * current user's any-host domain, and no scope to check.
     */
    method SetApp(key: string, value: GoValue, appID: string, synchronized: bool)
      returns (err: Option<PrefsError>, ghost cKey: Handle, ghost cValue: Handle, ghost cAppID: Handle)
      requires Valid()
      modifies this, rt
      ensures Valid() && Extended(rt.objects, rt.owned, rt.next, old(rt.objects), old(rt.owned), old(rt.next))
      ensures old(rt.owned) <= rt.owned <= old(rt.owned) + rt.CreatedSince(old(rt.next))
      ensures !value.GoSlice? && !value.GoMap? ==> rt.owned == old(rt.owned)
      ensures err.Some? && err.value.KeyString? ==> rt.owned == old(rt.owned)
      ensures err.Some? && !err.value.KeyString? && !Aborts(err.value) ==> old(rt.next) !in rt.owned
      ensures err.Some? && err.value.Panicked? && !Aborts(err.value) ==>
        rt.owned == old(rt.owned) + rt.CreatedSince(old(rt.next)) - {old(rt.next)}
      ensures err.Some? && Aborts(err.value) ==> rt.owned == old(rt.owned) + rt.CreatedSince(old(rt.next))
      ensures err.Some? && err.value.AppIDString? ==>
        rt.owned == old(rt.owned) + rt.CreatedSince(old(rt.next)) - {cKey, cValue, cAppID}
      ensures (err.None? || err == Some(SynchronizeFailed)) ==>
        && rt.owned == old(rt.owned) + rt.CreatedSince(old(rt.next)) - {cKey, cValue, cAppID}
        && (cValue != NilRef ==> cValue in rt.objects)
        && store == Written(old(store), PrefKey(appID, CFCurrentUser, CFAnyHost, key), Stored(rt.objects, cValue))
      ensures err.Some? && err.value != SynchronizeFailed ==> store == old(store)
      ensures rt.NoFailureSince(old(rt.next)) ==>
        err in SetAppErrors(value, synchronized) && store == SetAppStore(old(store), key, value, appID)
    {
      ghost var ow0, n0 := rt.owned, rt.next;
      ghost var store0 := store;
      assert forall h :: h in ow0 ==> h < n0;
      var e, k, val, app;
      k, val, app, e := Prepare(key, value, appID);
      cKey, cValue, cAppID := k, val, app;
      if rt.NoFailureSince(n0) {
        SetAgrees(store0, key, value, appID, CurrentUserAnyHost, synchronized, rt.objects, val, e);
        SetAppIsCurrentUserAnyHost(store0, key, value, appID, synchronized);
      }
      if e.Some? {
        return e, cKey, cValue, cAppID;
      }
      ReleasePrepared(rt.objects, rt.owned, rt.next, ow0, n0, key, value, appID, k, val, app);
      err := StoreApp(key, k, val, app, appID, synchronized);
    }

    /** The rest of SetApp: CFPreferencesSetAppValue, the synchronize result and the three releases. */
    method StoreApp(key: string, cKey: Handle, cValue: Handle, cAppID: Handle, appID: string, synchronized: bool)
      returns (err: Option<PrefsError>)
      requires Valid() && rt.Live(cKey) && rt.Live(cAppID) && (cValue == NilRef || rt.Live(cValue))
      requires cKey != cValue && cKey != cAppID && cValue != cAppID
      modifies this, rt
      ensures Valid() && rt.objects == old(rt.objects) && rt.next == old(rt.next)
      ensures rt.owned == old(rt.owned) - {cKey, cValue, cAppID}
      ensures err == if synchronized then None else Some(SynchronizeFailed)
      ensures store == Written(old(store), PrefKey(appID, CFCurrentUser, CFAnyHost, key), Stored(rt.objects, cValue))
    {
      SetValue(PrefKey(appID, CFCurrentUser, CFAnyHost, key), cValue);
      err := if synchronized then None else Some(SynchronizeFailed);
      ReleaseAll(cKey, cValue, cAppID);
    }

    /**
     * Get. The key and the application ID are released on every return,
     * and the copied value once it has been read.
     */
    method Get(key: string, applicationID: string, scope: PreferenceScope) returns (v: GoValue, err: Option<PrefsError>)
      requires Valid()
      modifies rt
      ensures Valid() && Extended(rt.objects, rt.owned, rt.next, old(rt.objects), old(rt.owned), old(rt.next))
      ensures rt.owned == old(rt.owned)
      ensures err.Some? ==> v == GoNil
      ensures old(rt.next) in rt.failing ==> v == GoNil && err == Some(KeyString(StringCreateFailed))
      ensures rt.NoFailureSince(old(rt.next)) ==> Replied(GetReply(store, key, applicationID, scope), v, err)
    {
      ghost var n0 := rt.next;
      var cKey, cAppID;
      cKey, cAppID, err := Names(key, applicationID);
      if err.Some? {
        return GoNil, err;
      }
      ghost var n1 := rt.next;
      v, err := Read(key, applicationID, scope, cKey, cAppID);
      if rt.NoFailureSince(n0) {
        assert rt.NoFailureSince(n1);
      }
    }

    /**
     * The key and application ID strings of Get and GetApp; when the second
     * cannot be created the first is released.
     */
    method Names(key: string, applicationID: string) returns (cKey: Handle, cAppID: Handle, err: Option<PrefsError>)
      requires Valid()
      modifies rt
      ensures Valid() && Extended(rt.objects, old(rt.owned), rt.next, old(rt.objects), old(rt.owned), old(rt.next))
      ensures old(rt.next) in rt.failing ==>
        && err == Some(KeyString(StringCreateFailed))
        && rt.next == old(rt.next) + 1 && rt.objects == old(rt.objects) && rt.owned == old(rt.owned)
      ensures old(rt.next) !in rt.failing ==> rt.next == old(rt.next) + 2
      ensures old(rt.next) !in rt.failing && old(rt.next) + 1 in rt.failing ==>
        err == Some(AppIDString(StringCreateFailed)) && rt.owned == old(rt.owned)
      ensures err.Some? ==> old(rt.next) in rt.failing || old(rt.next) + 1 in rt.failing
      ensures err.None? ==>
        && old(rt.next) !in rt.failing && old(rt.next) + 1 !in rt.failing
        && cKey == old(rt.next) && cAppID == old(rt.next) + 1
        && rt.objects == old(rt.objects)[cKey := CFString(key)][cAppID := CFString(applicationID)]
        && rt.owned == old(rt.owned) + {cKey, cAppID}
    {
      var e;
      cKey, e := Foundation.StringToCFString(rt, key);
      if e.Some? {
        return NilRef, NilRef, Some(KeyString(e.value));
      }
      cAppID, e := Foundation.StringToCFString(rt, applicationID);
      if e.Some? {
        Foundation.Release(rt, cKey);
        return NilRef, NilRef, Some(AppIDString(e.value));
      }
      err := None;
    }

    /**
     * The rest of Get once the key and application ID exist: the scope
     * switches, CFPreferencesCopyValue, and convertFromCFType on the copy,
     * which is released after it has been read. The key and the
     * application ID are released on every return.
     */
    method Read(key: string, applicationID: string, scope: PreferenceScope, cKey: Handle, cAppID: Handle)
      returns (v: GoValue, err: Option<PrefsError>)
      requires Valid() && cKey in rt.owned && cAppID in rt.owned && cKey != cAppID
      modifies rt
      ensures Valid() && Extended(rt.objects, old(rt.owned), rt.next, old(rt.objects), old(rt.owned), old(rt.next))
      ensures rt.owned == old(rt.owned) - {cKey, cAppID}
      ensures err.Some? ==> v == GoNil
      ensures rt.NoFailureSince(old(rt.next)) ==> Replied(GetReply(store, key, applicationID, scope), v, err)
    {
      var cUserName: UserName;
      if scope.user == CurrentUser {
        cUserName := CFCurrentUser;
      } else if scope.user == AnyUser {
        cUserName := CFAnyUser;
      } else {
        ReleaseNames(cKey, cAppID);
        return GoNil, Some(InvalidUser);
      }
      var cHostName: HostName;
      if scope.host == CurrentHost {
        cHostName := CFCurrentHost;
      } else if scope.host == AnyHost {
        cHostName := CFAnyHost;
      } else {
        ReleaseNames(cKey, cAppID);
        return GoNil, Some(InvalidHost);
      }
      var pk := PrefKey(applicationID, cUserName, cHostName, key);
      assert pk == KeyIn(applicationID, scope, key);
      var value := CopyValue(pk);
      if value == NilRef {
        // not found, or the copy could not be made
        ReleaseNames(cKey, cAppID);
        return GoNil, None;
      }
      var e;
      v, e := Foundation.ConvertFromCFType(rt.objects[value]);
      if e.Some? {
        err := Some(ReadError(e.value));
        assert Foundation.Decode(store[pk]).Failure?;
        assert err.value in set x | x in Foundation.Decode(store[pk]).errors :: ReadError(x);
      } else {
        err := None;
      }
      Foundation.Release(rt, value);
      ReleaseNames(cKey, cAppID);
    }

    /**
     * GetApp: the key and application ID strings are made, then Get with
     * CurrentUserAnyHost returns, and the two are released afterwards. The
     * CFPreferencesCopyAppValue code after that return is never reached.
     */
    method GetApp(key: string, appID: string) returns (v: GoValue, err: Option<PrefsError>)
      requires Valid()
      modifies rt
      ensures Valid() && Extended(rt.objects, rt.owned, rt.next, old(rt.objects), old(rt.owned), old(rt.next))
      ensures rt.owned == old(rt.owned)
      ensures err.Some? ==> v == GoNil
      ensures old(rt.next) in rt.failing ==> v == GoNil && err == Some(KeyString(StringCreateFailed))
      ensures rt.NoFailureSince(old(rt.next)) ==> Replied(GetReply(store, key, appID, CurrentUserAnyHost), v, err)
    {
      ghost var n0 := rt.next;
      var cKey, cAppID;
      cKey, cAppID, err := Names(key, appID);
      if err.Some? {
        return GoNil, err;
      }
      ghost var n1 := rt.next;
      v, err := Get(key, appID, CurrentUserAnyHost);
      if rt.NoFailureSince(n0) {
        assert rt.NoFailureSince(n1);
      }
      ReleaseNames(cKey, cAppID);
    }

    /** The deferred releases of Get and GetApp, in the order they run: the application ID, then the key. */
    method ReleaseNames(cKey: Handle, cAppID: Handle)
      requires Valid() && rt.Live(cKey) && rt.Live(cAppID) && cKey != cAppID
      modifies rt
      ensures Valid() && rt.objects == old(rt.objects) && rt.next == old(rt.next)
      ensures rt.owned == old(rt.owned) - {cKey, cAppID}
    {
      Foundation.Release(rt, cAppID);
      Foundation.Release(rt, cKey);
    }

    /** CFPreferencesSetValue and CFPreferencesSetAppValue: NULL removes the key, any other value is stored. */
    method SetValue(pk: PrefKey, cValue: Handle)
      requires Valid()
      modifies this
      ensures Valid() && store == Written(old(store), pk, Stored(rt.objects, cValue))
    {
      store := Written(store, pk, Stored(rt.objects, cValue));
    }

    /** The deferred release of the converted value, registered only when it is not NULL. */
    method ReleaseValue(cValue: Handle)
      requires Valid() && (cValue == NilRef || rt.Live(cValue))
      modifies rt
      ensures Valid() && rt.objects == old(rt.objects) && rt.next == old(rt.next)
      ensures rt.owned == old(rt.owned) - {cValue}
    {
      if cValue != NilRef {
        Foundation.Release(rt, cValue);
      }
    }

    /** The deferred calls of Set and SetApp in the order they run: the application ID, the value, the key. */
    method ReleaseAll(cKey: Handle, cValue: Handle, cAppID: Handle)
      requires Valid() && rt.Live(cKey) && rt.Live(cAppID) && (cValue == NilRef || rt.Live(cValue))
      requires cKey != cValue && cKey != cAppID && cValue != cAppID
      modifies rt
      ensures Valid() && rt.objects == old(rt.objects) && rt.next == old(rt.next)
      ensures rt.owned == old(rt.owned) - {cKey, cValue, cAppID}
    {
      Foundation.Release(rt, cAppID);
      ReleaseValue(cValue);
      Foundation.Release(rt, cKey);
    }
  }

  /**
   * The references Prepare hands to Set and SetApp, on the runtime's state
   * (objs, owned, next) after it, begun with (owned0, start): the key string
   * first, the application ID string last, the value NULL, a boolean or
   * made in between; all that was made is held, and for a value other than
   * a slice or map nothing was made but these three.
   */
  ghost predicate Prepared(objs: map<Handle, CFObject>, owned: set<Handle>, next: Handle,
                           owned0: set<Handle>, start: Handle,
                           key: string, value: GoValue, applicationID: string,
                           cKey: Handle, cValue: Handle, cAppID: Handle)
  {
    && cKey == start && cKey in objs && objs[cKey] == CFString(key) && cKey in owned
    && cAppID == next - 1 && start < cAppID && cAppID in objs && objs[cAppID] == CFString(applicationID)
    && cAppID in owned
    && (cValue == NilRef || IsSingleton(cValue) || (cKey < cValue < cAppID && cValue in owned))
    && (cValue != NilRef ==> cValue in objs)
    && owned == owned0 + Created(objs, start)
    && (!value.GoSlice? && !value.GoMap? ==> Created(objs, start) <= {cKey, cValue, cAppID})
  }

  /** The value reference and error Prepare returned are what the encoding r describes. */
  ghost predicate Converted(objs: map<Handle, CFObject>, r: Result<Option<CFObject>>, cValue: Handle,
                            err: Option<PrefsError>)
  {
    match r
    case Success(o) =>
      && err.None?
      && (cValue == NilRef <==> o.None?)
      && (cValue != NilRef ==> cValue in objs && objs[cValue] == o.value)
    case Failure(errors) => err.Some? && exists e :: e in errors && err.value == ValueError(e)
  }

  /** The object a reference passed to CF denotes; NULL denotes none. */
  function Stored(objs: map<Handle, CFObject>, h: Handle): Option<CFObject>
  {
    if h == NilRef || h !in objs then None else Some(objs[h])
  }

  /**
   * The references held once the key is released after its value failed to
   * convert: only what the conversion made, the key excluded; after a
   * scalar's failure nothing new, and after a panic all the conversion made.
   */
  /**
   * The key's ledger after the CFRetain(NULL) abort: the key and all the
   * conversion made are still held.
   */
  lemma KeyKept(o0: map<Handle, CFObject>, ow0: set<Handle>, n0: Handle,
                o1: map<Handle, CFObject>, ow1: set<Handle>, n1: Handle,
                o2: map<Handle, CFObject>, ow2: set<Handle>, n2: Handle, key: string)
    requires (forall h :: h in o0 ==> h < n0) && ow0 <= o0.Keys
    requires n1 == n0 + 1 && o1 == o0[n0 := CFString(key)] && ow1 == ow0 + {n0}
    requires Extended(o2, ow2, n2, o1, ow1, n1) && ow2 == ow1 + Created(o2, n1)
    ensures Extended(o2, ow2, n2, o0, ow0, n0)
    ensures n0 in o2 && o2[n0] == CFString(key)
    ensures ow2 == ow0 + Created(o2, n0)
  {
    CreatedSplit(o1, o2, n0, n1);
    assert Created(o1, n0) == {n0};
  }

  lemma KeyReleased(o0: map<Handle, CFObject>, ow0: set<Handle>, n0: Handle,
                    o1: map<Handle, CFObject>, ow1: set<Handle>, n1: Handle,
                    o2: map<Handle, CFObject>, ow2: set<Handle>, n2: Handle, ow3: set<Handle>,
                    key: string, scalar: bool, panicked: bool)
    requires (forall h :: h in o0 ==> h < n0) && ow0 <= o0.Keys
    requires n1 == n0 + 1 && o1 == o0[n0 := CFString(key)] && ow1 == ow0 + {n0}
    requires NilRef !in o2 && ow2 <= o2.Keys && Extended(o2, ow2, n2, o1, ow1, n1)
    requires scalar ==> ow2 == ow1 + Created(o2, n1) && Created(o2, n1) <= {NilRef}
    requires panicked ==> ow2 == ow1 + Created(o2, n1)
    requires ow3 == ow2 - {n0}
    ensures Extended(o2, ow3, n2, o0, ow0, n0)
    ensures n0 in o2 && o2[n0] == CFString(key) && n0 !in ow3
    ensures ow0 <= ow3 <= ow0 + Created(o2, n0)
    ensures scalar ==> ow3 == ow0
    ensures panicked ==> ow3 == ow0 + Created(o2, n0) - {n0}
  {
    CreatedSplit(o1, o2, n0, n1);
    assert Created(o1, n0) == {n0};
  }

  /**
   * Releasing the three references Prepare handed over leaves held exactly
   * what it made besides them: the members nested in an array or dictionary
   * value, and nothing for any other value.
   */
  lemma ReleasePrepared(objs: map<Handle, CFObject>, owned: set<Handle>, next: Handle,
                        owned0: set<Handle>, start: Handle,
                        key: string, value: GoValue, applicationID: string,
                        cKey: Handle, cValue: Handle, cAppID: Handle)
    requires FirstHandle <= start && NilRef !in owned0 && TrueRef !in owned0 && FalseRef !in owned0
    requires forall h :: h in owned0 ==> h < start
    requires Prepared(objs, owned, next, owned0, start, key, value, applicationID, cKey, cValue, cAppID)
    ensures owned0 <= owned - {cKey, cValue, cAppID} <= owned0 + Created(objs, start)
    ensures !value.GoSlice? && !value.GoMap? ==> owned - {cKey, cValue, cAppID} == owned0
  {
  }

  /**
   * Under no allocation failure, the outcome of Prepare decides Set's
   * reported error and its store as SetErrors and SetStore describe.
   */
  lemma SetAgrees(store: map<PrefKey, CFObject>, key: string, value: GoValue, applicationID: string,
                  scope: PreferenceScope, synchronized: bool,
                  objs: map<Handle, CFObject>, cValue: Handle, err: Option<PrefsError>)
    requires Converted(objs, Foundation.Encode(value), cValue, err)
    ensures err.Some? ==>
      err in SetErrors(value, scope, synchronized) && SetStore(store, key, value, applicationID, scope) == store
    ensures err.None? ==>
      && SetErrors(value, scope, synchronized) == ScopeErrors(scope, synchronized)
      && (ValidScope(scope) ==>
            SetStore(store, key, value, applicationID, scope)
            == Written(store, KeyIn(applicationID, scope, key), Stored(objs, cValue)))
      && (!ValidScope(scope) ==> SetStore(store, key, value, applicationID, scope) == store)
  {
    if err.Some? {
      var e :| e in Foundation.Encode(value).errors && err.value == ValueError(e);
      assert Some(ValueError(e)) in SetErrors(value, scope, synchronized);
    }
  }
}
