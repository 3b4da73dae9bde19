/**
 * The CoreFoundation calls the converter makes, as a ledger of handles.
 *
 * A handle is one reference the Go code holds. Every Create call hands the
 * caller a new reference that it owns and must CFRelease once; the two
 * boolean singletons are process-wide constants that nobody owns. Allocation
 * failure is not computed: `failing` names the handles whose creation call
 * returns NULL instead.
 */
module CoreFoundation {
  import opened Values

  type Handle = nat

  /** NilCFType, the NULL reference. */
  const NilRef: Handle := 0
  /** kCFBooleanTrue and kCFBooleanFalse. */
  const TrueRef: Handle := 1
  const FalseRef: Handle := 2
  /** The first handle a Create call can return. */
  const FirstHandle: Handle := 3

  predicate IsSingleton(h: Handle)
  {
    h == TrueRef || h == FalseRef
  }

  /** The entries of a dictionary whose i-th key is objs[keys[i]] and i-th value objs[values[i]]. */
  function ArrayEntries(objs: map<Handle, CFObject>, keys: seq<Handle>, values: seq<Handle>): map<string, CFObject>
    requires |keys| == |values|
    requires forall i :: 0 <= i < |keys| ==> keys[i] in objs && objs[keys[i]].CFString? && values[i] in objs
    requires forall i, j :: 0 <= i < j < |keys| ==> objs[keys[i]] != objs[keys[j]]
  {
    map i | 0 <= i < |keys| :: objs[keys[i]].s := objs[values[i]]
  }

  /** The handles in objects numbered from start on. */
  ghost function Created(objects: map<Handle, CFObject>, start: Handle): set<Handle>
  {
    set h | h in objects && start <= h
  }

  /** Creation since start splits at any later point mid, when only fresh handles were added. */
  lemma CreatedSplit(o1: map<Handle, CFObject>, o2: map<Handle, CFObject>, start: Handle, mid: Handle)
    requires start <= mid
    requires forall h :: h in o1 ==> h in o2 && h < mid
    requires forall h :: h in o2 && h < mid ==> h in o1
    ensures Created(o2, start) == Created(o1, start) + Created(o2, mid)
  {
  }

  /**
   * The frame every conversion keeps, on the runtime's state before and
   * after: objects only gain fresh entries, and references older than
   * `oldNext` are neither created nor released.
   */
  ghost predicate Extended(objects: map<Handle, CFObject>, owned: set<Handle>, next: Handle,
                           oldObjects: map<Handle, CFObject>, oldOwned: set<Handle>, oldNext: Handle)
  {
    && oldNext <= next
    && (forall h :: h in oldObjects ==> h in objects && objects[h] == oldObjects[h])
    && (forall h :: h in objects && h < oldNext ==> h in oldObjects)
    && (forall h :: h < oldNext ==> (h in owned <==> h in oldOwned))
  }

  /** No Create call for a handle in [from, to) fails. */
  ghost predicate NoneFail(failing: set<Handle>, from: Handle, to: Handle)
  {
    forall h :: from <= h < to ==> h !in failing
  }

  /** Two frames in a row make one. */
  lemma ExtendedTrans(o0: map<Handle, CFObject>, ow0: set<Handle>, n0: Handle,
                      o1: map<Handle, CFObject>, ow1: set<Handle>, n1: Handle,
                      o2: map<Handle, CFObject>, ow2: set<Handle>, n2: Handle)
    requires Extended(o1, ow1, n1, o0, ow0, n0) && Extended(o2, ow2, n2, o1, ow1, n1)
    ensures Extended(o2, ow2, n2, o0, ow0, n0)
  {
  }

  class CFRuntime {
    /** What each handle created so far refers to (objects are immutable). */
    var objects: map<Handle, CFObject>
    /** The handle the next Create call returns, unless it fails. */
    var next: Handle
    /** References the caller holds and has not yet released. */
    var owned: set<Handle>
    /** Create calls that fail: the one that would return handle h fails iff h in failing. */
    const failing: set<Handle>

    ghost predicate Valid()
      reads this
    {
      && FirstHandle <= next
      && TrueRef in objects && objects[TrueRef] == CFBoolean(true)
      && FalseRef in objects && objects[FalseRef] == CFBoolean(false)
      && NilRef !in objects
      && (forall h :: h in objects ==> h < next)
      && owned <= objects.Keys
      && TrueRef !in owned && FalseRef !in owned
    }

    /** A reference the caller may pass to CF: one it owns, or a singleton. */
    ghost predicate Live(h: Handle)
      reads this
    {
      h in owned || IsSingleton(h)
    }

    /** No Create call since handle `start` was the next one has failed. */
    ghost predicate NoFailureSince(start: Handle)
      reads this
    {
      NoneFail(failing, start, next)
    }

    /** The handles successfully created since `start` was the next one. */
    ghost function CreatedSince(start: Handle): set<Handle>
      reads this
    {
      Created(objects, start)
    }

    /** The frame every conversion keeps, from the state (oldObjects, oldOwned, oldNext) to this one. */
    ghost predicate Extends(oldObjects: map<Handle, CFObject>, oldOwned: set<Handle>, oldNext: Handle)
      reads this
    {
      Extended(objects, owned, next, oldObjects, oldOwned, oldNext)
    }

    constructor (failing: set<Handle>)
      ensures Valid()
      ensures this.failing == failing && next == FirstHandle && owned == {}
      ensures objects == map[TrueRef := CFBoolean(true), FalseRef := CFBoolean(false)]
    {
      this.failing := failing;
      next := FirstHandle;
      owned := {};
      objects := map[TrueRef := CFBoolean(true), FalseRef := CFBoolean(false)];
    }

    /** The common step of every Create call: NULL on failure, else a new owned reference to o. */
    method Allocate(o: CFObject) returns (h: Handle)
      requires Valid()
      modifies this
      ensures Valid() && Extends(old(objects), old(owned), old(next))
      ensures next == old(next) + 1
      ensures h == if old(next) in failing then NilRef else old(next)
      ensures objects == if h == NilRef then old(objects) else old(objects)[h := o]
      ensures owned == if h == NilRef then old(owned) else old(owned) + {h}
    {
      if next in failing {
        h := NilRef;
      } else {
        h := next;
        objects := objects[h := o];
        owned := owned + {h};
      }
      next := next + 1;
    }

    /** CFStringCreateWithCString with UTF-8 encoding. */
    method StringCreate(s: string) returns (h: Handle)
      requires Valid()
      modifies this
      ensures Valid() && Extends(old(objects), old(owned), old(next))
      ensures next == old(next) + 1
      ensures h == if old(next) in failing then NilRef else old(next)
      ensures objects == if h == NilRef then old(objects) else old(objects)[h := CFString(s)]
      ensures owned == if h == NilRef then old(owned) else old(owned) + {h}
    {
      h := Allocate(CFString(s));
    }

    /** CFDataCreate. */
    method DataCreate(b: seq<byte>) returns (h: Handle)
      requires Valid()
      modifies this
      ensures Valid() && Extends(old(objects), old(owned), old(next))
      ensures next == old(next) + 1
      ensures h == if old(next) in failing then NilRef else old(next)
      ensures objects == if h == NilRef then old(objects) else old(objects)[h := CFData(b)]
      ensures owned == if h == NilRef then old(owned) else old(owned) + {h}
    {
      h := Allocate(CFData(b));
    }

    /** CFDateCreate. */
    method DateCreate(absolute: real) returns (h: Handle)
      requires Valid()
      modifies this
      ensures Valid() && Extends(old(objects), old(owned), old(next))
      ensures next == old(next) + 1
      ensures h == if old(next) in failing then NilRef else old(next)
      ensures objects == if h == NilRef then old(objects) else old(objects)[h := CFDate(absolute)]
      ensures owned == if h == NilRef then old(owned) else old(owned) + {h}
    {
      h := Allocate(CFDate(absolute));
    }

    /** CFNumberCreate with kCFNumberLongLongType. */
    method NumberCreateLongLong(i: int) returns (h: Handle)
      requires Valid()
      modifies this
      ensures Valid() && Extends(old(objects), old(owned), old(next))
      ensures next == old(next) + 1
      ensures h == if old(next) in failing then NilRef else old(next)
      ensures objects == if h == NilRef then old(objects) else old(objects)[h := CFInteger(LongLongType, i)]
      ensures owned == if h == NilRef then old(owned) else old(owned) + {h}
    {
      h := Allocate(CFInteger(LongLongType, i));
    }

    /** CFNumberCreate with kCFNumberDoubleType. */
    method NumberCreateDouble(d: FloatBits) returns (h: Handle)
      requires Valid()
      modifies this
      ensures Valid() && Extends(old(objects), old(owned), old(next))
      ensures next == old(next) + 1
      ensures h == if old(next) in failing then NilRef else old(next)
      ensures objects == if h == NilRef then old(objects) else old(objects)[h := CFReal(DoubleType, d)]
      ensures owned == if h == NilRef then old(owned) else old(owned) + {h}
    {
      h := Allocate(CFReal(DoubleType, d));
    }

    /** The array CFArrayCreate builds from live members. */
    function ArrayOf(values: seq<Handle>): CFObject
      reads this
      requires forall i :: 0 <= i < |values| ==> values[i] in objects
    {
      var objs := objects;
      CFArray(seq(|values|, i requires 0 <= i < |values| => objs[values[i]]))
    }

    /**
     * CFArrayCreate with kCFTypeArrayCallBacks: it retains every member, and
     * retaining NULL crashes the process.
     */
    method ArrayCreate(values: seq<Handle>) returns (h: Handle, crashed: bool)
      requires Valid()
      requires forall i :: 0 <= i < |values| ==> values[i] == NilRef || (Live(values[i]) && values[i] in objects)
      modifies this
      ensures Valid() && Extends(old(objects), old(owned), old(next))
      ensures crashed <==> exists i :: 0 <= i < |values| && values[i] == NilRef
      ensures crashed ==> next == old(next) && objects == old(objects) && owned == old(owned)
      ensures !crashed ==> next == old(next) + 1
      ensures !crashed ==> h == if old(next) in failing then NilRef else old(next)
      ensures !crashed ==> objects == if h == NilRef then old(objects) else old(objects)[h := old(ArrayOf(values))]
      ensures !crashed ==> owned == if h == NilRef then old(owned) else old(owned) + {h}
    {
      crashed := exists i :: 0 <= i < |values| && values[i] == NilRef;
      h := NilRef;
      if !crashed {
        h := Allocate(ArrayOf(values));
      }
    }

    /** The dictionary CFDictionaryCreate builds from parallel key and value arrays. */
    function DictionaryOf(keys: seq<Handle>, values: seq<Handle>): CFObject
      reads this
      requires |keys| == |values|
      requires forall i :: 0 <= i < |keys| ==> keys[i] in objects && objects[keys[i]].CFString? && values[i] in objects
      requires forall i, j :: 0 <= i < j < |keys| ==> objects[keys[i]] != objects[keys[j]]
    {
      CFDictionary(ArrayEntries(objects, keys, values))
    }

    /**
     * CFDictionaryCreate with the kCFType key and value callbacks: it retains
     * every key and value, and retaining NULL crashes the process. The keys
     * are distinct strings.
     */
    method DictionaryCreate(keys: seq<Handle>, values: seq<Handle>) returns (h: Handle, crashed: bool)
      requires Valid()
      requires |keys| == |values|
      requires forall i :: 0 <= i < |keys| ==> Live(keys[i]) && keys[i] in objects && objects[keys[i]].CFString?
      requires forall i :: 0 <= i < |values| ==> values[i] == NilRef || (Live(values[i]) && values[i] in objects)
      requires forall i, j :: 0 <= i < j < |keys| ==> objects[keys[i]] != objects[keys[j]]
      modifies this
      ensures Valid() && Extends(old(objects), old(owned), old(next))
      ensures crashed <==> exists i :: 0 <= i < |values| && values[i] == NilRef
      ensures crashed ==> next == old(next) && objects == old(objects) && owned == old(owned)
      ensures !crashed ==> next == old(next) + 1
      ensures !crashed ==> h == if old(next) in failing then NilRef else old(next)
      ensures !crashed ==> objects == if h == NilRef then old(objects) else old(objects)[h := old(DictionaryOf(keys, values))]
      ensures !crashed ==> owned == if h == NilRef then old(owned) else old(owned) + {h}
    {
      crashed := exists i :: 0 <= i < |values| && values[i] == NilRef;
      h := NilRef;
      if !crashed {
        h := Allocate(DictionaryOf(keys, values));
      }
    }

    /**
     * CFRelease: gives up one reference. The reference must be live and not
     * NULL (CFRelease(NULL) crashes); releasing a singleton changes nothing.
     */
    method Release(h: Handle)
      requires Valid()
      requires h != NilRef && Live(h)
      modifies this
      ensures Valid() && Extends(old(objects), old(owned) - {h}, old(next))
      ensures objects == old(objects) && next == old(next)
      ensures owned == old(owned) - {h}
    {
      owned := owned - {h};
    }
  }
}
