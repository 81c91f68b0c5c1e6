/** industrial/src/eip_session.cc: a table of library tag handles by key. The library is
    an allocator of handles that insists on destroying only live ones. */
module EipSessions {
  import opened Domain

  /** Handles are non-negative; a failed create answers a negative code, and a created
      handle may still report a bad status. */
  datatype CreateReply = CreateFails(code: int) | Created(statusOk: bool)

  class PlcLibrary {
    var live: set<int>
    var next: int
    // The device tag each handle was created for.
    var names: map<int, string>

    constructor ()
      ensures Valid() && live == {}
    {
      live, next, names := {}, 0, map[];
    }

    ghost predicate Valid()
      reads this
    {
      next >= 0 && forall h :: h in live ==> 0 <= h < next && h in names
    }

    method Create(tagName: string, reply: CreateReply) returns (handle: int)
      requires Valid()
      modifies this
      ensures Valid()
      ensures handle >= 0 <==> reply.Created?
      ensures handle >= 0 ==> handle !in old(live) && live == old(live) + {handle}
      ensures handle < 0 ==> live == old(live)
      ensures names == if handle >= 0 then old(names)[handle := tagName] else old(names)
    {
      match reply
      case CreateFails(code) =>
        handle := if code < 0 then code else -1;
      case Created(_) =>
        handle := next;
        next := next + 1;
        live := live + {handle};
        names := names[handle := tagName];
    }

    method Destroy(handle: int)
      requires Valid() && handle in live
      modifies this
      ensures Valid() && live == old(live) - {handle} && names == old(names)
    {
      live := live - {handle};
    }
  }

  datatype ValueType = BoolValue | DintValue | RealValue

  datatype TagEntry = TagEntry(handle: int, valueType: ValueType)

  /** The tag's buffer as each accessor of the library would decode it. */
  datatype ReadReply = ReadFails(error: string) | Raw(uint8: nat, int32: int, float32: real)

  /** What a write puts into the tag's buffer, by the accessor used. */
  datatype Payload = PutUint8(b: nat) | PutInt32(n: int) | PutFloat32(x: real)

  /** The library's answers to the accessor and to the write that follows it. */
  datatype WriteReply = SetFails(error: string) | WriteFails(error: string) | WriteDone

  /** A reading of any tag as each of the three types, by the tag's own type. */
  function AsBool(t: ValueType, r: ReadReply): bool
    requires r.Raw?
  {
    match t
    case BoolValue => r.uint8 != 0
    case DintValue => r.int32 != 0
    case RealValue => r.float32 != 0.0
  }

  function AsDint(t: ValueType, r: ReadReply): int
    requires r.Raw?
  {
    match t
    case BoolValue => if r.uint8 != 0 then 1 else 0
    case DintValue => r.int32
    case RealValue => Truncated(r.float32)
  }

  function AsReal(t: ValueType, r: ReadReply): real
    requires r.Raw?
  {
    match t
    case BoolValue => if r.uint8 != 0 then 1.0 else 0.0
    case DintValue => r.int32 as real
    case RealValue => r.float32
  }

  function BoolPayload(t: ValueType, v: bool): Payload {
    match t
    case BoolValue => PutUint8(if v then 1 else 0)
    case DintValue => PutInt32(if v then 1 else 0)
    case RealValue => PutFloat32(if v then 1.0 else 0.0)
  }

  function DintPayload(t: ValueType, v: int): Payload {
    match t
    case BoolValue => PutUint8(if v != 0 then 1 else 0)
    case RealValue => PutFloat32(v as real)
    case DintValue => PutInt32(v)
  }

  function RealPayload(t: ValueType, v: real): Payload {
    match t
    case BoolValue => PutUint8(if v != 0.0 then 1 else 0)
    case DintValue => PutInt32(Truncated(v))
    case RealValue => PutFloat32(v)
  }

  class EipSession {
    const lib: PlcLibrary
    var isOpen: bool
    var tags: map<string, TagEntry>
    var lastError: string
    // Which key a handle was created for: no handle is in the table twice.
    ghost var keyOf: map<int, string>

    constructor (lib: PlcLibrary)
      requires lib.Valid()
      ensures Valid() && !isOpen && this.lib == lib
    {
      this.lib := lib;
      isOpen, tags, lastError, keyOf := false, map[], "", map[];
    }

    ghost function Handles(): set<int>
      reads this`tags
    {
      HandlesOf(tags)
    }

    /** Every handle in the table is live and is there once; a closed session has none. */
    ghost predicate Valid()
      reads this`isOpen, this`tags, this`keyOf, lib
    {
      && lib.Valid()
      && (forall k :: k in tags ==> Owned(tags[k].handle, k))
      && (!isOpen ==> tags == map[])
    }

    ghost predicate Owned(handle: int, key: string)
      reads this`keyOf, lib
    {
      handle >= 0 && handle in lib.live && handle in keyOf && keyOf[handle] == key
    }

    method Open(host: string, port: nat, plcType: string) returns (ok: bool)
      requires Valid()
      modifies this, lib
      ensures Valid() && tags == map[] && isOpen == ok
      ensures ok <==> host != "" && port != 0 && plcType != ""
      ensures lib.live == old(lib.live) - old(Handles()) && lib.names == old(lib.names)
    {
      Close();
      if host == "" || port == 0 || plcType == "" {
        lastError := "missing EtherNet/IP host, port, or plc type";
        return false;
      }
      isOpen, lastError := true, "";
      return true;
    }

    method Close()
      requires Valid()
      modifies this, lib
      ensures Valid() && tags == map[] && !isOpen && lastError == old(lastError)
      ensures lib.live == old(lib.live) - old(Handles()) && lib.names == old(lib.names)
    {
      DestroyAllTags();
      isOpen := false;
    }

    /** Handles are conserved: a created tag's handle enters the table, and one whose
        status is bad is destroyed again before the call returns. */
    method CreateTag(key: string, tagName: string, valueType: ValueType, reply: CreateReply) returns (ok: bool)
      requires Valid()
      modifies this, lib
      ensures Valid() && isOpen == old(isOpen)
      ensures ok <==> isOpen && key != "" && tagName != "" && key !in old(tags) && reply == Created(true)
      ensures !ok ==> tags == old(tags) && lib.live == old(lib.live)
      ensures ok ==> tags.Keys == old(tags).Keys + {key} && tags[key].valueType == valueType
      ensures ok ==> tags == old(tags)[key := tags[key]]
      ensures ok ==> tags[key].handle !in old(lib.live) && lib.live == old(lib.live) + {tags[key].handle}
      ensures lib.live - Handles() == old(lib.live) - old(Handles())
      ensures ok ==> lib.names[tags[key].handle] == tagName
      ensures forall h :: h in old(lib.live) ==> lib.names[h] == old(lib.names)[h]
    {
      if !isOpen {
        lastError := "EtherNet/IP session is closed";
        return false;
      }
      if key == "" || tagName == "" {
        lastError := "empty tag key or name";
        return false;
      }
      if key in tags {
        lastError := "duplicate tag key";
        return false;
      }
      var handle := CreateHandle(tagName, reply);
      if handle.None? {
        return false;
      }
      Enter(key, TagEntry(handle.value, valueType));
      return true;
    }

    /** A live handle that is in no entry yet enters the table. */
    method Enter(key: string, entry: TagEntry)
      requires lib.Valid() && isOpen && (forall k :: k in tags ==> Owned(tags[k].handle, k)) && key !in tags
      requires entry.handle >= 0 && entry.handle in lib.live && entry.handle !in Handles()
      modifies this`tags, this`keyOf, this`lastError
      ensures Valid() && tags == old(tags)[key := entry] && Handles() == old(Handles()) + {entry.handle}
    {
      tags := tags[key := entry];
      keyOf := keyOf[entry.handle := key];
      lastError := "";
      OneMoreHandle(old(tags), key, entry);
    }

    /** A handle of good status, or none: one of bad status is destroyed again. */
    method CreateHandle(tagName: string, reply: CreateReply) returns (handle: Option<int>)
      requires lib.Valid()
      modifies this`lastError, lib
      ensures lib.Valid()
      ensures handle.Some? <==> reply == Created(true)
      ensures handle.Some? ==>
        handle.value >= 0 && handle.value !in old(lib.live) && lib.live == old(lib.live) + {handle.value}
      ensures handle.Some? ==> handle.value in lib.names && lib.names[handle.value] == tagName
      ensures handle.None? ==> lib.live == old(lib.live)
      ensures forall h :: h in old(lib.live) ==> lib.names[h] == old(lib.names)[h]
    {
      var created := lib.Create(tagName, reply);
      if created < 0 {
        lastError := "tag create failed";
        return None;
      }
      if !reply.statusOk {
        lastError := "tag create status";
        lib.Destroy(created);
        return None;
      }
      return Some(created);
    }

    /** Each handle of the table is destroyed once, in whatever order the table gives. */
    method DestroyAllTags()
      requires Valid()
      modifies this`tags, lib
      ensures lib.Valid() && tags == map[]
      ensures lib.live == old(lib.live) - old(Handles()) && lib.names == old(lib.names)
    {
      var todo := tags.Keys;
      while todo != {}
        invariant lib.Valid() && todo <= tags.Keys == old(tags).Keys && lib.live <= old(lib.live)
        invariant lib.names == old(lib.names)
        invariant forall k :: k in todo ==> tags[k] == old(tags)[k] && tags[k].handle in lib.live
        invariant forall k :: k in old(tags) && k !in todo ==> old(tags)[k].handle !in lib.live
        invariant forall h :: h in old(lib.live) && h !in lib.live ==> h in old(Handles())
        decreases todo
      {
        var k :| k in todo;
        if tags[k].handle >= 0 {
          lib.Destroy(tags[k].handle);
          tags := tags[k := tags[k].(handle := -1)];
        }
        todo := todo - {k};
      }
      forall h | h in old(lib.live)
        ensures h in lib.live <==> h !in old(Handles())
      {
        if h in old(Handles()) {
          var k :| k in old(tags) && old(tags)[k].handle == h;
        }
      }
      tags := map[];
    }

    method FindTag(key: string) returns (found: Option<TagEntry>)
      requires Valid()
      modifies this`lastError
      ensures found == if key in tags then Some(tags[key]) else None
      ensures key in tags ==> lastError == old(lastError)
    {
      if key !in tags || tags[key].handle < 0 {
        lastError := "unknown or destroyed tag";
        return None;
      }
      return Some(tags[key]);
    }

    method ReadBool(key: string, reply: ReadReply) returns (value: Option<bool>)
      requires Valid()
      modifies this`lastError
      ensures value.Some? <==> key in tags && reply.Raw?
      ensures value.Some? ==> value.value == AsBool(tags[key].valueType, reply)
    {
      var entry := FindTag(key);
      if entry.None? {
        return None;
      }
      if reply.ReadFails? {
        lastError := "tag read failed: " + reply.error;
        return None;
      }
      lastError := "";
      match entry.value.valueType
      case BoolValue => return Some(reply.uint8 != 0);
      case DintValue => return Some(reply.int32 != 0);
      case RealValue => return Some(reply.float32 != 0.0);
    }

    method ReadDint(key: string, reply: ReadReply) returns (value: Option<int>)
      requires Valid()
      modifies this`lastError
      ensures value.Some? <==> key in tags && reply.Raw?
      ensures value.Some? ==> value.value == AsDint(tags[key].valueType, reply)
    {
      var entry := FindTag(key);
      if entry.None? {
        return None;
      }
      if reply.ReadFails? {
        lastError := "tag read failed: " + reply.error;
        return None;
      }
      lastError := "";
      match entry.value.valueType
      case BoolValue => return Some(if reply.uint8 != 0 then 1 else 0);
      case RealValue => return Some(Truncated(reply.float32));
      case DintValue => return Some(reply.int32);
    }

    method ReadReal(key: string, reply: ReadReply) returns (value: Option<real>)
      requires Valid()
      modifies this`lastError
      ensures value.Some? <==> key in tags && reply.Raw?
      ensures value.Some? ==> value.value == AsReal(tags[key].valueType, reply)
    {
      var entry := FindTag(key);
      if entry.None? {
        return None;
      }
      if reply.ReadFails? {
        lastError := "tag read failed: " + reply.error;
        return None;
      }
      lastError := "";
      match entry.value.valueType
      case BoolValue => return Some(if reply.uint8 != 0 then 1.0 else 0.0);
      case DintValue => return Some(reply.int32 as real);
      case RealValue => return Some(reply.float32);
    }

    /** A write by key: the accessor of the tag's own type, then the write itself. */
    method Write(key: string, payload: ValueType -> Payload, reply: WriteReply)
      returns (ok: bool, ghost sent: Option<(int, Payload)>)
      requires Valid()
      modifies this`lastError
      ensures ok <==> key in tags && reply.WriteDone?
      ensures sent == if key in tags && !reply.SetFails?
                      then Some((tags[key].handle, payload(tags[key].valueType))) else None
    {
      sent := None;
      var entry := FindTag(key);
      if entry.None? {
        return false, None;
      }
      if reply.SetFails? {
        lastError := "tag set failed: " + reply.error;
        return false, None;
      }
      sent := Some((entry.value.handle, payload(entry.value.valueType)));
      if reply.WriteFails? {
        lastError := "tag write failed: " + reply.error;
        return false, sent;
      }
      lastError := "";
      return true, sent;
    }
  }

  function HandlesOf(tags: map<string, TagEntry>): set<int> {
    set k | k in tags :: tags[k].handle
  }

  lemma OneMoreHandle(tags: map<string, TagEntry>, key: string, e: TagEntry)
    requires key !in tags
    ensures HandlesOf(tags[key := e]) == HandlesOf(tags) + {e.handle}
  {
    var tags' := tags[key := e];
    forall h | h in HandlesOf(tags)
      ensures h in HandlesOf(tags')
    {
      var k :| k in tags && tags[k].handle == h;
      assert tags'[k].handle == h;
    }
    assert tags'[key].handle in HandlesOf(tags');
  }

  /** The three readings of one answer agree: the truth is "not zero" of the number, and
      the integer is the number without its fraction. */
  lemma ReadingsAgree(t: ValueType, r: ReadReply)
    requires r.Raw?
    ensures AsReal(t, r) == match t
      case BoolValue => (if r.uint8 == 0 then 0.0 else 1.0)
      case DintValue => r.int32 as real
      case RealValue => r.float32
    ensures AsBool(t, r) <==> AsReal(t, r) != 0.0
    ensures !t.RealValue? ==> AsDint(t, r) as real == AsReal(t, r)
    ensures AsReal(t, r) >= 0.0 ==> 0.0 <= AsDint(t, r) as real <= AsReal(t, r) < AsDint(t, r) as real + 1.0
    ensures AsReal(t, r) <= 0.0 ==> AsDint(t, r) as real - 1.0 < AsReal(t, r) <= AsDint(t, r) as real <= 0.0
  {
  }

  /** The tag's buffer holds what was put into it, by the accessor used. */
  predicate Holds(r: ReadReply, p: Payload)
    requires r.Raw?
  {
    match p
    case PutUint8(b) => r.uint8 == b
    case PutInt32(n) => r.int32 == n
    case PutFloat32(x) => r.float32 == x
  }

  /** What is written to a tag of any type is read back from it, as far as the type can
      hold it: a truth always, an integer but for a bool tag, a real from a real tag, and
      from an integer tag without its fraction. */
  lemma WrittenIsReadBack(t: ValueType, r: ReadReply, b: bool, n: int, x: real)
    requires r.Raw?
    ensures t.BoolValue? ==> {BoolPayload(t, b), DintPayload(t, n), RealPayload(t, x)} <= {PutUint8(0), PutUint8(1)}
    ensures Holds(r, BoolPayload(t, b)) ==> AsBool(t, r) == b
    ensures Holds(r, DintPayload(t, n)) ==> if t.BoolValue? then AsBool(t, r) == (n != 0) else AsDint(t, r) == n
    ensures Holds(r, RealPayload(t, x)) ==>
      match t
      case BoolValue => AsBool(t, r) == (x != 0.0)
      case DintValue => AbsR(AsReal(t, r)) <= AbsR(x) < AbsR(AsReal(t, r)) + 1.0 && AsReal(t, r) * x >= 0.0
      case RealValue => AsReal(t, r) == x
  {
    if t.DintValue? && Holds(r, RealPayload(t, x)) {
      TruncatedTowardsZero(x);
    }
  }

  function AbsR(x: real): real {
    if x < 0.0 then -x else x
  }

  lemma TruncatedTowardsZero(x: real)
    ensures AbsR(Truncated(x) as real) <= AbsR(x) < AbsR(Truncated(x) as real) + 1.0
    ensures Truncated(x) as real * x >= 0.0
  {
    if x >= 0.0 {
      SameSign(Truncated(x) as real, x);
    } else {
      SameSign(-(Truncated(x) as real), -x);
    }
  }

  lemma SameSign(a: real, b: real)
    requires a >= 0.0 && b >= 0.0
    ensures a * b >= 0.0 && (-a) * (-b) == a * b
  {
  }

  /** static_cast to an integer drops the fraction. */
  function Truncated(x: real): int {
    if x >= 0.0 then x.Floor else -((-x).Floor)
  }
}
