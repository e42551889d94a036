/**
 Capabilities, the object table and the per-domain capability tables. Rights are modelled as sets of
 flags, so that containment, intersection and removal are those of sets.
 */
module CapCore {
  import opened Machine

  const CAP_TABLE_SLOTS: nat := 256
  const OBJECT_TABLE_SIZE: nat := 1024

  datatype Right = Read | Write | Invoke | Delegate | Revoke | Map | GrantCap | Seal

  type Rights = set<Right>

  const ALL_RIGHTS: Rights := {Read, Write, Invoke, Delegate, Revoke, Map, GrantCap, Seal}

  datatype Kind =
    | Null | Untyped | Memory | AddressSpace | Domain | Endpoint
    | Notification | TimeSlice | Extent | DeviceQueue | CapTable | IrqHandler

  datatype CapEntry = CapEntry(objectId: nat, rights: Rights, epoch: U32, kind: Kind, badge: U16)

  datatype Meta = Meta(kind: Kind, epoch: U32, present: bool)

  datatype Status = Ok | ErrBadCPtr | ErrRevoked | ErrType | ErrRights | ErrMethod

  datatype Result<+T> = Success(value: T) | Failure(status: Status)

  type Objects = s: seq<Meta> | |s| == 1024 witness seq(1024, _ => Meta(Null, 0, false))

  type Table = s: seq<Option<CapEntry>> | |s| == 256 witness seq(256, _ => None)

  function EmptyTable(): Table {
    seq(256, _ => None)
  }

  // ---- the object table ----

  /** The first index from `i` on at which no object is present. */
  function FreeObject(objs: Objects, i: nat): (r: Option<nat>)
    requires i <= 1024
    ensures r.Some? ==> i <= r.value < 1024 && !objs[r.value].present
                        && forall j :: i <= j < r.value ==> objs[j].present
    ensures r.None? ==> forall j :: i <= j < 1024 ==> objs[j].present
    decreases 1024 - i
  {
    if i == 1024 then None else if !objs[i].present then Some(i) else FreeObject(objs, i + 1)
  }

  function CreateObject(objs: Objects, kind: Kind): Option<(Objects, nat)> {
    match FreeObject(objs, 0)
    case None => None
    case Some(i) => Some((objs[i := Meta(kind, 0, true)], i))
  }

  /** Bumps the object's epoch, wrapping at 2^32. */
  function RevokeObject(objs: Objects, oid: nat): (Status, Objects) {
    if oid >= OBJECT_TABLE_SIZE || !objs[oid].present then (ErrBadCPtr, objs)
    else (Ok, objs[oid := objs[oid].(epoch := (objs[oid].epoch + 1) % TWO_32)])
  }

  // ---- capability tables ----

  function FreeSlot(t: Table, i: nat): (r: Option<nat>)
    requires i <= 256
    ensures r.Some? ==> i <= r.value < 256 && t[r.value].None?
                        && forall j :: i <= j < r.value ==> t[j].Some?
    ensures r.None? ==> forall j :: i <= j < 256 ==> t[j].Some?
    decreases 256 - i
  {
    if i == 256 then None else if t[i].None? then Some(i) else FreeSlot(t, i + 1)
  }

  /** The entry against the live object: its epoch and its kind. */
  function Liveness(objs: Objects, e: CapEntry): Status {
    if e.objectId >= OBJECT_TABLE_SIZE then ErrBadCPtr
    else
      var m := objs[e.objectId];
      if !m.present || e.kind != m.kind || e.epoch != m.epoch then
        if e.epoch != m.epoch then ErrRevoked else ErrType
      else Ok
  }

  function Lookup(t: Table, objs: Objects, cptr: nat): Result<CapEntry> {
    if cptr >= CAP_TABLE_SLOTS || t[cptr].None? then Failure(ErrBadCPtr)
    else if Liveness(objs, t[cptr].value) != Ok then Failure(Liveness(objs, t[cptr].value))
    else Success(t[cptr].value)
  }

  function InvokeCap(t: Table, objs: Objects, cptr: nat, required: Rights): Status {
    match Lookup(t, objs, cptr)
    case Failure(st) => st
    case Success(e) => if required <= e.rights then Ok else ErrRights
  }

  /** A new capability for an existing object, at its current epoch, in the first free slot. */
  function MintCap(t: Table, objs: Objects, oid: nat, rights: Rights, badge: U16): Result<(Table, nat)> {
    match FreeSlot(t, 0)
    case None => Failure(ErrBadCPtr)
    case Some(i) =>
      if oid >= OBJECT_TABLE_SIZE || !objs[oid].present then Failure(ErrBadCPtr)
      else Success((t[i := Some(CapEntry(oid, rights, objs[oid].epoch, objs[oid].kind, badge))], i))
  }

  function Child(e: CapEntry, mask: Rights, badge: U16): CapEntry {
    e.(rights := e.rights * mask, badge := badge)
  }

  /** A copy with a subset of the rights in the first free slot of `dst`; the source must be live and delegable. */
  function DelegateCap(src: Table, objs: Objects, cptr: nat, mask: Rights, badge: U16, dst: Table): Result<(Table, nat)> {
    if cptr >= CAP_TABLE_SLOTS || src[cptr].None? then Failure(ErrBadCPtr)
    else
      var e := src[cptr].value;
      if Delegate !in e.rights then Failure(ErrRights)
      else if Liveness(objs, e) != Ok then Failure(Liveness(objs, e))
      else match FreeSlot(dst, 0)
        case None => Failure(ErrBadCPtr)
        case Some(i) => Success((dst[i := Some(Child(e, mask, badge))], i))
  }
}
