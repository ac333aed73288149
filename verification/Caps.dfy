/**
  Capabilities and the predicates on them that the derivation list rests on
  (kernel/src/object/objecttype.c). Architecture-specific capabilities are not part of this model.
 */
module Caps {
  import opened Words

  // Object sizes of the 64-bit RISC-V configuration; no proof depends on their values.
  const WORD_BITS := 64
  const WORD_SIZE := 0x1_0000_0000_0000_0000
  const SLOT_BITS := 5
  const ENDPOINT_BITS := 4
  const NOTIFICATION_BITS := 6
  const REPLY_BITS := 5
  const TCB_BITS := 11
  const TCB_SIZE := 2048
  const MIN_UNTYPED_BITS := 4

  datatype Rights = Rights(write: bool, read: bool, grant: bool, grantReply: bool)

  datatype Cap =
    | NullCap
    | UntypedCap(ptr: nat, blockSize: nat, freeIndex: nat, isDevice: bool)
    | EndpointCap(ptr: nat, badge: nat, rights: Rights)
    | NotificationCap(ptr: nat, badge: nat, canSend: bool, canReceive: bool)
    | ReplyCap(ptr: nat, canGrant: bool)
    | CNodeCap(ptr: nat, radix: nat, guardSize: nat, guard: nat)
    | ThreadCap(ptr: nat)
    | DomainCap
    | IrqControlCap
    | IrqHandlerCap(irq: nat)
    | ZombieCap(ptr: nat, zombieBits: nat, number: nat)
    | SchedContextCap(ptr: nat, scSizeBits: nat)
    | SchedControlCap(core: nat)

  predicate IsPhysical(cap: Cap) {
    !(cap.NullCap? || cap.DomainCap? || cap.IrqControlCap? || cap.IrqHandlerCap? || cap.SchedControlCap?)
  }

  function SizeBits(cap: Cap): nat {
    match cap
    case UntypedCap(_, blockSize, _, _) => blockSize
    case EndpointCap(_, _, _) => ENDPOINT_BITS
    case NotificationCap(_, _, _, _) => NOTIFICATION_BITS
    case ReplyCap(_, _) => REPLY_BITS
    case CNodeCap(_, radix, _, _) => radix + SLOT_BITS
    case ThreadCap(_) => TCB_BITS
    case ZombieCap(_, zombieBits, _) => zombieBits
    case SchedContextCap(_, scSizeBits) => scSizeBits
    case _ => 0
  }

  function Base(cap: Cap): nat
    requires IsPhysical(cap)
  {
    if cap.ThreadCap? then cap.ptr - cap.ptr % TCB_SIZE else cap.ptr
  }

  /** The last address of the object, as the kernel computes it: modulo the word size. */
  function Top(cap: Cap): nat
    requires IsPhysical(cap)
  {
    (Base(cap) + Pow2(SizeBits(cap)) - 1) % WORD_SIZE
  }

  predicate SameRegionAs(a: Cap, b: Cap) {
    match a
    case UntypedCap(_, _, _, _) =>
      IsPhysical(b) && Base(a) <= Base(b) && Top(b) <= Top(a) && Base(b) <= Top(b)
    case EndpointCap(ptr, _, _) => b.EndpointCap? && ptr == b.ptr
    case NotificationCap(ptr, _, _, _) => b.NotificationCap? && ptr == b.ptr
    case CNodeCap(ptr, radix, _, _) => b.CNodeCap? && ptr == b.ptr && radix == b.radix
    case ThreadCap(ptr) => b.ThreadCap? && ptr == b.ptr
    case ReplyCap(ptr, _) => b.ReplyCap? && ptr == b.ptr
    case DomainCap => b.DomainCap?
    case IrqControlCap => b.IrqControlCap? || b.IrqHandlerCap?
    case IrqHandlerCap(irq) => b.IrqHandlerCap? && irq == b.irq
    case SchedContextCap(ptr, scSizeBits) => b.SchedContextCap? && ptr == b.ptr && scSizeBits == b.scSizeBits
    case SchedControlCap(_) => b.SchedControlCap?
    case NullCap => false
    case ZombieCap(_, _, _) => false
  }

  predicate SameObjectAs(a: Cap, b: Cap) {
    if a.UntypedCap? then false
    else if a.IrqControlCap? then false
    else SameRegionAs(a, b)
  }

  predicate IsCapRevocable(derived: Cap, src: Cap) {
    match derived
    case EndpointCap(_, badge, _) => badge != Badge(src)
    case NotificationCap(_, badge, _, _) => badge != Badge(src)
    case IrqHandlerCap(_) => src.IrqControlCap?
    case UntypedCap(_, _, _, _) => true
    case _ => false
  }

  predicate IsBadged(cap: Cap) {
    cap.EndpointCap? || cap.NotificationCap?
  }

  function Badge(cap: Cap): nat {
    if cap.EndpointCap? then cap.badge else if cap.NotificationCap? then cap.badge else 0
  }

  function UpdateCapData(preserve: bool, newData: nat, newGuardSize: nat, newGuard: nat, cap: Cap): Cap {
    match cap
    case EndpointCap(ptr, badge, rights) =>
      if !preserve && badge == 0 then EndpointCap(ptr, newData, rights) else NullCap
    case NotificationCap(ptr, badge, canSend, canReceive) =>
      if !preserve && badge == 0 then NotificationCap(ptr, newData, canSend, canReceive) else NullCap
    case CNodeCap(_, radix, _, _) =>
      if newGuardSize + radix > WORD_BITS then NullCap
      else cap.(guard := newGuard % Pow2(newGuardSize), guardSize := newGuardSize)
    case _ => cap
  }

  function MaskCapRights(r: Rights, cap: Cap): Cap {
    match cap
    case EndpointCap(_, _, c) =>
      cap.(rights := Rights(c.write && r.write, c.read && r.read, c.grant && r.grant, c.grantReply && r.grantReply))
    case NotificationCap(_, _, canSend, canReceive) =>
      cap.(canSend := canSend && r.write, canReceive := canReceive && r.read)
    case ReplyCap(_, canGrant) => cap.(canGrant := canGrant && r.grant)
    case _ => cap
  }

  // ---------------------------------------------------------------- rights

  datatype Right = Write | Read | Grant | GrantReply

  /** What a mask of rights lets through. */
  function Granted(r: Rights): set<Right> {
    (if r.write then {Write} else {}) + (if r.read then {Read} else {})
    + (if r.grant then {Grant} else {}) + (if r.grantReply then {GrantReply} else {})
  }

  /** The rights that a capability carries. */
  function RightsOf(cap: Cap): set<Right> {
    match cap
    case EndpointCap(_, _, rights) => Granted(rights)
    case NotificationCap(_, _, canSend, canReceive) => Granted(Rights(canSend, canReceive, false, false))
    case ReplyCap(_, canGrant) => Granted(Rights(false, false, canGrant, false))
    case _ => {}
  }

  /** Masking leaves exactly the rights that the capability and the mask both have, and nothing else changes. */
  lemma MaskedRights(r: Rights, cap: Cap)
    ensures RightsOf(MaskCapRights(r, cap)) == RightsOf(cap) * Granted(r)
    ensures SameShape(MaskCapRights(r, cap), cap) && Badge(MaskCapRights(r, cap)) == Badge(cap)
    ensures RightsOf(cap) == {} ==> MaskCapRights(r, cap) == cap
  {
    assert forall x: Right :: x in RightsOf(MaskCapRights(r, cap)) <==> x in RightsOf(cap) * Granted(r);
    assert cap.EndpointCap? ==>
      && (Write in RightsOf(cap) <==> cap.rights.write) && (Read in RightsOf(cap) <==> cap.rights.read)
      && (Grant in RightsOf(cap) <==> cap.rights.grant) && (GrantReply in RightsOf(cap) <==> cap.rights.grantReply);
    assert cap.NotificationCap? ==>
      (Write in RightsOf(cap) <==> cap.canSend) && (Read in RightsOf(cap) <==> cap.canReceive);
    assert cap.ReplyCap? ==> (Grant in RightsOf(cap) <==> cap.canGrant);
  }

  /** A mint gives an unbadged capability the badge it is asked for, and refuses one that has a badge. */
  lemma MintedBadge(data: nat, guardSize: nat, guard: nat, cap: Cap)
    requires IsBadged(cap)
    ensures var n := UpdateCapData(false, data, guardSize, guard, cap);
      if Badge(cap) != 0 then n == NullCap
      else SameShape(n, cap) && Badge(n) == data && RightsOf(n) == RightsOf(cap)
  {
  }

  /** A node's capability gets the guard that it is asked for, unless that resolves more bits than a word has. */
  lemma UpdatedGuard(preserve: bool, data: nat, guardSize: nat, guard: nat, cap: Cap)
    requires cap.CNodeCap? && guard < Pow2(guardSize)
    ensures var n := UpdateCapData(preserve, data, guardSize, guard, cap);
      if guardSize + cap.radix > WORD_BITS then n == NullCap
      else SameShape(n, cap) && n.guardSize == guardSize && n.guard == guard
  {
    LowSmall(guard, guardSize);
  }

  // ---------------------------------------------------------------- regions

  /** `n` names the same object as `cap`, with the same badge unless `cap` had none yet. */
  ghost predicate CopyOf(n: Cap, cap: Cap) {
    && SameShape(n, cap)
    && (Badge(n) == Badge(cap) || Badge(cap) == 0)
  }

  ghost predicate SameShape(n: Cap, cap: Cap) {
    match cap
    case UntypedCap(ptr, blockSize, _, _) => n.UntypedCap? && n.ptr == ptr && n.blockSize == blockSize
    case EndpointCap(ptr, _, _) => n.EndpointCap? && n.ptr == ptr
    case NotificationCap(ptr, _, _, _) => n.NotificationCap? && n.ptr == ptr
    case ReplyCap(ptr, _) => n.ReplyCap? && n.ptr == ptr
    case CNodeCap(ptr, radix, _, _) => n.CNodeCap? && n.ptr == ptr && n.radix == radix
    case _ => n == cap
  }

  lemma MaskAndUpdateCopy(preserve: bool, data: nat, guardSize: nat, guard: nat, r: Rights, cap: Cap)
    ensures CopyOf(MaskCapRights(r, cap), cap)
    ensures var n := UpdateCapData(preserve, data, guardSize, guard, MaskCapRights(r, cap));
      n == NullCap || CopyOf(n, cap)
    ensures var n := UpdateCapData(true, data, guardSize, guard, cap);
      n == NullCap || (CopyOf(n, cap) && Badge(n) == Badge(cap))
  {
  }

  /** Objects of the same shape cannot be told apart by the region test. */
  lemma SameShapeSameRegion(n: Cap, cap: Cap, other: Cap)
    requires SameShape(n, cap)
    ensures SameRegionAs(n, other) == SameRegionAs(cap, other)
    ensures SameRegionAs(other, n) == SameRegionAs(other, cap)
  {
    SameShapeSamePlace(n, cap);
    SameShapeAsParent(n, cap, other);
    SameShapeAsChild(n, cap, other);
  }

  lemma SameShapeAsParent(n: Cap, cap: Cap, other: Cap)
    requires SameShape(n, cap)
    ensures SameRegionAs(n, other) == SameRegionAs(cap, other)
  {
    if n.UntypedCap? {
      SameShapeSamePlace(n, cap);
    }
  }

  lemma SameShapeAsChild(n: Cap, cap: Cap, other: Cap)
    requires SameShape(n, cap)
    ensures SameRegionAs(other, n) == SameRegionAs(other, cap)
  {
    if other.UntypedCap? {
      SameShapeSamePlace(n, cap);
    }
  }

  lemma SameShapeSamePlace(n: Cap, cap: Cap)
    requires SameShape(n, cap)
    ensures IsPhysical(n) == IsPhysical(cap)
    ensures IsPhysical(cap) ==> Base(n) == Base(cap) && Top(n) == Top(cap)
  {
  }

  /**
    The region test of a capability to an object of its own asks whether the other names the same
    object; nothing lies in the region of a null or zombie capability; the control capabilities hold
    every capability of their kind.
   */
  lemma SameRegionIff(a: Cap, b: Cap)
    ensures a.NullCap? || a.ZombieCap? ==> !SameRegionAs(a, b)
    ensures a.IrqControlCap? ==> (SameRegionAs(a, b) <==> b.IrqControlCap? || b.IrqHandlerCap?)
    ensures a.SchedControlCap? ==> (SameRegionAs(a, b) <==> b.SchedControlCap?)
    ensures !(a.NullCap? || a.ZombieCap? || a.UntypedCap? || a.IrqControlCap? || a.SchedControlCap?) ==>
      (SameRegionAs(a, b) <==> SameShape(b, a))
  {
  }

  /** An untyped capability's region test is containment of addresses. */
  lemma UntypedHolds(a: Cap, b: Cap)
    requires a.UntypedCap? && Placed(a) && IsPhysical(b) && Placed(b)
    ensures SameRegionAs(a, b) <==> forall x: nat :: InObject(b, x) ==> InObject(a, x)
  {
    assert InObject(b, Base(b)) && InObject(b, Top(b));
  }

  predicate InObject(cap: Cap, x: nat)
    requires IsPhysical(cap)
  {
    Base(cap) <= x <= Top(cap)
  }

  lemma SameRegionTrans(a: Cap, b: Cap, c: Cap)
    requires SameRegionAs(a, b) && SameRegionAs(b, c)
    ensures SameRegionAs(a, c)
  {
  }

  lemma SameObjectSymmetric(a: Cap, b: Cap)
    requires SameObjectAs(a, b)
    ensures SameObjectAs(b, a)
  {
  }

  /** The object lies in memory without wrapping round its end. */
  ghost predicate Placed(cap: Cap) {
    IsPhysical(cap) ==> Base(cap) <= Top(cap)
  }

  lemma SameRegionReflexive(cap: Cap)
    requires Placed(cap) && !cap.NullCap? && !cap.ZombieCap?
    ensures SameRegionAs(cap, cap)
  {
  }
}
