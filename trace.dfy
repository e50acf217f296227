/**
 * The externally visible effects of the module's lifecycle, recorded in
 * the order they happen: device allocation and naming, registration in
 * the interface registry, the rtnl lock, and the installation and removal
 * of the receive handler on the parent device.
 */
module Trace {
  import opened NetTypes

  datatype Event =
    | AllocNetdev(template: string)
    | AllocName(name: string)
    | RegisterNetdev(name: string)
    | RtnlLock
    | RtnlUnlock
    | RxHandlerRegister(dev: string)
    | RxHandlerUnregister(dev: string)
    | UnregisterNetdev(name: string)
    | FreeNetdev(name: string)

  predicate IsHookChange(e: Event) {
    e.RxHandlerRegister? || e.RxHandlerUnregister?
  }

  /** If the event at `i` changes a receive handler, a lock precedes it and an unlock follows it. */
  predicate BracketedAt(t: seq<Event>, i: nat)
    requires i < |t|
  {
    IsHookChange(t[i]) ==> 0 < i < |t| - 1 && t[i - 1] == RtnlLock && t[i + 1] == RtnlUnlock
  }

  /** Every change of a receive handler sits directly between a lock and an unlock. */
  predicate LockBracketed(t: seq<Event>) {
    forall i: nat :: i < |t| ==> BracketedAt(t, i)
  }

  lemma {:induction false} LockBracketedAppend(a: seq<Event>, b: seq<Event>)
    requires LockBracketed(a) && LockBracketed(b)
    ensures LockBracketed(a + b)
  {
    var t := a + b;
    forall i: nat | i < |t|
      ensures BracketedAt(t, i)
    {
      if i < |a| {
        assert BracketedAt(a, i);
      } else {
        assert BracketedAt(b, i - |a|);
      }
    }
  }

  /** The events of a successful module load, in order. */
  function InitEvents(template: string, name: string, parent: string): (r: seq<Event>)
    ensures LockBracketed(r)
    ensures |r| > 0 && r[0] == AllocNetdev(template)
    ensures forall i, j | 0 <= i < |r| && 0 <= j < |r| ::
      r[i].RegisterNetdev? && r[j].RxHandlerRegister? ==> i < j
    ensures forall e :: e in r && e.RxHandlerRegister? ==> e == RxHandlerRegister(parent)
    ensures RxHandlerRegister(parent) in r && RegisterNetdev(name) in r
    ensures forall e :: e in r ==> !e.UnregisterNetdev? && !e.FreeNetdev? && !e.RxHandlerUnregister?
  {
    [AllocNetdev(template), AllocName(name), RegisterNetdev(name),
     RtnlLock, RxHandlerRegister(parent), RtnlUnlock]
  }

  /** The events of a failed module load after the device was allocated. */
  function InitFailedEvents(template: string): (r: seq<Event>)
    ensures LockBracketed(r)
    ensures forall e :: e in r ==> !IsHookChange(e) && !e.RegisterNetdev?
    ensures |r| > 0 && r[|r| - 1] == FreeNetdev(template)
  {
    [AllocNetdev(template), FreeNetdev(template)]
  }

  /**
   * The events of a module unload. With a parent, the receive handler is
   * removed under the lock strictly before the device is unregistered and
   * freed; without one, that step is skipped.
   */
  function ExitEvents(parent: Option<string>, name: string): (r: seq<Event>)
    ensures LockBracketed(r)
    ensures forall i, j | 0 <= i < |r| && 0 <= j < |r| ::
      r[i].RxHandlerUnregister? && (r[j].UnregisterNetdev? || r[j].FreeNetdev?) ==> i < j
    ensures forall i, j | 0 <= i < |r| && 0 <= j < |r| ::
      r[i].UnregisterNetdev? && r[j].FreeNetdev? ==> i < j
    ensures forall e :: e in r && e.RxHandlerUnregister? ==> parent == Some(e.dev)
    ensures parent.Some? ==> RxHandlerUnregister(parent.value) in r
    ensures UnregisterNetdev(name) in r && |r| > 0 && r[|r| - 1] == FreeNetdev(name)
    ensures forall e :: e in r ==> !e.RxHandlerRegister? && !e.RegisterNetdev?
  {
    (if parent.Some? then [RtnlLock, RxHandlerUnregister(parent.value), RtnlUnlock] else [])
      + [UnregisterNetdev(name), FreeNetdev(name)]
  }
}
