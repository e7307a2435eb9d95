/**
 * The DSI driver's table of attached cameras: 32 slots, each empty or
 * holding the device whose camera has the given identifier. Plug events
 * fill the lowest free slot with the first scanned identifier the table
 * does not hold yet; unplug events empty every slot whose identifier is
 * missing from the scan; shutdown empties them all. The USB scan is an
 * input: the identifiers it reports, in order.
 */
module DsiHotplug {
  import opened Bus

  const MaxDevices := 32

  /** Some slot of the table holds the identifier. */
  predicate Held(s: seq<Option<string>>, sid: string)
  {
    Some(sid) in s
  }

  /** No identifier is held by two slots. */
  predicate Distinct(s: seq<Option<string>>)
  {
    forall i, j :: 0 <= i < j < |s| && s[i].Some? ==> s[i] != s[j]
  }

  /** The slots whose device is missing from the scan. */
  ghost function Unplugged(s: seq<Option<string>>, scan: seq<string>): set<int>
  {
    set k | 0 <= k < |s| && s[k].Some? && s[k].value !in scan
  }

  class SlotTable {
    var devices: array<Option<string>>

    ghost predicate Valid()
      reads this, devices
    {
      devices.Length == MaxDevices && Distinct(devices[..])
    }

    /** The driver's start: every slot empty. */
    constructor ()
      ensures Valid() && fresh(devices)
      ensures forall k :: 0 <= k < MaxDevices ==> devices[k].None?
    {
      devices := new Option<string>[MaxDevices](_ => None);
    }

    /** The lowest empty slot, or -1 when all are occupied. */
    method FindAvailableSlot() returns (slot: int)
      requires Valid()
      ensures -1 <= slot < MaxDevices
      ensures slot == -1 <==> forall k :: 0 <= k < MaxDevices ==> devices[k].Some?
      ensures slot >= 0 ==> devices[slot].None? && forall k :: 0 <= k < slot ==> devices[k].Some?
    {
      slot := 0;
      while slot < MaxDevices
        invariant 0 <= slot <= MaxDevices
        invariant forall k :: 0 <= k < slot ==> devices[k].Some?
      {
        if devices[slot].None? {
          return;
        }
        slot := slot + 1;
      }
      slot := -1;
    }

    /** The first slot holding the identifier, or -1. */
    method FindDeviceSlot(sid: string) returns (slot: int)
      requires Valid()
      ensures -1 <= slot < MaxDevices
      ensures slot == -1 <==> !Held(devices[..], sid)
      ensures slot >= 0 ==> devices[slot] == Some(sid)
    {
      slot := 0;
      while slot < MaxDevices
        invariant 0 <= slot <= MaxDevices
        invariant !Held(devices[..slot], sid)
      {
        if devices[slot] == Some(sid) {
          return;
        }
        assert devices[..slot + 1] == devices[..slot] + [devices[slot]];
        slot := slot + 1;
      }
      assert devices[..] == devices[..slot];
      slot := -1;
    }

    /**
     * The first scanned identifier no slot holds, if any: an identifier
     * already in the table is never offered again.
     */
    method FindPluggedSid(scan: seq<string>) returns (found: Option<string>)
      requires Valid()
      ensures found.None? <==> forall i :: 0 <= i < |scan| ==> Held(devices[..], scan[i])
      ensures found.Some? ==>
                !Held(devices[..], found.value)
                && exists i :: 0 <= i < |scan| && scan[i] == found.value
                               && forall j :: 0 <= j < i ==> Held(devices[..], scan[j])
    {
      var i := 0;
      while i < |scan|
        invariant 0 <= i <= |scan|
        invariant forall j :: 0 <= j < i ==> Held(devices[..], scan[j])
      {
        var slot := FindDeviceSlot(scan[i]);
        if slot == -1 {
          return Some(scan[i]);
        }
        i := i + 1;
      }
      found := None;
    }

    /** The first occupied slot whose identifier is missing from the scan, or -1. */
    method FindUnpluggedSlot(scan: seq<string>) returns (slot: int)
      requires Valid()
      ensures -1 <= slot < MaxDevices
      ensures slot == -1 <==> Unplugged(devices[..], scan) == {}
      ensures slot >= 0 ==> slot in Unplugged(devices[..], scan)
      ensures slot >= 0 ==> forall k :: 0 <= k < slot ==> k !in Unplugged(devices[..], scan)
    {
      slot := 0;
      while slot < MaxDevices
        invariant 0 <= slot <= MaxDevices
        invariant forall k :: 0 <= k < slot ==> k !in Unplugged(devices[..], scan)
      {
        if devices[slot].Some? {
          var sid := devices[slot].value;
          var found := false;
          var i := 0;
          while i < |scan|
            invariant 0 <= i <= |scan|
            invariant found <==> sid in scan[..i]
          {
            if scan[i] == sid {
              found := true;
            }
            assert scan[..i + 1] == scan[..i] + [scan[i]];
            i := i + 1;
          }
          assert scan[..i] == scan;
          if !found {
            assert slot in Unplugged(devices[..], scan);
            return;
          }
        }
        slot := slot + 1;
      }
      slot := -1;
    }

    /**
     * A plug event. With every slot taken the event is dropped; with no
     * new identifier in the scan nothing happens; otherwise the lowest
     * free slot, and only it, takes the first new identifier.
     */
    method Plug(scan: seq<string>) returns (slot: int)
      requires Valid()
      modifies devices
      ensures Valid()
      ensures -1 <= slot < MaxDevices
      ensures slot == -1 ==> devices[..] == old(devices[..])
      ensures slot == -1 <==>
                (forall k :: 0 <= k < MaxDevices ==> old(devices[k]).Some?)
                || (forall i :: 0 <= i < |scan| ==> Held(old(devices[..]), scan[i]))
      ensures slot >= 0 ==>
                old(devices[slot]).None? && (forall k :: 0 <= k < slot ==> old(devices[k]).Some?)
                && devices[slot].Some? && !Held(old(devices[..]), devices[slot].value)
                && devices[..] == old(devices[..])[slot := devices[slot]]
                && exists i :: 0 <= i < |scan| && scan[i] == devices[slot].value
                               && forall j :: 0 <= j < i ==> Held(old(devices[..]), scan[j])
    {
      slot := FindAvailableSlot();
      if slot < 0 {
        return;
      }
      var sid := FindPluggedSid(scan);
      if sid.None? {
        slot := -1;
        return;
      }
      devices[slot] := sid;
    }

    /** An unplug event: every slot whose device is missing from the scan is emptied, the others kept. */
    method Unplug(scan: seq<string>)
      requires Valid()
      modifies devices
      ensures Valid()
      ensures forall k :: 0 <= k < MaxDevices ==>
                devices[k] == (if k in Unplugged(old(devices[..]), scan) then None else old(devices[k]))
    {
      var slot := FindUnpluggedSlot(scan);
      while slot != -1
        invariant Valid() && -1 <= slot < MaxDevices
        invariant slot == -1 <==> Unplugged(devices[..], scan) == {}
        invariant slot >= 0 ==> slot in Unplugged(devices[..], scan)
        invariant Unplugged(devices[..], scan) <= Unplugged(old(devices[..]), scan)
        invariant forall k :: 0 <= k < MaxDevices ==>
                    devices[k] == (if k in Unplugged(old(devices[..]), scan) && k !in Unplugged(devices[..], scan)
                                   then None else old(devices[k]))
        decreases |Unplugged(devices[..], scan)|
      {
        ghost var before := Unplugged(devices[..], scan);
        devices[slot] := None;
        assert Unplugged(devices[..], scan) == before - {slot};
        slot := FindUnpluggedSlot(scan);
      }
    }

    /** Shutdown: every device detached, every slot empty. */
    method RemoveAll()
      requires Valid()
      modifies devices
      ensures Valid()
      ensures forall k :: 0 <= k < MaxDevices ==> devices[k].None?
    {
      for i := 0 to MaxDevices
        invariant forall k :: 0 <= k < i ==> devices[k].None?
        invariant Distinct(devices[..])
      {
        devices[i] := None;
      }
    }
  }
}
