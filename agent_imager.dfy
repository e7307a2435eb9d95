/**
 * The imager agent: a device and a client at once. As a client it
 * watches every device on the bus, keeps a cache of the properties they
 * define and lists the cameras among them in its own one-of-many switch
 * (item 0 is "None"; cameras follow from item 1, up to 32 items in all).
 * As a device it offers that list, where selecting a camera connects to
 * it, and the batch settings with their start and abort switches.
 * Properties are identified by their device and name.
 */
module ImagerAgent {
  import opened Bus

  /** The capacity of the device list, the "None" item included. */
  const MaxDevices := 32
  /** The capacity of the property cache. */
  const MaxCachedProperties := 512

  /** The names of the well-known properties the agent reacts to. */
  const InfoName := "INFO"
  const ConnectionName := "CONNECTION"

  /** An item of the device list: a device name and whether it is selected. */
  datatype Item = Item(name: string, selected: bool)

  /** A property some device defines, known by its device and name. */
  datatype Property = Property(device: string, name: string)

  // ---------------------------------------------------------------- the device list as a value

  /** The device is listed at index 1 or later: the "None" item is never matched. */
  predicate Listed(list: seq<Item>, name: string)
  {
    exists i :: 1 <= i < |list| && list[i].name == name
  }

  /** No device is listed twice. */
  predicate DistinctNames(list: seq<Item>)
  {
    forall i, j :: 1 <= i < j < |list| ==> list[i].name != list[j].name
  }

  /** The first index from `from` on whose device has the name. */
  function FindFrom(list: seq<Item>, name: string, from: nat): (r: Option<nat>)
    decreases |list| - from
    ensures r.None? <==> forall i :: from <= i < |list| ==> list[i].name != name
    ensures r.Some? ==> from <= r.value < |list| && list[r.value].name == name
                        && forall i :: from <= i < r.value ==> list[i].name != name
  {
    if from >= |list| then None
    else if list[from].name == name then Some(from)
    else FindFrom(list, name, from + 1)
  }

  /** The first selected index from `from` on. */
  function FirstSelectedFrom(list: seq<Item>, from: nat): (r: Option<nat>)
    decreases |list| - from
    ensures r.None? <==> forall i :: from <= i < |list| ==> !list[i].selected
    ensures r.Some? ==> from <= r.value < |list| && list[r.value].selected
                        && forall i :: from <= i < r.value ==> !list[i].selected
  {
    if from >= |list| then None
    else if list[from].selected then Some(from)
    else FirstSelectedFrom(list, from + 1)
  }

  /** The device the list selects: the first selected item after "None". */
  function SelectedDevice(list: seq<Item>): (d: Option<string>)
    ensures d.None? <==> forall i :: 1 <= i < |list| ==> !list[i].selected
    ensures d.Some? ==> exists i :: 1 <= i < |list| && list[i].selected && list[i].name == d.value
  {
    match FirstSelectedFrom(list, 1)
    case None => None
    case Some(i) => Some(list[i].name)
  }

  /**
   * The list after a camera is discovered: a device already listed is not
   * listed again; a new one is appended, unselected, while there is room.
   */
  function Added(list: seq<Item>, name: string): (r: seq<Item>)
    ensures |list| <= |r| <= |list| + 1
    ensures r[..|list|] == list
    ensures |list| <= MaxDevices ==> |r| <= MaxDevices
    ensures Listed(r, name) <==> Listed(list, name) || (1 <= |list| < MaxDevices)
    ensures |r| == |list| + 1 ==> r[|list|] == Item(name, false)
    ensures |r| == |list| + 1 <==> 1 <= |list| < MaxDevices && !Listed(list, name)
  {
    if Listed(list, name) || |list| >= MaxDevices || |list| == 0 then list
    else
      assert (list + [Item(name, false)])[|list|].name == name;
      list + [Item(name, false)]
  }

  /**
   * The list after a device is gone: its first entry after "None" is
   * removed and the later ones move down one place, keeping their order.
   */
  function Removed(list: seq<Item>, name: string): (r: seq<Item>)
    ensures !Listed(list, name) ==> r == list
    ensures Listed(list, name) ==> |r| == |list| - 1
    ensures Listed(list, name) ==>
              var i := FindFrom(list, name, 1).value;
              (forall k :: 0 <= k < i ==> r[k] == list[k]) && (forall k :: i <= k < |r| ==> r[k] == list[k + 1])
  {
    match FindFrom(list, name, 1)
    case None => list
    case Some(i) => list[..i] + list[i + 1..]
  }

  /** Adding keeps the list free of duplicates. */
  lemma AddedDistinct(list: seq<Item>, name: string)
    requires DistinctNames(list)
    ensures DistinctNames(Added(list, name))
  {
  }

  /** Removing keeps the list free of duplicates, and the device is then no longer listed while every other one stays. */
  lemma RemovedDistinct(list: seq<Item>, name: string)
    requires DistinctNames(list)
    ensures DistinctNames(Removed(list, name))
    ensures !Listed(Removed(list, name), name)
    ensures forall n :: n != name ==> (Listed(Removed(list, name), n) <==> Listed(list, n))
  {
    var r := Removed(list, name);
    match FindFrom(list, name, 1)
    case None =>
    case Some(i) =>
      forall n | n != name
        ensures Listed(r, n) <==> Listed(list, n)
      {
        if Listed(list, n) {
          var j :| 1 <= j < |list| && list[j].name == n;
          if j < i {
            assert r[j].name == n;
          } else {
            assert j > i && r[j - 1].name == n;
          }
        }
        if Listed(r, n) {
          var j :| 1 <= j < |r| && r[j].name == n;
          if j < i {
            assert list[j].name == n;
          } else {
            assert list[j + 1].name == n;
          }
        }
      }
  }

  /** Adding a new device and then removing it gives back the list. */
  lemma AddedThenRemoved(list: seq<Item>, name: string)
    requires 1 <= |list| < MaxDevices && !Listed(list, name)
    ensures Removed(Added(list, name), name) == list
  {
    var a := Added(list, name);
    assert a == list + [Item(name, false)];
    assert FindFrom(a, name, 1) == Some(|list|);
  }

  /** Discovering a device twice lists it once. */
  lemma AddedIdempotent(list: seq<Item>, name: string)
    ensures Added(Added(list, name), name) == Added(list, name)
  {
  }

  /** Selecting exactly one camera connects that camera. */
  lemma SelectOneConnects(list: seq<Item>, j: nat)
    requires 1 <= j < |list|
    ensures SelectedDevice(seq(|list|, i requires 0 <= i < |list| => Item(list[i].name, i == j))) == Some(list[j].name)
  {
    var s := seq(|list|, i requires 0 <= i < |list| => Item(list[i].name, i == j));
    assert s[j].selected;
    assert FirstSelectedFrom(s, 1) == Some(j);
  }

  // ---------------------------------------------------------------- the connection handshake

  /** The list's new state after a connection report from the selected device, and whether its properties are then requested. */
  datatype Outcome = Outcome(state: State, enumerate: bool)

  /**
   * While a connection is pending (Busy), an alert from the device fails
   * it and a report of "connected" with Ok completes it, asking for the
   * device's properties; once connected (Ok), a report of "disconnected"
   * is an alert. Any other report changes nothing.
   */
  function ConnectOutcome(list: State, remote: State, connected: bool): (o: Outcome)
    ensures o.enumerate <==> list == Busy && remote == Ok && connected
    ensures list == Busy && remote == Alert ==> o.state == Alert
    ensures list == Busy && remote == Ok && connected ==> o.state == Ok
    ensures list == Ok && !connected ==> o.state == Alert
    ensures o.state != list <==>
              (list == Busy && (remote == Alert || (remote == Ok && connected))) || (list == Ok && !connected)
  {
    if list == Busy then
      if remote == Alert then Outcome(Alert, false)
      else if connected && remote == Ok then Outcome(Ok, true)
      else Outcome(list, false)
    else if list == Ok && !connected then Outcome(Alert, false)
    else Outcome(list, false)
  }

  /** A selection followed by the device's "connected" report ends in Ok, and a later "disconnected" report in Alert. */
  lemma HandshakeCompletes()
    ensures ConnectOutcome(Busy, Ok, true) == Outcome(Ok, true)
    ensures ConnectOutcome(ConnectOutcome(Busy, Ok, true).state, Ok, false).state == Alert
  {
  }

  // ---------------------------------------------------------------- enumeration

  /** The agent's own properties, in the order it defines them. */
  datatype AgentProperty = DeviceList | BatchSettings | StartProcess | AbortProcess

  /**
   * The properties an enumerate request defines: none for the agent's
   * own client, otherwise those the request matches, in order.
   */
  function Enumerate(fromOwnClient: bool, matches: set<AgentProperty>): (r: seq<AgentProperty>)
    ensures fromOwnClient ==> r == []
    ensures !fromOwnClient ==>
              (DeviceList in r <==> DeviceList in matches) && (BatchSettings in r <==> BatchSettings in matches)
              && (StartProcess in r <==> StartProcess in matches) && (AbortProcess in r <==> AbortProcess in matches)
    ensures forall i, j :: 0 <= i < j < |r| ==> r[i] != r[j]
  {
    if fromOwnClient then []
    else
      var a := if DeviceList in matches then [DeviceList] else [];
      var b := if BatchSettings in matches then [BatchSettings] else [];
      var c := if StartProcess in matches then [StartProcess] else [];
      var d := if AbortProcess in matches then [AbortProcess] else [];
      a + b + c + d
  }

  // ---------------------------------------------------------------- the agent

  /** No property is cached twice. */
  predicate CacheDistinct(c: seq<Option<Property>>)
  {
    forall i, j :: 0 <= i < j < |c| && c[i].Some? ==> c[i] != c[j]
  }

  /** A request to the agent's device. */
  datatype Request =
    | SelectRequest(after: seq<bool>)
    | BatchRequest(count: int, delay: int)
    | StartRequest
    | AbortRequest
    | OtherRequest

  /** Whether strcpy returned a null pointer: never, as it returns its destination. */
  predicate StrcpyReturnedNull()
  {
    false
  }

  class Agent {
    /** The device list: items[..count] are in use. */
    var items: array<Item>
    var count: int
    var listState: State
    /** The property cache; an empty slot is None. */
    var cache: array<Option<Property>>
    var batchCount: int
    var batchDelay: int
    var batchState: State
    var startItem: bool
    var startState: State
    var abortItem: bool
    var abortState: State

    ghost predicate Valid()
      reads this, items, cache
    {
      items.Length == MaxDevices && 1 <= count <= MaxDevices
      && DistinctNames(items[..count])
      && cache.Length == MaxCachedProperties && CacheDistinct(cache[..])
    }

    ghost function List(): seq<Item>
      reads this, items
      requires 0 <= count <= items.Length
    {
      items[..count]
    }

    /**
     * The agent's device attaching: the list holds the "None" item,
     * selected; the batch is one frame without delay; the switches are
     * off; every property is Ok. The cache starts empty.
     */
    constructor (noneName: string)
      ensures Valid() && fresh(items) && fresh(cache)
      ensures List() == [Item(noneName, true)] && listState == Ok
      ensures forall k :: 0 <= k < MaxCachedProperties ==> cache[k].None?
      ensures batchCount == 1 && batchDelay == 0 && batchState == Ok
      ensures !startItem && startState == Ok && !abortItem && abortState == Ok
    {
      items := new Item[MaxDevices](_ => Item(noneName, true));
      count := 1;
      listState := Ok;
      cache := new Option<Property>[MaxCachedProperties](_ => None);
      batchCount := 1;
      batchDelay := 0;
      batchState := Ok;
      startItem := false;
      startState := Ok;
      abortItem := false;
      abortState := Ok;
    }

    /** The index of the device in the list from item 1 on, or -1. */
    method FindDevice(name: string) returns (i: int)
      requires Valid()
      ensures i == (match FindFrom(List(), name, 1) case Some(k) => k as int case None => -1)
      ensures i == -1 || 1 <= i < count
    {
      i := 1;
      while i < count
        invariant 1 <= i <= count
        invariant FindFrom(List(), name, 1) == FindFrom(List(), name, i)
      {
        if items[i].name == name {
          return;
        }
        i := i + 1;
      }
      i := -1;
    }

    /** The index of the first selected item from item 1 on, or -1. */
    method FindSelected() returns (i: int)
      requires Valid()
      ensures i == (match FirstSelectedFrom(List(), 1) case Some(k) => k as int case None => -1)
      ensures i == -1 || 1 <= i < count
    {
      i := 1;
      while i < count
        invariant 1 <= i <= count
        invariant FirstSelectedFrom(List(), 1) == FirstSelectedFrom(List(), i)
      {
        if items[i].selected {
          return;
        }
        i := i + 1;
      }
      i := -1;
    }

    /** A camera discovered: appended unless listed or the list is full. */
    method AddDevice(name: string)
      requires Valid()
      modifies items, this`count
      ensures Valid()
      ensures List() == Added(old(List()), name)
    {
      var i := FindDevice(name);
      if i >= 0 || count >= MaxDevices {
        return;
      }
      items[count] := Item(name, false);
      count := count + 1;
      assert List() == old(List()) + [Item(name, false)];
      AddedDistinct(old(List()), name);
    }

    /** Items after i move down one place; those before i stay. */
    method ShiftDown(i: int)
      requires 1 <= i < count <= items.Length
      modifies items
      ensures forall m :: 0 <= m < i ==> items[m] == old(items[m])
      ensures forall m :: i <= m < count - 1 ==> items[m] == old(items[m + 1])
    {
      var k := i;
      while k < count - 1
        invariant i <= k <= count - 1
        invariant forall m :: 0 <= m < i ==> items[m] == old(items[m])
        invariant forall m :: i <= m < k ==> items[m] == old(items[m + 1])
        invariant forall m :: k < m < count ==> items[m] == old(items[m])
      {
        items[k] := items[k + 1];
        k := k + 1;
      }
    }

    /** A device gone: its entry removed and the later ones shifted down. */
    method DeleteDevice(name: string)
      requires Valid()
      modifies items, this`count
      ensures Valid()
      ensures List() == Removed(old(List()), name)
    {
      var i := FindDevice(name);
      if i < 0 {
        return;
      }
      ghost var l := List();
      ShiftDown(i);
      count := count - 1;
      assert List() == l[..i] + l[i + 1..];
      RemovedDistinct(l, name);
    }

    /**
     * A selection request. The device selected so far (after "None") is
     * deselected and asked to disconnect; the list then takes the
     * requested values; a selected device is asked to connect and the list
     * goes Busy, and with none the list is Ok.
     */
    method SelectDevice(after: seq<bool>) returns (disconnect: Option<string>, connect: Option<string>)
      requires Valid() && |after| == count
      modifies items, this`listState
      ensures Valid()
      ensures disconnect == SelectedDevice(old(List()))
      ensures forall k :: 0 <= k < count ==> items[k] == Item(old(items[k].name), after[k])
      ensures connect == SelectedDevice(List())
      ensures listState == (if connect.Some? then Busy else Ok)
    {
      var d := FindSelected();
      if d >= 1 {
        disconnect := Some(items[d].name);
        items[d] := items[d].(selected := false);
      } else {
        disconnect := None;
      }
      ApplySelection(after);
      var c := FindSelected();
      if c >= 1 {
        connect := Some(items[c].name);
        listState := Busy;
      } else {
        connect := None;
        listState := Ok;
      }
    }

    /** The list takes the requested selection; the names stay. */
    method ApplySelection(after: seq<bool>)
      requires Valid() && |after| == count
      modifies items
      ensures Valid()
      ensures forall k :: 0 <= k < count ==> items[k] == Item(old(items[k].name), after[k])
    {
      ghost var l := List();
      for i := 0 to count
        invariant forall k :: 0 <= k < i ==> items[k] == Item(l[k].name, after[k])
        invariant forall k :: i <= k < count ==> items[k] == l[k]
      {
        items[i] := Item(items[i].name, after[i]);
      }
      assert forall k :: 0 <= k < count ==> List()[k].name == l[k].name;
    }

    /** The device is a selected item of the list after "None": the one whose connection the list follows. */
    ghost predicate Tracks(device: string)
      reads this`count, this`items, items
    {
      exists i :: 1 <= i < count && i < items.Length && items[i].name == device && items[i].selected
    }

    /** Whether the device is a selected item of the list (after "None"). */
    method IsSelectedDevice(device: string) returns (found: bool)
      requires Valid()
      ensures found <==> Tracks(device)
    {
      found := false;
      var i := 1;
      while i < count
        invariant 1 <= i <= count
        invariant !exists k :: 1 <= k < i && items[k].name == device && items[k].selected
      {
        if items[i].name == device && items[i].selected {
          return true;
        }
        i := i + 1;
      }
    }

    /** A connection report from a device: only the selected device moves the list's state. */
    method ConnectDevice(device: string, remote: State, connected: bool) returns (enumerate: bool)
      requires Valid()
      modifies this`listState
      ensures Tracks(device) ==> listState == ConnectOutcome(old(listState), remote, connected).state
                                 && enumerate == ConnectOutcome(old(listState), remote, connected).enumerate
      ensures !Tracks(device) ==> listState == old(listState) && !enumerate
    {
      var found := IsSelectedDevice(device);
      var o := ConnectOutcome(listState, remote, connected);
      if found {
        listState := o.state;
        enumerate := o.enumerate;
      } else {
        enumerate := false;
      }
    }

    // ---------------------------------------------------------------- the cache

    /** The slot caching the property, or -1. */
    method CacheFind(p: Property) returns (slot: int)
      requires Valid()
      ensures -1 <= slot < MaxCachedProperties
      ensures slot == -1 <==> Some(p) !in cache[..]
      ensures slot >= 0 ==> cache[slot] == Some(p)
    {
      for i := 0 to MaxCachedProperties
        invariant forall k :: 0 <= k < i ==> cache[k] != Some(p)
      {
        if cache[i] == Some(p) {
          return i;
        }
      }
      slot := -1;
    }

    /** The first empty slot of the cache, or -1. */
    method CacheFree() returns (slot: int)
      requires Valid()
      ensures -1 <= slot < MaxCachedProperties
      ensures slot == -1 <==> forall k :: 0 <= k < MaxCachedProperties ==> cache[k].Some?
      ensures slot >= 0 ==> cache[slot].None? && forall k :: 0 <= k < slot ==> cache[k].Some?
    {
      for i := 0 to MaxCachedProperties
        invariant forall k :: 0 <= k < i ==> cache[k].Some?
      {
        if cache[i].None? {
          return i;
        }
      }
      slot := -1;
    }

    /** A property defined: cached in the first empty slot unless cached already; dropped when the cache is full. */
    method CacheDefine(p: Property)
      requires Valid()
      modifies cache
      ensures Valid()
      ensures Some(p) in old(cache[..]) ==> cache[..] == old(cache[..])
      ensures Some(p) !in old(cache[..]) ==>
                ((forall k :: 0 <= k < MaxCachedProperties ==> old(cache[k]).Some?) && cache[..] == old(cache[..]))
                || (exists f :: 0 <= f < MaxCachedProperties && old(cache[f]).None?
                                && (forall k :: 0 <= k < f ==> old(cache[k]).Some?)
                                && cache[..] == old(cache[..])[f := Some(p)])
      ensures Some(p) in cache[..] || forall k :: 0 <= k < MaxCachedProperties ==> cache[k].Some?
    {
      var slot := CacheFind(p);
      if slot >= 0 {
        return;
      }
      var free := CacheFree();
      if free >= 0 {
        cache[free] := Some(p);
      }
    }

    /** A property deleted: its slot emptied, so it is no longer cached; every other slot is kept. */
    method CacheDelete(p: Property)
      requires Valid()
      modifies cache
      ensures Valid()
      ensures Some(p) !in cache[..]
      ensures forall k :: 0 <= k < MaxCachedProperties && old(cache[k]) != Some(p) ==> cache[k] == old(cache[k])
    {
      var slot := CacheFind(p);
      if slot >= 0 {
        cache[slot] := None;
      }
    }

    /** The agent's client attaching: every slot emptied. */
    method ClearCache()
      requires Valid()
      modifies cache
      ensures Valid()
      ensures forall k :: 0 <= k < MaxCachedProperties ==> cache[k].None?
    {
      for i := 0 to MaxCachedProperties
        invariant forall k :: 0 <= k < i ==> cache[k].None?
      {
        cache[i] := None;
      }
    }

    /** The cached property of the device with the name, if any. */
    method CacheLookup(device: string, name: string) returns (r: Option<Property>)
      requires Valid()
      ensures r.None? <==> Some(Property(device, name)) !in cache[..]
      ensures r.Some? ==> r.value == Property(device, name)
    {
      var slot := CacheFind(Property(device, name));
      r := if slot >= 0 then Some(Property(device, name)) else None;
    }

    /**
     * The cached property of that name belonging to a selected device of
     * the list, if any: the "None" item is looked at too, as the source's
     * scan starts at item 0.
     */
    method GetProperty(name: string) returns (r: Option<Property>)
      requires Valid()
      ensures r.None? <==>
                forall i :: 0 <= i < count && items[i].selected ==> Some(Property(items[i].name, name)) !in cache[..]
      ensures r.Some? ==>
                r.value.name == name && Some(r.value) in cache[..]
                && exists i :: 0 <= i < count && items[i].selected && items[i].name == r.value.device
    {
      for i := 0 to count
        invariant forall k :: 0 <= k < i && items[k].selected ==> Some(Property(items[k].name, name)) !in cache[..]
      {
        if items[i].selected {
          var found := CacheLookup(items[i].name, name);
          if found.Some? {
            return found;
          }
        }
      }
      r := None;
    }

    /**
     * The lookup as written: each name test calls strcpy where a
     * comparison is meant, and strcpy returns its destination, never a
     * null pointer, so no cached property passes and the lookup always
     * comes back empty. Since the first negated strcpy is false, `&&`
     * stops there: only the device name is copied, overwriting the device
     * of every cached property with each selected item's name in turn.
     * That overwrite is not modelled; the cache is left as it was.
     */
    method GetPropertyAsWritten(name: string) returns (r: Option<Property>)
      requires Valid()
      ensures r.None?
    {
      r := None;
      for i := 0 to count
        invariant r.None?
      {
        if items[i].selected {
          for j := 0 to MaxCachedProperties
            invariant r.None?
          {
            var slot := cache[j];
            if slot.Some? && StrcpyReturnedNull() && StrcpyReturnedNull() {
              r := slot;
            }
          }
        }
      }
    }

    /** With a selected device's property cached, the written lookup misses it and the intended one finds it. */
    method GetPropertyMisses(name: string) returns (asWritten: Option<Property>, intended: Option<Property>)
      requires Valid()
      requires exists i :: 0 <= i < count && items[i].selected && Some(Property(items[i].name, name)) in cache[..]
      ensures asWritten.None? && intended.Some? && intended.value.name == name
    {
      asWritten := GetPropertyAsWritten(name);
      intended := GetProperty(name);
    }

    // ---------------------------------------------------------------- notifications and requests

    /**
     * A define notification: ignored when it comes from the agent's own
     * device; otherwise the property is cached, and a device whose info
     * property declares the camera interface is listed.
     */
    method DefineProperty(fromAgent: bool, p: Property, ccdInterface: bool)
      requires Valid()
      modifies items, this`count, cache
      ensures Valid()
      ensures fromAgent ==> List() == old(List()) && cache[..] == old(cache[..])
      ensures !fromAgent ==> Some(p) in cache[..] || forall k :: 0 <= k < MaxCachedProperties ==> cache[k].Some?
      ensures !fromAgent && Some(p) in old(cache[..]) ==> cache[..] == old(cache[..])
      ensures !fromAgent && Some(p) !in old(cache[..]) ==>
                ((forall k :: 0 <= k < MaxCachedProperties ==> old(cache[k]).Some?) && cache[..] == old(cache[..]))
                || (exists f :: 0 <= f < MaxCachedProperties && old(cache[f]).None?
                                && (forall k :: 0 <= k < f ==> old(cache[k]).Some?)
                                && cache[..] == old(cache[..])[f := Some(p)])
      ensures !fromAgent && p.name == InfoName && ccdInterface ==> List() == Added(old(List()), p.device)
      ensures !(!fromAgent && p.name == InfoName && ccdInterface) ==> List() == old(List())
    {
      if fromAgent {
        return;
      }
      CacheDefine(p);
      if p.name == InfoName && ccdInterface {
        AddDevice(p.device);
      }
    }

    /**
     * A delete notification: ignored when it comes from the agent's own
     * device; a deleted info property, or the whole device, takes the
     * device off the list; the property leaves the cache.
     */
    method DeleteProperty(fromAgent: bool, p: Property)
      requires Valid()
      modifies items, this`count, cache
      ensures Valid()
      ensures fromAgent ==> List() == old(List()) && cache[..] == old(cache[..])
      ensures !fromAgent ==> Some(p) !in cache[..]
      ensures !fromAgent ==>
                forall k :: 0 <= k < MaxCachedProperties && old(cache[k]) != Some(p) ==> cache[k] == old(cache[k])
      ensures !fromAgent && (p.name == "" || p.name == InfoName) ==> List() == Removed(old(List()), p.device)
      ensures !(!fromAgent && (p.name == "" || p.name == InfoName)) ==> List() == old(List())
    {
      if fromAgent {
        return;
      }
      if p.name == "" || p.name == InfoName {
        DeleteDevice(p.device);
      }
      CacheDelete(p);
    }

    /**
     * An update notification: a connection report that is not Busy, from
     * a device other than the agent's own, goes to the handshake.
     */
    method UpdateProperty(fromAgent: bool, p: Property, remote: State, connected: bool) returns (enumerate: bool)
      requires Valid()
      modifies this`listState
      ensures !fromAgent && p.name == ConnectionName && remote != Busy ==>
                (Tracks(p.device) ==> listState == ConnectOutcome(old(listState), remote, connected).state
                                      && enumerate == ConnectOutcome(old(listState), remote, connected).enumerate)
                && (!Tracks(p.device) ==> listState == old(listState) && !enumerate)
      ensures !(!fromAgent && p.name == ConnectionName && remote != Busy) ==> listState == old(listState) && !enumerate
    {
      enumerate := false;
      if !fromAgent && p.name == ConnectionName && remote != Busy {
        enumerate := ConnectDevice(p.device, remote, connected);
      }
    }

    /**
     * A change request to the agent's device: ignored from the agent's
     * own client. The list selects; the batch settings are taken and Ok;
     * start and abort are switched back off and Ok.
     */
    method ChangeProperty(fromOwnClient: bool, request: Request) returns (disconnect: Option<string>, connect: Option<string>)
      requires Valid() && (request.SelectRequest? ==> |request.after| == count)
      modifies items, this`listState, this`batchCount, this`batchDelay, this`batchState
      modifies this`startItem, this`startState, this`abortItem, this`abortState
      ensures Valid()
      ensures fromOwnClient || !request.SelectRequest? ==> List() == old(List()) && listState == old(listState)
      ensures !fromOwnClient && request.SelectRequest? ==>
                disconnect == SelectedDevice(old(List())) && connect == SelectedDevice(List())
                && (forall k :: 0 <= k < count ==> items[k] == Item(old(items[k].name), request.after[k]))
                && listState == (if connect.Some? then Busy else Ok)
      ensures !fromOwnClient && request.BatchRequest? ==>
                batchCount == request.count && batchDelay == request.delay && batchState == Ok
      ensures !fromOwnClient && request.StartRequest? ==> !startItem && startState == Ok
      ensures !fromOwnClient && request.AbortRequest? ==> !abortItem && abortState == Ok
      ensures fromOwnClient || !request.BatchRequest? ==>
                batchCount == old(batchCount) && batchDelay == old(batchDelay) && batchState == old(batchState)
      ensures fromOwnClient || !request.StartRequest? ==> startItem == old(startItem) && startState == old(startState)
      ensures fromOwnClient || !request.AbortRequest? ==> abortItem == old(abortItem) && abortState == old(abortState)
      ensures !(!fromOwnClient && request.SelectRequest?) ==> disconnect.None? && connect.None?
    {
      disconnect, connect := None, None;
      if fromOwnClient {
        return;
      }
      match request
      case SelectRequest(after) =>
        disconnect, connect := SelectDevice(after);
      case BatchRequest(n, delay) =>
        batchCount, batchDelay, batchState := n, delay, Ok;
      case StartRequest =>
        startItem, startState := false, Ok;
      case AbortRequest =>
        abortItem, abortState := false, Ok;
      case OtherRequest =>
    }
  }
}
