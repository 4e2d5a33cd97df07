/**
 The list of device items and the main thread's sequential use of it: adding and finding
 items, starting their threads, and the cleanup that stops them, which runs twice. Joining
 is one step here; that it returns is the subject of the life cycle's termination.
 */
module DeviceList {

  datatype Settings = Settings(name: string, parameter: string, path: string, flags: bv32, guid: seq<bv8>,
                               level: bv8, translation: bv32)

  class DeviceItem {
    const settings: Settings
    var enabled: bool
    var quit: bool
    var started: bool
    // How often a thread was created and joined, and the enabled item told to stop.
    ghost var creates: nat
    ghost var joins: nat
    ghost var stops: nat

    constructor (settings: Settings)
      ensures this.settings == settings && !enabled && !quit && !started
      ensures creates == 0 && joins == 0 && stops == 0
    {
      this.settings := settings;
      enabled, quit, started := false, false, false;
      creates, joins, stops := 0, 0, 0;
    }

    /** A thread is on record exactly while it has been created and not joined. */
    ghost predicate Valid()
      reads this
    {
      creates == joins + (if started then 1 else 0)
    }

    method StartDriver(created: bool) returns (ok: bool)
      modifies this`started, this`creates
      ensures ok == (enabled ==> created)
      ensures started == (old(started) || (enabled && created))
      ensures creates == old(creates) + (if enabled && created then 1 else 0)
      ensures old(Valid() && !started) ==> Valid()
    {
      if !enabled { return true; }
      if !created { return false; }
      creates := creates + 1;
      started := true;
      ok := true;
    }

    method StopDriver() returns (ok: bool)
      requires Valid()
      modifies this`quit, this`started, this`joins, this`stops
      ensures Valid() && ok
      ensures quit == (enabled || old(quit)) && started == (!enabled && old(started))
      ensures stops == old(stops) + (if enabled then 1 else 0)
    {
      if enabled {
        stops := stops + 1;
        quit := true;
        if started {
          joins := joins + 1;
          started := false;
        }
      }
      ok := true;
    }
  }

  class Devices {
    var items: seq<DeviceItem>

    constructor ()
      ensures items == []
    {
      items := [];
    }

    /** Each item is on the list once, its thread account is in order, and only enabled
        items have threads. */
    ghost predicate Valid()
      reads this, items
    {
      && (forall i :: 0 <= i < |items| ==> items[i].Valid() && (items[i].started ==> items[i].enabled))
      && forall i, j :: 0 <= i < j < |items| ==> items[i] != items[j]
    }

    /** `fileExists` tells of a path whether there is a file. */
    method AddItem(settings: Settings, fileExists: string -> bool) returns (ok: bool)
      requires Valid()
      modifies this
      ensures Valid() && ok == fileExists(settings.path)
      ensures if fileExists(settings.path)
              then |items| == |old(items)| + 1 && items[..|old(items)|] == old(items)
                   && fresh(items[|old(items)|]) && items[|old(items)|].settings == settings
                   && items[|old(items)|].enabled && !items[|old(items)|].quit && !items[|old(items)|].started
                   && items[|old(items)|].creates == 0 && items[|old(items)|].joins == 0
                   && items[|old(items)|].stops == 0
              else items == old(items)
    {
      var item := new DeviceItem(settings);
      if !fileExists(settings.path) { return false; }
      item.enabled := true;
      items := items + [item];
      ok := true;
    }

    ghost predicate IsFirst(i: nat, name: string)
      reads this
      requires i < |items|
    {
      items[i].settings.name == name && forall j :: 0 <= j < i ==> items[j].settings.name != name
    }

    /** The first item with that name, or none. */
    method FindByName(name: string) returns (item: DeviceItem?)
      ensures item == null ==> forall i :: 0 <= i < |items| ==> items[i].settings.name != name
      ensures item != null ==> exists i :: 0 <= i < |items| && items[i] == item && IsFirst(i, name)
    {
      var i := 0;
      while i < |items|
        invariant 0 <= i <= |items|
        invariant forall j :: 0 <= j < i ==> items[j].settings.name != name
      {
        if items[i].settings.name == name { return items[i]; }
        i := i + 1;
      }
      item := null;
    }

    /** Starts every enabled item; `created(i)` is whether thread creation succeeds for item i. */
    method StartAll(created: nat -> bool)
      requires Valid() && forall i :: 0 <= i < |items| ==> !items[i].started && items[i].creates == 0
      modifies items
      ensures Valid()
      ensures forall i :: 0 <= i < |items| ==>
        items[i].started == (items[i].enabled && created(i)) && items[i].enabled == old(items[i].enabled)
        && items[i].creates == (if items[i].started then 1 else 0) && items[i].stops == old(items[i].stops)
    {
      var i := 0;
      while i < |items|
        invariant 0 <= i <= |items| && Valid()
        invariant forall j :: 0 <= j < |items| ==>
          items[j].enabled == old(items[j].enabled) && items[j].stops == old(items[j].stops)
        invariant forall j :: 0 <= j < i ==>
          items[j].started == (items[j].enabled && created(j))
          && items[j].creates == (if items[j].started then 1 else 0)
        invariant forall j :: i <= j < |items| ==> !items[j].started && items[j].creates == 0
      {
        if items[i].enabled {
          var _ := items[i].StartDriver(created(i));
        }
        i := i + 1;
      }
    }

    /** One cleanup: afterwards every created thread has been joined and every enabled item
        asked to quit; an item already in that state is left as it was. */
    method StopAll()
      requires Valid()
      modifies items
      ensures Valid()
      ensures forall i :: 0 <= i < |items| ==>
        !items[i].started && items[i].joins == items[i].creates == old(items[i].creates)
        && items[i].enabled == old(items[i].enabled) && items[i].quit == (items[i].enabled || old(items[i].quit))
        && items[i].stops == old(items[i].stops) + (if items[i].enabled then 1 else 0)
    {
      var i := 0;
      while i < |items|
        invariant 0 <= i <= |items| && Valid()
        invariant forall j :: 0 <= j < |items| ==>
          items[j].enabled == old(items[j].enabled) && items[j].creates == old(items[j].creates)
        invariant forall j :: 0 <= j < i ==>
          !items[j].started && items[j].quit == (items[j].enabled || old(items[j].quit))
        invariant forall j :: 0 <= j < i ==> items[j].stops == old(items[j].stops) + (if items[j].enabled then 1 else 0)
        invariant forall j :: i <= j < |items| ==>
          items[j].quit == old(items[j].quit) && items[j].stops == old(items[j].stops)
      {
        var _ := items[i].StopDriver();
        i := i + 1;
      }
    }

    /** The main thread's use of the list in one sweep: whatever thread creations fail, each
        created thread is joined once although every enabled item is stopped twice, and the
        second cleanup finds nothing left to do. What the device threads do meanwhile, and that the joins
        return, is the subject of the life cycle. */
    method RunAndCleanUpTwice(created: nat -> bool) returns (ghost afterFirst: seq<(bool, bool, nat)>)
      requires Valid() && forall i :: 0 <= i < |items| ==> !items[i].started && items[i].creates == 0
      modifies items
      ensures Valid() && |afterFirst| == |items|
      ensures forall i :: 0 <= i < |items| ==>
        !items[i].started && items[i].joins == items[i].creates == (if items[i].enabled && created(i) then 1 else 0)
        && afterFirst[i] == (items[i].quit, items[i].started, items[i].joins)
        && items[i].enabled == old(items[i].enabled)
        && items[i].stops == old(items[i].stops) + (if items[i].enabled then 2 else 0)
    {
      StartAll(created);
      StopAll();
      afterFirst := seq(|items|, i requires 0 <= i < |items| reads this, items =>
        (items[i].quit, items[i].started, items[i].joins));
      StopAll();
    }
  }
}
