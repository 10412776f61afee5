/**
 * Stem-to-device routing (src/components/audio/DeviceRouter.tsx): each of the
 * two stems has a list of output device ids, and clicking a device toggles it
 * in one stem's list. The component's `routing` state is a field that
 * `HandleStemToggle` replaces; the routings handed to `onRoutingChange` are
 * recorded in order.
 */
module DeviceRouter {

  datatype Stem = Vocal | Instrumental

  datatype DeviceType = Headphones | Speakers | Bluetooth

  datatype Device = Device(id: string, name: string, deviceType: DeviceType)

  /** The mock device list. */
  const Devices: seq<Device> := [
    Device("device-1", "Headphones", Headphones),
    Device("device-2", "Speakers", Speakers),
    Device("device-3", "Bluetooth Speaker", Bluetooth)
  ]

  /** Every id in the list names one of the listed devices. */
  predicate KnownDevices(ids: seq<string>)
  {
    forall x :: x in ids ==> x in set d | d in Devices :: d.id
  }

  datatype Routing = Routing(vocal: seq<string>, instrumental: seq<string>) {

    /** `routing[stem]`. */
    function Get(stem: Stem): seq<string>
    {
      match stem
      case Vocal => vocal
      case Instrumental => instrumental
    }

    /** `{ ...routing, [stem]: ids }`. */
    function With(stem: Stem, ids: seq<string>): (r: Routing)
      ensures r.Get(stem) == ids
      ensures forall other :: other != stem ==> r.Get(other) == Get(other)
    {
      match stem
      case Vocal => this.(vocal := ids)
      case Instrumental => this.(instrumental := ids)
    }
  }

  /** `ids.filter((id) => id !== deviceId)`. */
  function Without(ids: seq<string>, deviceId: string): (r: seq<string>)
    ensures |r| <= |ids|
    ensures forall x :: x in r <==> x in ids && x != deviceId
  {
    if ids == [] then []
    else (if ids[0] == deviceId then [] else [ids[0]]) + Without(ids[1..], deviceId)
  }

  /** Removing an id that is absent changes nothing. */
  lemma {:induction false} WithoutAbsent(ids: seq<string>, deviceId: string)
    requires deviceId !in ids
    ensures Without(ids, deviceId) == ids
    decreases |ids|
  {
    if ids != [] {
      WithoutAbsent(ids[1..], deviceId);
      assert [ids[0]] + ids[1..] == ids;
    }
  }

  /** Filtering distributes over concatenation. */
  lemma {:induction false} WithoutAppend(a: seq<string>, b: seq<string>, deviceId: string)
    ensures Without(a + b, deviceId) == Without(a, deviceId) + Without(b, deviceId)
    decreases |a|
  {
    if a == [] {
      assert a + b == b;
    } else {
      assert (a + b)[1..] == a[1..] + b;
      WithoutAppend(a[1..], b, deviceId);
    }
  }

  /** The new list for one stem: without every copy of a present device, or with an absent one appended. */
  function Toggled(ids: seq<string>, deviceId: string): (r: seq<string>)
    ensures deviceId in r <==> deviceId !in ids
    ensures forall x :: x != deviceId ==> (x in r <==> x in ids)
    ensures deviceId !in ids ==> r == ids + [deviceId]
  {
    if deviceId in ids then Without(ids, deviceId) else ids + [deviceId]
  }

  /** The routing after `handleStemToggle(stem, deviceId)`. */
  function Toggle(routing: Routing, stem: Stem, deviceId: string): (r: Routing)
    ensures r.Get(stem) == Toggled(routing.Get(stem), deviceId)
    ensures forall other :: other != stem ==> r.Get(other) == routing.Get(other)
  {
    routing.With(stem, Toggled(routing.Get(stem), deviceId))
  }

  /** The starting routing names listed devices, and toggling a listed device keeps it that way. */
  lemma ToggleKeepsKnownDevices(routing: Routing, stem: Stem, deviceId: string)
    requires KnownDevices(routing.vocal) && KnownDevices(routing.instrumental)
    requires deviceId in set d | d in Devices :: d.id
    ensures KnownDevices(["device-1"]) && KnownDevices(["device-2"])
    ensures var r := Toggle(routing, stem, deviceId); KnownDevices(r.vocal) && KnownDevices(r.instrumental)
  {
    assert Devices[0].id == "device-1" && Devices[1].id == "device-2";
  }

  /** Toggling an absent device twice restores the stem's list. */
  lemma ToggleTwiceRestores(routing: Routing, stem: Stem, deviceId: string)
    requires deviceId !in routing.Get(stem)
    ensures Toggle(Toggle(routing, stem, deviceId), stem, deviceId) == routing
  {
    var ids := routing.Get(stem);
    WithoutAppend(ids, [deviceId], deviceId);
    WithoutAbsent(ids, deviceId);
    assert Without([deviceId], deviceId) == [];
    assert Toggled(Toggled(ids, deviceId), deviceId) == ids;
    match stem
    case Vocal =>
    case Instrumental =>
  }

  class Router {
    var routing: Routing
    /** The routings passed to `onRoutingChange`, oldest first. */
    var notified: seq<Routing>

    /** The initial state: vocals on the headphones, the instrumental on the speakers. */
    constructor ()
      ensures routing == Routing(["device-1"], ["device-2"])
      ensures notified == []
    {
      routing := Routing(["device-1"], ["device-2"]);
      notified := [];
    }

    /** `isRouted`: whether the device is in the stem's list. */
    function IsRouted(stem: Stem, deviceId: string): (b: bool)
      reads this
      ensures b <==> deviceId in routing.Get(stem)
    {
      deviceId in routing.Get(stem)
    }

    /** `handleStemToggle`: replace the routing by the toggled one and report it. */
    method HandleStemToggle(stem: Stem, deviceId: string)
      modifies this
      ensures routing == Toggle(old(routing), stem, deviceId)
      ensures notified == old(notified) + [routing]
      ensures IsRouted(stem, deviceId) == !old(IsRouted(stem, deviceId))
      ensures forall other :: other != stem ==> routing.Get(other) == old(routing.Get(other))
    {
      var newRouting := Toggle(routing, stem, deviceId);
      notified := notified + [newRouting];
      routing := newRouting;
    }
  }
}
