/**
 * Zone switches: which zones of which devices become switch entities, how an
 * entity is named and identified, when it reports on, what turning it on or
 * off sends to the controller, and which update events make it refresh.
 */
module Switch {
  import opened Wrappers
  import opened Decimal

  /** A value in a device's attribute dictionary. */
  datatype Value = Int(i: int) | Str(s: string) | Null

  type Attributes = map<string, Value>

  /** `get_devices()`: a dictionary from device id to attributes, with its iteration order. */
  datatype DeviceTable = DeviceTable(ids: seq<string>, attributes: map<string, Attributes>)

  ghost predicate IsDictionary(t: DeviceTable)
  {
    && (forall i, j :: 0 <= i < j < |t.ids| ==> t.ids[i] != t.ids[j])
    && (forall id :: id in t.attributes <==> id in t.ids)
  }

  type Devices = t: DeviceTable | IsDictionary(t) witness DeviceTable([], map[])

  /** `dict.get(key)`. */
  function Get(attrs: Attributes, key: string): Option<Value>
  {
    if key in attrs then Some(attrs[key]) else None
  }

  /** The key `f"zone_status_{zone}"`. */
  function ZoneStatusKey(zone: nat): string
  {
    "zone_status_" + NatToString(zone)
  }

  lemma ZoneStatusKeyInjective(a: nat, b: nat)
    requires ZoneStatusKey(a) == ZoneStatusKey(b)
    ensures a == b
  {
    assert NatToString(a) == ZoneStatusKey(a)[12..];
    assert NatToString(b) == ZoneStatusKey(b)[12..];
    NatToStringInjective(a, b);
  }

  function ZoneStatus(attrs: Attributes, zone: nat): Option<Value>
  {
    Get(attrs, ZoneStatusKey(zone))
  }

  /** A spill zone: status `7` or `'spill'`. */
  predicate IsSpill(status: Option<Value>)
  {
    status == Some(Int(7)) || status == Some(Str("spill"))
  }

  /** `state in [1, 7, 'on', 'spill']`. */
  predicate StatusOn(status: Option<Value>)
  {
    status in [Some(Int(1)), Some(Int(7)), Some(Str("on")), Some(Str("spill"))]
  }

  /** `f"{v}"` for the value of `dict.get`; a missing value renders as `None`. */
  function Render(v: Option<Value>): string
  {
    match v
    case None => "None"
    case Some(Null) => "None"
    case Some(Int(i)) => IntToString(i)
    case Some(Str(s)) => s
  }

  // ---------------------------------------------------------------------------
  // Entities

  datatype ZoneSwitch = ZoneSwitch(deviceId: string, zoneIndex: nat, name: string, uniqueId: string)

  /** `f"{device_id}_zone_{zone_index}"`. */
  function UniqueId(deviceId: string, zone: nat): string
  {
    deviceId + "_zone_" + NatToString(zone)
  }

  /** `f"{device_name} Zone {zone_index}"`. */
  function EntityName(deviceName: Option<Value>, zone: nat): string
  {
    Render(deviceName) + " Zone " + NatToString(zone)
  }

  /** The entity for a zone of a device whose attributes are `attrs`. */
  function Entity(deviceId: string, attrs: Attributes, zone: nat): (sw: ZoneSwitch)
    ensures sw.deviceId == deviceId && sw.zoneIndex == zone
  {
    ZoneSwitch(deviceId, zone, EntityName(Get(attrs, "name"), zone), UniqueId(deviceId, zone))
  }

  /** `IntesisZoneSwitch(controller, device_id, zone_index)`: `None` when the device lookup raises. */
  function NewZoneSwitch(devices: Devices, deviceId: string, zone: nat): (r: Option<ZoneSwitch>)
    ensures r.Some? <==> deviceId in devices.ids
    ensures r.Some? ==> r.value.deviceId == deviceId && r.value.zoneIndex == zone
    ensures r.Some? ==>
      && r.value.uniqueId == UniqueId(deviceId, zone)
      && r.value.name == EntityName(Get(devices.attributes[deviceId], "name"), zone)
  {
    if deviceId in devices.attributes then Some(Entity(deviceId, devices.attributes[deviceId], zone)) else None
  }

  /** Length of the run of decimal digits at the end of `u`. */
  function TrailingDigits(u: string): (t: nat)
    ensures t <= |u| && AllDigits(u[|u| - t..])
    ensures t < |u| ==> !IsDigit(u[|u| - t - 1])
  {
    if u == [] || !IsDigit(u[|u| - 1]) then 0
    else
      var p := u[..|u| - 1];
      var t' := TrailingDigits(p);
      assert u[|u| - t' - 1..] == p[|p| - t'..] + [u[|u| - 1]];
      assert t' < |p| ==> u[|u| - t' - 2] == p[|p| - t' - 1];
      1 + t'
  }

  lemma {:induction false} TrailingDigitsAfter(p: string, s: string)
    requires p != [] && !IsDigit(p[|p| - 1]) && AllDigits(s)
    ensures TrailingDigits(p + s) == |s|
  {
    if s != [] {
      var u := p + s;
      assert u[..|u| - 1] == p + s[..|s| - 1];
      TrailingDigitsAfter(p, s[..|s| - 1]);
    } else {
      assert p + s == p;
    }
  }

  /** Recover the device id and zone index from a unique id. */
  function ParseUniqueId(u: string): Option<(string, nat)>
  {
    var t := TrailingDigits(u);
    if t >= 1 && |u| >= t + 6 && u[|u| - t - 6..|u| - t] == "_zone_" then
      Some((u[..|u| - t - 6], StringToNat(u[|u| - t..])))
    else None
  }

  /** A unique id names its device and zone: parsing it gives them back. */
  lemma ParseUniqueIdRoundTrip(deviceId: string, zone: nat)
    ensures ParseUniqueId(UniqueId(deviceId, zone)) == Some((deviceId, zone))
  {
    var digits := NatToString(zone);
    var p := deviceId + "_zone_";
    var u := UniqueId(deviceId, zone);
    assert u == p + digits;
    TrailingDigitsAfter(p, digits);
    assert u[|u| - |digits| - 6..|u| - |digits|] == "_zone_";
    assert u[..|u| - |digits| - 6] == deviceId;
    assert u[|u| - |digits|..] == digits;
    StringToNatOfNatToString(zone);
  }

  /** Distinct (device, zone) pairs give distinct unique ids. */
  lemma UniqueIdInjective(a: string, za: nat, b: string, zb: nat)
    requires UniqueId(a, za) == UniqueId(b, zb)
    ensures a == b && za == zb
  {
    ParseUniqueIdRoundTrip(a, za);
    ParseUniqueIdRoundTrip(b, zb);
  }

  /** A unique id is the device id, then `_zone_`, then digits with no leading zero that read back as the zone. */
  lemma UniqueIdFormat(deviceId: string, zone: nat)
    ensures var u := UniqueId(deviceId, zone);
      && |u| >= |deviceId| + 7
      && u[..|deviceId|] == deviceId
      && u[|deviceId|..|deviceId| + 6] == "_zone_"
      && AllDigits(u[|deviceId| + 6..])
      && StringToNat(u[|deviceId| + 6..]) == zone
      && (u[|deviceId| + 6] == '0' <==> zone == 0)
  {
    var u := UniqueId(deviceId, zone);
    assert u[|deviceId| + 6..] == NatToString(zone);
    StringToNatOfNatToString(zone);
  }

  /** A name is the rendered device name, then ` Zone `, then digits with no leading zero that read back as the zone. */
  lemma EntityNameFormat(deviceName: Option<Value>, zone: nat)
    ensures var p := Render(deviceName); var n := EntityName(deviceName, zone);
      && |n| >= |p| + 7
      && n[..|p|] == p
      && n[|p|..|p| + 6] == " Zone "
      && AllDigits(n[|p| + 6..])
      && StringToNat(n[|p| + 6..]) == zone
      && (n[|p| + 6] == '0' <==> zone == 0)
  {
    var p := Render(deviceName);
    var n := EntityName(deviceName, zone);
    assert n[|p| + 6..] == NatToString(zone);
    StringToNatOfNatToString(zone);
  }

  // ---------------------------------------------------------------------------
  // Discovery

  /** `number_of_zones > 0` raises a `TypeError` when the count is not a number. */
  datatype SetupError = ZoneCountNotComparable(deviceId: string)

  /** `device.get("number_of_zones", 0)`, as far as the comparison with 0 accepts it. */
  function ZoneCount(deviceId: string, attrs: Attributes): (r: Result<int, SetupError>)
    ensures "number_of_zones" !in attrs ==> r == Ok(0)
    ensures r.Err? <==> "number_of_zones" in attrs && !attrs["number_of_zones"].Int?
    ensures "number_of_zones" in attrs && attrs["number_of_zones"].Int? ==> r == Ok(attrs["number_of_zones"].i)
  {
    match Get(attrs, "number_of_zones")
    case None => Ok(0)
    case Some(Int(n)) => Ok(n)
    case Some(_) => Err(ZoneCountNotComparable(deviceId))
  }

  /** The entities for zones `1..upTo` of one device, spill zones skipped, in zone order. */
  function DeviceZones(deviceId: string, attrs: Attributes, upTo: int): (zs: seq<ZoneSwitch>)
    ensures |zs| <= if upTo > 0 then upTo else 0
    ensures forall i :: 0 <= i < |zs| ==> zs[i].deviceId == deviceId && 1 <= zs[i].zoneIndex <= upTo
    decreases upTo
  {
    if upTo <= 0 then []
    else
      DeviceZones(deviceId, attrs, upTo - 1)
      + (if IsSpill(ZoneStatus(attrs, upTo)) then [] else [Entity(deviceId, attrs, upTo)])
  }

  lemma DeviceZonesNext(deviceId: string, attrs: Attributes, zone: int)
    requires zone >= 1
    ensures DeviceZones(deviceId, attrs, zone) == DeviceZones(deviceId, attrs, zone - 1)
      + (if IsSpill(ZoneStatus(attrs, zone)) then [] else [Entity(deviceId, attrs, zone)])
  {
  }

  /** The entities of the first `k` devices, or the error of the first device that raises. */
  function DiscoverFirst(devices: Devices, k: nat): (r: Result<seq<ZoneSwitch>, SetupError>)
    requires k <= |devices.ids|
  {
    if k == 0 then Ok([])
    else
      match DiscoverFirst(devices, k - 1)
      case Err(e) => Err(e)
      case Ok(es) =>
        var id := devices.ids[k - 1];
        match ZoneCount(id, devices.attributes[id])
        case Err(e) => Err(e)
        case Ok(n) => Ok(es + DeviceZones(id, devices.attributes[id], n))
  }

  /** What the discovery loop of `async_setup_entry` builds. */
  function Discover(devices: Devices): (r: Result<seq<ZoneSwitch>, SetupError>)
  {
    DiscoverFirst(devices, |devices.ids|)
  }

  /** Discovery of the first `k` devices raises exactly when one of their zone counts is not a number. */
  lemma {:induction false} DiscoverFirstRaises(devices: Devices, k: nat)
    requires k <= |devices.ids|
    ensures DiscoverFirst(devices, k).Err? <==>
      exists j :: 0 <= j < k && ZoneCount(devices.ids[j], devices.attributes[devices.ids[j]]).Err?
  {
    if k > 0 {
      DiscoverFirstRaises(devices, k - 1);
    }
  }

  /** Discovery raises exactly when some device's zone count is not a number. */
  lemma DiscoverRaises(devices: Devices)
    ensures Discover(devices).Err? <==>
      exists j :: 0 <= j < |devices.ids| && ZoneCount(devices.ids[j], devices.attributes[devices.ids[j]]).Err?
  {
    DiscoverFirstRaises(devices, |devices.ids|);
  }

  /** A device contributes exactly its non-spill zones `1..n`, each built for that zone. */
  lemma {:induction false} DeviceZonesMembers(deviceId: string, attrs: Attributes, n: int, sw: ZoneSwitch)
    ensures sw in DeviceZones(deviceId, attrs, n) <==>
      && 1 <= sw.zoneIndex <= n
      && !IsSpill(ZoneStatus(attrs, sw.zoneIndex))
      && sw == Entity(deviceId, attrs, sw.zoneIndex)
  {
    if n > 0 {
      DeviceZonesMembers(deviceId, attrs, n - 1, sw);
      DeviceZonesNext(deviceId, attrs, n);
      var prev := DeviceZones(deviceId, attrs, n - 1);
      if IsSpill(ZoneStatus(attrs, n)) {
        assert DeviceZones(deviceId, attrs, n) == prev;
      } else {
        var e := Entity(deviceId, attrs, n);
        assert DeviceZones(deviceId, attrs, n) == prev + [e];
        if sw.zoneIndex == n {
          assert sw == Entity(deviceId, attrs, sw.zoneIndex) <==> sw == e;
        }
      }
    }
  }

  /** Within a device the zones come in strictly ascending index order. */
  predicate AscendingZones(zs: seq<ZoneSwitch>)
  {
    forall i, j :: 0 <= i < j < |zs| ==> zs[i].zoneIndex < zs[j].zoneIndex
  }

  lemma {:induction false} DeviceZonesAscending(deviceId: string, attrs: Attributes, n: int)
    ensures AscendingZones(DeviceZones(deviceId, attrs, n))
  {
    if n > 0 {
      DeviceZonesAscending(deviceId, attrs, n - 1);
      var prev := DeviceZones(deviceId, attrs, n - 1);
      forall i | 0 <= i < |prev| ensures prev[i].zoneIndex < n {
        DeviceZonesMembers(deviceId, attrs, n - 1, prev[i]);
      }
      var zs := DeviceZones(deviceId, attrs, n);
      assert zs == prev + (if IsSpill(ZoneStatus(attrs, n)) then [] else [Entity(deviceId, attrs, n)]);
      forall i, j | 0 <= i < j < |zs| ensures zs[i].zoneIndex < zs[j].zoneIndex {
        if j < |prev| {
          assert zs[i] == prev[i] && zs[j] == prev[j];
          assert prev[i].zoneIndex < prev[j].zoneIndex;
        } else {
          assert zs[i] == prev[i] && zs[j].zoneIndex == n;
        }
      }
    }
  }

  /** The position of a device in the iteration order. */
  function DevicePosition(devices: Devices, id: string): (k: nat)
    requires id in devices.ids
    ensures k < |devices.ids| && devices.ids[k] == id
  {
    var k :| 0 <= k < |devices.ids| && devices.ids[k] == id;
    k
  }

  /** `a` is created before `b`: an earlier device, or the same device and a lower zone. */
  predicate Precedes(devices: Devices, a: ZoneSwitch, b: ZoneSwitch)
    requires a.deviceId in devices.ids && b.deviceId in devices.ids
  {
    DevicePosition(devices, a.deviceId) < DevicePosition(devices, b.deviceId)
    || (a.deviceId == b.deviceId && a.zoneIndex < b.zoneIndex)
  }

  /** The position of a listed device is the index it is listed at. */
  lemma DevicePositionAt(devices: Devices, k: nat)
    requires k < |devices.ids|
    ensures DevicePosition(devices, devices.ids[k]) == k
  {
  }

  /** `sw` is built for a non-spill zone of one of the first `k` devices. */
  predicate BuiltForDevice(devices: Devices, k: nat, sw: ZoneSwitch)
  {
    && sw.deviceId in devices.ids
    && DevicePosition(devices, sw.deviceId) < k
    && sw.zoneIndex >= 1
    && ZoneCount(sw.deviceId, devices.attributes[sw.deviceId]).Ok?
    && sw.zoneIndex <= ZoneCount(sw.deviceId, devices.attributes[sw.deviceId]).value
    && !IsSpill(ZoneStatus(devices.attributes[sw.deviceId], sw.zoneIndex))
    && sw == Entity(sw.deviceId, devices.attributes[sw.deviceId], sw.zoneIndex)
  }

  lemma {:induction false} DiscoverFirstBuilt(devices: Devices, k: nat)
    requires k <= |devices.ids|
    requires DiscoverFirst(devices, k).Ok?
    ensures var es := DiscoverFirst(devices, k).value;
      forall i :: 0 <= i < |es| ==> BuiltForDevice(devices, k, es[i])
  {
    if k > 0 {
      DiscoverFirstBuilt(devices, k - 1);
      var prev := DiscoverFirst(devices, k - 1).value;
      var id := devices.ids[k - 1];
      var attrs := devices.attributes[id];
      var zs := DeviceZones(id, attrs, ZoneCount(id, attrs).value);
      var es := DiscoverFirst(devices, k).value;
      assert es == prev + zs;
      DevicePositionAt(devices, k - 1);
      forall i | 0 <= i < |es| ensures BuiltForDevice(devices, k, es[i]) {
        if i < |prev| {
          assert es[i] == prev[i] && BuiltForDevice(devices, k - 1, prev[i]);
        } else {
          var sw := zs[i - |prev|];
          assert es[i] == sw;
          DeviceZonesMembers(id, attrs, ZoneCount(id, attrs).value, sw);
        }
      }
    }
  }

  /** An entity of an earlier device precedes every entity of device `k`. */
  lemma PrecedesLaterDevice(devices: Devices, k: nat, a: ZoneSwitch, b: ZoneSwitch)
    requires k < |devices.ids|
    requires BuiltForDevice(devices, k, a) && b.deviceId == devices.ids[k]
    ensures Precedes(devices, a, b)
  {
    DevicePositionAt(devices, k);
  }

  lemma {:induction false} DiscoverFirstOrdered(devices: Devices, k: nat)
    requires k <= |devices.ids|
    requires DiscoverFirst(devices, k).Ok?
    ensures var es := DiscoverFirst(devices, k).value;
      && (forall i :: 0 <= i < |es| ==> es[i].deviceId in devices.ids)
      && (forall i, j :: 0 <= i < j < |es| ==> Precedes(devices, es[i], es[j]))
  {
    DiscoverFirstBuilt(devices, k);
    if k > 0 {
      DiscoverFirstOrdered(devices, k - 1);
      DiscoverFirstBuilt(devices, k - 1);
      var prev := DiscoverFirst(devices, k - 1).value;
      var id := devices.ids[k - 1];
      var attrs := devices.attributes[id];
      var n := ZoneCount(id, attrs).value;
      var zs := DeviceZones(id, attrs, n);
      var es := DiscoverFirst(devices, k).value;
      assert es == prev + zs;
      DevicePositionAt(devices, k - 1);
      DeviceZonesAscending(id, attrs, n);
      forall i, j | 0 <= i < j < |es| ensures Precedes(devices, es[i], es[j]) {
        if j < |prev| {
          assert es[i] == prev[i] && es[j] == prev[j];
        } else if i < |prev| {
          assert es[i] == prev[i] && BuiltForDevice(devices, k - 1, prev[i]);
          PrecedesLaterDevice(devices, k - 1, prev[i], zs[j - |prev|]);
        } else {
          assert es[i] == zs[i - |prev|] && es[j] == zs[j - |prev|];
          assert zs[i - |prev|].zoneIndex < zs[j - |prev|].zoneIndex;
        }
      }
    }
  }

  /**
   * Every discovered entity belongs to one of the first `k` devices and is built
   * for a non-spill zone of it; entities come in device order, then zone order.
   */
  lemma DiscoverFirstShape(devices: Devices, k: nat)
    requires k <= |devices.ids|
    requires DiscoverFirst(devices, k).Ok?
    ensures var es := DiscoverFirst(devices, k).value;
      && (forall i :: 0 <= i < |es| ==>
            && es[i].deviceId in devices.ids
            && DevicePosition(devices, es[i].deviceId) < k
            && es[i].zoneIndex >= 1
            && ZoneCount(es[i].deviceId, devices.attributes[es[i].deviceId]).Ok?
            && es[i].zoneIndex <= ZoneCount(es[i].deviceId, devices.attributes[es[i].deviceId]).value
            && !IsSpill(ZoneStatus(devices.attributes[es[i].deviceId], es[i].zoneIndex))
            && es[i] == Entity(es[i].deviceId, devices.attributes[es[i].deviceId], es[i].zoneIndex))
      && (forall i, j :: 0 <= i < j < |es| ==> Precedes(devices, es[i], es[j]))
  {
    DiscoverFirstBuilt(devices, k);
    DiscoverFirstOrdered(devices, k);
    var es := DiscoverFirst(devices, k).value;
    forall i | 0 <= i < |es|
      ensures && es[i].deviceId in devices.ids
              && DevicePosition(devices, es[i].deviceId) < k
              && es[i].zoneIndex >= 1
              && ZoneCount(es[i].deviceId, devices.attributes[es[i].deviceId]).Ok?
              && es[i].zoneIndex <= ZoneCount(es[i].deviceId, devices.attributes[es[i].deviceId]).value
              && !IsSpill(ZoneStatus(devices.attributes[es[i].deviceId], es[i].zoneIndex))
              && es[i] == Entity(es[i].deviceId, devices.attributes[es[i].deviceId], es[i].zoneIndex)
    {
      assert BuiltForDevice(devices, k, es[i]);
    }
  }

  /** One more device: its zone count raises, or its zones are appended. */
  lemma DiscoverFirstStep(devices: Devices, k: nat)
    requires k < |devices.ids| && DiscoverFirst(devices, k).Ok?
    ensures var id := devices.ids[k]; var attrs := devices.attributes[id];
      match ZoneCount(id, attrs)
      case Err(e) => DiscoverFirst(devices, k + 1) == Err(e)
      case Ok(n) =>
        && DiscoverFirst(devices, k + 1) == Ok(DiscoverFirst(devices, k).value + DeviceZones(id, attrs, n))
        && (n <= 0 ==> DeviceZones(id, attrs, n) == [])
  {
  }

  /** Discovery keeps what the earlier devices produced: a prefix of the later result. */
  lemma {:induction false} DiscoverFirstPrefix(devices: Devices, k: nat, m: nat)
    requires k <= m <= |devices.ids|
    requires DiscoverFirst(devices, m).Ok?
    ensures DiscoverFirst(devices, k).Ok?
    ensures DiscoverFirst(devices, k).value <= DiscoverFirst(devices, m).value
  {
    if k < m {
      DiscoverFirstPrefix(devices, k, m - 1);
    }
  }

  /** Once a device raises, discovery as a whole raises the same error. */
  lemma {:induction false} DiscoverFirstErrSticks(devices: Devices, k: nat, m: nat)
    requires k <= m <= |devices.ids|
    requires DiscoverFirst(devices, k).Err?
    ensures DiscoverFirst(devices, m) == DiscoverFirst(devices, k)
  {
    if k < m {
      DiscoverFirstErrSticks(devices, k, m - 1);
    }
  }

  /** Every non-spill zone `1..n` of every device yields its entity. */
  lemma DiscoverComplete(devices: Devices, k: nat, zone: nat)
    requires Discover(devices).Ok?
    requires k < |devices.ids|
    requires var id := devices.ids[k];
      && ZoneCount(id, devices.attributes[id]).Ok?
      && 1 <= zone <= ZoneCount(id, devices.attributes[id]).value
      && !IsSpill(ZoneStatus(devices.attributes[id], zone))
    ensures Entity(devices.ids[k], devices.attributes[devices.ids[k]], zone) in Discover(devices).value
  {
    var id := devices.ids[k];
    var attrs := devices.attributes[id];
    var sw := Entity(id, attrs, zone);
    DiscoverFirstPrefix(devices, k + 1, |devices.ids|);
    DeviceZonesMembers(id, attrs, ZoneCount(id, attrs).value, sw);
    var es := DiscoverFirst(devices, k + 1).value;
    assert es == DiscoverFirst(devices, k).value + DeviceZones(id, attrs, ZoneCount(id, attrs).value);
    assert sw in es;
  }

  /** No two discovered entities share a unique id. */
  lemma DiscoveredIdsDistinct(devices: Devices)
    requires Discover(devices).Ok?
    ensures var es := Discover(devices).value;
      forall i, j :: 0 <= i < j < |es| ==> es[i].uniqueId != es[j].uniqueId
  {
    var es := Discover(devices).value;
    DiscoverFirstShape(devices, |devices.ids|);
    forall i, j | 0 <= i < j < |es| ensures es[i].uniqueId != es[j].uniqueId {
      assert Precedes(devices, es[i], es[j]);
      if es[i].uniqueId == es[j].uniqueId {
        UniqueIdInjective(es[i].deviceId, es[i].zoneIndex, es[j].deviceId, es[j].zoneIndex);
      }
    }
  }

  /**
   * `async_setup_entry`: walk the devices and their zones, skip spill zones,
   * and hand the entities to `async_add_entities` in one call, or not at all
   * when there are none. A count that cannot be compared with 0 raises.
   */
  method AsyncSetupEntry(devices: Devices) returns (addCalls: seq<seq<ZoneSwitch>>, raised: Option<SetupError>)
    ensures Discover(devices).Ok? ==>
      raised == None && addCalls == if Discover(devices).value == [] then [] else [Discover(devices).value]
    ensures Discover(devices).Err? ==> raised == Some(Discover(devices).error) && addCalls == []
  {
    var entities: seq<ZoneSwitch> := [];
    var k := 0;
    while k < |devices.ids|
      invariant 0 <= k <= |devices.ids|
      invariant DiscoverFirst(devices, k) == Ok(entities)
    {
      var id := devices.ids[k];
      var device := devices.attributes[id];
      var count := ZoneCount(id, device);
      if count.Err? {
        DiscoverFirstErrSticks(devices, k + 1, |devices.ids|);
        return [], Some(count.error);
      }
      var numberOfZones := count.value;
      var before := entities;
      if numberOfZones > 0 {
        for zone := 1 to numberOfZones + 1
          invariant entities == before + DeviceZones(id, device, zone - 1)
        {
          var zoneStatus := Get(device, ZoneStatusKey(zone));
          DeviceZonesNext(id, device, zone);
          if zoneStatus == Some(Int(7)) || zoneStatus == Some(Str("spill")) {
            continue;
          }
          var sw := NewZoneSwitch(devices, id, zone);
          assert sw.value == Entity(id, device, zone);
          entities := entities + [sw.value];
        }
      }
      DiscoverFirstStep(devices, k);
      assert entities == before + DeviceZones(id, device, numberOfZones);
      k := k + 1;
    }
    if entities != [] {
      addCalls := [entities];
    } else {
      addCalls := [];
    }
    raised := None;
  }

  // ---------------------------------------------------------------------------
  // State, commands and refresh

  /** `is_on`; `None` when the entity's device is not in the table (the lookup raises). */
  function IsOn(sw: ZoneSwitch, devices: Devices): (r: Option<bool>)
    ensures r.Some? <==> sw.deviceId in devices.ids
  {
    if sw.deviceId in devices.attributes then Some(StatusOn(ZoneStatus(devices.attributes[sw.deviceId], sw.zoneIndex)))
    else None
  }

  /** On exactly for statuses 1, 7, 'on' and 'spill'; a missing status is off. */
  lemma IsOnCases(sw: ZoneSwitch, devices: Devices)
    requires sw.deviceId in devices.ids
    ensures var status := ZoneStatus(devices.attributes[sw.deviceId], sw.zoneIndex);
      && (status == None ==> IsOn(sw, devices) == Some(false))
      && (IsSpill(status) ==> IsOn(sw, devices) == Some(true))
      && (IsOn(sw, devices) == Some(true) <==>
            status == Some(Int(1)) || status == Some(Int(7)) || status == Some(Str("on")) || status == Some(Str("spill")))
  {
  }

  datatype SwitchEffect =
    | SetZoneStatus(deviceId: string, zone: nat, state: string)
    | WriteHaState
    | ScheduleUpdateHaState(forceRefresh: bool)

  /** `async_turn_on`: one command to the controller, for this zone, then the state is written. */
  function TurnOn(sw: ZoneSwitch): (r: seq<SwitchEffect>)
    ensures |r| == 2 && r[|r| - 1] == WriteHaState
    ensures r[0] == SetZoneStatus(sw.deviceId, sw.zoneIndex, "on")
    ensures forall i :: 0 <= i < |r| && r[i].SetZoneStatus? ==> i == 0
  {
    [SetZoneStatus(sw.deviceId, sw.zoneIndex, "on"), WriteHaState]
  }

  /** `async_turn_off`: one command to the controller, for this zone, then the state is written. */
  function TurnOff(sw: ZoneSwitch): (r: seq<SwitchEffect>)
    ensures |r| == 2 && r[|r| - 1] == WriteHaState
    ensures r[0] == SetZoneStatus(sw.deviceId, sw.zoneIndex, "off")
    ensures forall i :: 0 <= i < |r| && r[i].SetZoneStatus? ==> i == 0
  {
    [SetZoneStatus(sw.deviceId, sw.zoneIndex, "off"), WriteHaState]
  }

  /** A controller that records the requested status under the zone's status key. */
  function ApplyZoneStatus(devices: Devices, deviceId: string, zone: nat, state: string): (r: Devices)
    ensures r.ids == devices.ids
  {
    if deviceId in devices.attributes then
      var attrs := devices.attributes[deviceId];
      DeviceTable(devices.ids, devices.attributes[deviceId := attrs[ZoneStatusKey(zone) := Str(state)]])
    else devices
  }

  function Apply(devices: Devices, e: SwitchEffect): (r: Devices)
    ensures r.ids == devices.ids
  {
    if e.SetZoneStatus? then ApplyZoneStatus(devices, e.deviceId, e.zone, e.state) else devices
  }

  /** The device table after the controller has received the commands of `es`, in order. */
  function Run(devices: Devices, es: seq<SwitchEffect>): (r: Devices)
    ensures r.ids == devices.ids
    decreases |es|
  {
    if es == [] then devices else Run(Apply(devices, es[0]), es[1..])
  }

  /** A command followed by the state write leaves the table as the command alone does. */
  lemma RunCommand(devices: Devices, e: SwitchEffect)
    ensures Run(devices, [e, WriteHaState]) == Apply(devices, e)
  {
    assert [e, WriteHaState][1..] == [WriteHaState] && [WriteHaState][1..] == [];
  }

  /** Recording a status for a zone stores exactly that status there and touches no other zone. */
  lemma ZoneStatusTakesEffect(sw: ZoneSwitch, other: ZoneSwitch, devices: Devices, state: string)
    requires sw.deviceId in devices.ids
    requires other.deviceId != sw.deviceId || other.zoneIndex != sw.zoneIndex
    ensures var after := ApplyZoneStatus(devices, sw.deviceId, sw.zoneIndex, state);
      && ZoneStatus(after.attributes[sw.deviceId], sw.zoneIndex) == Some(Str(state))
      && IsOn(other, after) == IsOn(other, devices)
  {
    if other.deviceId == sw.deviceId && ZoneStatusKey(other.zoneIndex) == ZoneStatusKey(sw.zoneIndex) {
      ZoneStatusKeyInjective(other.zoneIndex, sw.zoneIndex);
    }
  }

  /**
   * Under a controller that records what it is sent, turning a zone on stores
   * `'on'` for it and makes it report on, turning it off stores `'off'` and
   * makes it report off, and no other entity changes.
   */
  lemma TurnOnOffTakeEffect(sw: ZoneSwitch, other: ZoneSwitch, devices: Devices)
    requires sw.deviceId in devices.ids
    requires other.deviceId != sw.deviceId || other.zoneIndex != sw.zoneIndex
    ensures ZoneStatus(Run(devices, TurnOn(sw)).attributes[sw.deviceId], sw.zoneIndex) == Some(Str("on"))
    ensures ZoneStatus(Run(devices, TurnOff(sw)).attributes[sw.deviceId], sw.zoneIndex) == Some(Str("off"))
    ensures IsOn(sw, Run(devices, TurnOn(sw))) == Some(true)
    ensures IsOn(sw, Run(devices, TurnOff(sw))) == Some(false)
    ensures IsOn(other, Run(devices, TurnOn(sw))) == IsOn(other, devices)
    ensures IsOn(other, Run(devices, TurnOff(sw))) == IsOn(other, devices)
  {
    RunCommand(devices, TurnOn(sw)[0]);
    RunCommand(devices, TurnOff(sw)[0]);
    ZoneStatusTakesEffect(sw, other, devices, "on");
    ZoneStatusTakesEffect(sw, other, devices, "off");
  }

  /** `not device_id or self._device_id == device_id`: `None` and `""` are both falsy in Python. */
  predicate RefreshWanted(sw: ZoneSwitch, deviceId: Option<string>)
  {
    deviceId == None || deviceId == Some("") || deviceId == Some(sw.deviceId)
  }

  /** `async_update_callback`: at most one forced state refresh, exactly when the event concerns this entity. */
  function UpdateCallback(sw: ZoneSwitch, deviceId: Option<string>): (r: seq<SwitchEffect>)
    ensures r == [] || r == [ScheduleUpdateHaState(true)]
    ensures r != [] <==> RefreshWanted(sw, deviceId)
  {
    if RefreshWanted(sw, deviceId) then [ScheduleUpdateHaState(true)] else []
  }

  /** The entities of `sws` whose callback asks for a refresh when the event carries `deviceId`, in order. */
  function Refreshed(sws: seq<ZoneSwitch>, deviceId: Option<string>): (r: seq<ZoneSwitch>)
    ensures |r| <= |sws|
  {
    if sws == [] then []
    else (if RefreshWanted(sws[0], deviceId) then [sws[0]] else []) + Refreshed(sws[1..], deviceId)
  }

  lemma {:induction false} RefreshedAppend(a: seq<ZoneSwitch>, b: seq<ZoneSwitch>, deviceId: Option<string>)
    ensures Refreshed(a + b, deviceId) == Refreshed(a, deviceId) + Refreshed(b, deviceId)
  {
    if a != [] {
      assert (a + b)[0] == a[0] && (a + b)[1..] == a[1..] + b;
      RefreshedAppend(a[1..], b, deviceId);
    } else {
      assert a + b == b;
    }
  }

  /** An event for a device the switch does not belong to keeps it quiet. */
  lemma {:induction false} RefreshedNone(sws: seq<ZoneSwitch>, deviceId: string)
    requires deviceId != ""
    requires forall i :: 0 <= i < |sws| ==> sws[i].deviceId != deviceId
    ensures Refreshed(sws, Some(deviceId)) == []
  {
    if sws != [] {
      RefreshedNone(sws[1..], deviceId);
    }
  }

  /** An event for the device every switch belongs to refreshes them all. */
  lemma {:induction false} RefreshedAll(sws: seq<ZoneSwitch>, deviceId: Option<string>)
    requires forall i :: 0 <= i < |sws| ==> RefreshWanted(sws[i], deviceId)
    ensures Refreshed(sws, deviceId) == sws
  {
    if sws != [] {
      RefreshedAll(sws[1..], deviceId);
      assert sws == [sws[0]] + sws[1..];
    }
  }

  /**
   * Over any list of entities, an event with no device id or an empty one
   * refreshes all of them, in order; an event for a device refreshes exactly the
   * entities of that device.
   */
  lemma {:induction false} UpdateCallbackTargets(sws: seq<ZoneSwitch>, deviceId: Option<string>)
    ensures deviceId == None || deviceId == Some("") ==> Refreshed(sws, deviceId) == sws
    ensures deviceId.Some? && deviceId.value != "" ==>
      forall sw :: sw in Refreshed(sws, deviceId) <==> sw in sws && sw.deviceId == deviceId.value
  {
    if deviceId == None || deviceId == Some("") {
      RefreshedAll(sws, deviceId);
    }
    if sws != [] {
      UpdateCallbackTargets(sws[1..], deviceId);
      assert sws == [sws[0]] + sws[1..];
    }
  }

  /** Appending one device's entities adds them all, or none, to those an event for `id` refreshes. */
  lemma RefreshedStep(prev: seq<ZoneSwitch>, zs: seq<ZoneSwitch>, owner: string, id: string)
    requires id != ""
    requires forall i :: 0 <= i < |zs| ==> zs[i].deviceId == owner
    ensures owner == id ==> Refreshed(prev + zs, Some(id)) == Refreshed(prev, Some(id)) + zs
    ensures owner != id ==> Refreshed(prev + zs, Some(id)) == Refreshed(prev, Some(id))
  {
    RefreshedAppend(prev, zs, Some(id));
    if owner == id {
      RefreshedAll(zs, Some(id));
    } else {
      RefreshedNone(zs, id);
      assert Refreshed(prev, Some(id)) + [] == Refreshed(prev, Some(id));
    }
  }

  /** Among the discovered entities, an event for listed device `j` refreshes exactly that device's zones. */
  lemma {:induction false} DiscoverFirstRefreshed(devices: Devices, k: nat, j: nat)
    requires k <= |devices.ids| && DiscoverFirst(devices, k).Ok?
    requires j < |devices.ids| && devices.ids[j] != ""
    ensures var id := devices.ids[j]; var attrs := devices.attributes[id];
      if j < k then
        && ZoneCount(id, attrs).Ok?
        && Refreshed(DiscoverFirst(devices, k).value, Some(id)) == DeviceZones(id, attrs, ZoneCount(id, attrs).value)
      else Refreshed(DiscoverFirst(devices, k).value, Some(id)) == []
  {
    if k > 0 {
      DiscoverFirstPrefix(devices, k - 1, k);
      DiscoverFirstRefreshed(devices, k - 1, j);
      var id := devices.ids[j];
      var prev := DiscoverFirst(devices, k - 1).value;
      var idk := devices.ids[k - 1];
      var ak := devices.attributes[idk];
      var zs := DeviceZones(idk, ak, ZoneCount(idk, ak).value);
      assert DiscoverFirst(devices, k).value == prev + zs;
      assert j != k - 1 ==> idk != id;
      RefreshedStep(prev, zs, idk, id);
    }
  }

  /** An event for a discovered device refreshes exactly the entities created for that device, in zone order. */
  lemma DeviceEventRefreshesItsZones(devices: Devices, j: nat)
    requires Discover(devices).Ok?
    requires j < |devices.ids| && devices.ids[j] != ""
    ensures var id := devices.ids[j]; var attrs := devices.attributes[id];
      && ZoneCount(id, attrs).Ok?
      && Refreshed(Discover(devices).value, Some(id)) == DeviceZones(id, attrs, ZoneCount(id, attrs).value)
  {
    DiscoverFirstRefreshed(devices, |devices.ids|, j);
  }

  // ---------------------------------------------------------------------------
  // The discovery example: one device, three zones, zone 3 spilling

  const ExampleAttributes: Attributes :=
    map["name" := Str("Test AC"), "number_of_zones" := Int(3),
        "zone_status_1" := Int(1), "zone_status_2" := Int(0), "zone_status_3" := Int(7)]

  const ExampleDevices: Devices := DeviceTable(["12345"], map["12345" := ExampleAttributes])

  lemma ExampleZones()
    ensures DeviceZones("12345", ExampleAttributes, 3)
         == [ZoneSwitch("12345", 1, "Test AC Zone 1", "12345_zone_1"),
             ZoneSwitch("12345", 2, "Test AC Zone 2", "12345_zone_2")]
  {
    var attrs := ExampleAttributes;
    assert NatToString(1) == "1" && NatToString(2) == "2" && NatToString(3) == "3";
    assert "zone_status_" + "1" == "zone_status_1" && ZoneStatusKey(1) == "zone_status_1";
    assert "zone_status_" + "2" == "zone_status_2" && ZoneStatusKey(2) == "zone_status_2";
    assert "zone_status_" + "3" == "zone_status_3" && ZoneStatusKey(3) == "zone_status_3";
    assert "Test AC" + " Zone " + "1" == "Test AC Zone 1" && "12345" + "_zone_" + "1" == "12345_zone_1";
    assert "Test AC" + " Zone " + "2" == "Test AC Zone 2" && "12345" + "_zone_" + "2" == "12345_zone_2";
    var sw1 := ZoneSwitch("12345", 1, "Test AC Zone 1", "12345_zone_1");
    var sw2 := ZoneSwitch("12345", 2, "Test AC Zone 2", "12345_zone_2");
    assert Entity("12345", attrs, 1) == sw1;
    assert Entity("12345", attrs, 2) == sw2;
    assert ZoneStatus(attrs, 3) == Some(Int(7));
    assert DeviceZones("12345", attrs, 1) == [sw1];
    assert DeviceZones("12345", attrs, 2) == [sw1, sw2];
  }

  /** Zones 1 and 2 become entities, in that order; the spilling zone 3 does not. */
  lemma DiscoveryExample()
    ensures Discover(ExampleDevices)
         == Ok([ZoneSwitch("12345", 1, "Test AC Zone 1", "12345_zone_1"),
                ZoneSwitch("12345", 2, "Test AC Zone 2", "12345_zone_2")])
  {
    ExampleZones();
    assert |ExampleDevices.ids| == 1 && ExampleDevices.ids[0] == "12345";
    assert ExampleDevices.attributes["12345"] == ExampleAttributes;
    assert ZoneCount("12345", ExampleAttributes) == Ok(3);
    var zs := DeviceZones("12345", ExampleAttributes, 3);
    assert DiscoverFirst(ExampleDevices, 1) == Ok([] + zs);
    assert [] + zs == zs;
  }
}
