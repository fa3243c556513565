/** The serial-device registry of the hardware helper: connected devices
    keyed by `device_<n>`, per-device profiles with defaults, and the guards
    and result shaping around each exchange with a device. The serial port
    itself is outside the model: whether opening, writing or closing
    succeeds, and what the device sends back, are parameters. */
module Hardware {
  import opened Text
  import opened PyDict

  /** `f"device_{n}"` */
  function DeviceId(n: nat): string
  {
    "device_" + NatToString(n)
  }

  lemma DeviceIdInjective(m: nat, n: nat)
    ensures DeviceId(m) == DeviceId(n) <==> m == n
  {
    if DeviceId(m) == DeviceId(n) {
      assert DeviceId(m)[7..] == NatToString(m);
      assert DeviceId(n)[7..] == NatToString(n);
      NatToStringInjective(m, n);
    }
  }

  /** A connected device's entry. Timestamps are opaque clock readings. */
  datatype Device = Device(port: string, baudrate: int, connectedAt: int, lastActivity: int)

  /** What `scan_ports` reports for one port. */
  datatype PortInfo = PortInfo(device: string, description: string)

  /** What was written to a device: a command line as text, or raw bytes. */
  datatype Payload = TextLine(text: string) | RawBytes(bytes: seq<bv8>)
  datatype Written = Written(deviceId: string, payload: Payload)

  /** The fields a caller may give `create_device_profile`; absent ones
      take their defaults. */
  datatype ProfileSpec = ProfileSpec(
    name: Option<string>,
    kind: Option<string>,
    commands: Option<map<string, string>>,
    baudrate: Option<int>,
    initSequence: Option<seq<string>>)

  datatype Profile = Profile(
    name: string,
    kind: string,
    commands: map<string, string>,
    baudrate: int,
    initSequence: seq<string>,
    createdAt: int)

  datatype HardwareStatus = HardwareStatus(
    serialAvailable: bool,
    connectedDevices: nat,
    availablePorts: seq<PortInfo>,
    deviceProfiles: nat,
    autoReconnect: bool)

  // ---------------------------------------------------------------------
  // Device ids

  /** The registry update of `connect_device` as the code has it: the new
      device is stored under `device_<size before>`, whether or not that id
      is already in use. */
  function RegisterAsWritten(devices: Dict<string, Device>, dev: Device): (r: Dict<string, Device>)
    requires devices.Valid()
    ensures r.Valid()
    ensures r.items == devices.items[DeviceId(|devices.items|) := dev]
    ensures |r.items| == |devices.items| + 1 <==> DeviceId(|devices.items|) !in devices.items
  {
    devices.Size();
    devices.Put(DeviceId(|devices.keys|), dev)
  }

  /** Connect two devices, disconnect the first, connect a third: the third
      takes the id `device_1` of the second, which is silently dropped, and
      only one device is left registered. */
  lemma RegisterAfterDisconnectOverwrites(a: Device, b: Device, c: Device)
    ensures var d2 := RegisterAsWritten(RegisterAsWritten(Empty(), a), b);
            var d3 := RegisterAsWritten(d2.Remove(DeviceId(0)), c);
            && d2.items == map[DeviceId(0) := a, DeviceId(1) := b] && |d2.items| == 2
            && d3.items == map[DeviceId(1) := c] && |d3.items| == 1
  {
    var d2 := RegisterAsWritten(RegisterAsWritten(Empty(), a), b);
    ConnectTwo(a, b);
    DisconnectFirst(d2, a, b);
    ConnectAfterDisconnect(d2.Remove(DeviceId(0)), b, c);
  }

  lemma ConnectTwo(a: Device, b: Device)
    ensures var d2 := RegisterAsWritten(RegisterAsWritten(Empty(), a), b);
            d2.items == map[DeviceId(0) := a, DeviceId(1) := b] && |d2.items| == 2
  {
    DeviceIdInjective(0, 1);
    var e: Dict<string, Device> := Empty();
    var d1 := RegisterAsWritten(e, a);
    assert d1.items == map[DeviceId(0) := a];
    assert |d1.items| == 1;
  }

  lemma DisconnectFirst(d2: Dict<string, Device>, a: Device, b: Device)
    requires d2.Valid() && d2.items == map[DeviceId(0) := a, DeviceId(1) := b]
    ensures d2.Remove(DeviceId(0)).Valid()
    ensures d2.Remove(DeviceId(0)).items == map[DeviceId(1) := b]
  {
    DeviceIdInjective(0, 1);
  }

  lemma ConnectAfterDisconnect(d: Dict<string, Device>, b: Device, c: Device)
    requires d.Valid() && d.items == map[DeviceId(1) := b]
    ensures RegisterAsWritten(d, c).items == map[DeviceId(1) := c]
    ensures |RegisterAsWritten(d, c).items| == 1
  {
    assert |d.items| == 1;
  }

  /** The ids `device_0` … `device_<m-1>`. */
  ghost function IdsBelow(m: nat): set<string>
  {
    set j | 0 <= j < m :: DeviceId(j)
  }

  lemma FreshStep(taken: set<string>, m: nat)
    requires DeviceId(m) in taken
    ensures |taken - IdsBelow(m + 1)| < |taken - IdsBelow(m)|
  {
    forall j | 0 <= j < m
      ensures DeviceId(j) != DeviceId(m)
    {
      DeviceIdInjective(j, m);
    }
    assert IdsBelow(m + 1) == IdsBelow(m) + {DeviceId(m)};
    assert DeviceId(m) in taken - IdsBelow(m);
    assert taken - IdsBelow(m + 1) == (taken - IdsBelow(m)) - {DeviceId(m)};
  }

  /** The ids of indices `m` … `n-1` are all taken. */
  predicate AllTaken(taken: set<string>, m: nat, n: nat)
  {
    forall j :: m <= j < n ==> DeviceId(j) in taken
  }

  /** The first index from `m` upward whose id is not taken. */
  function FreshIndex(taken: set<string>, m: nat): (n: nat)
    ensures m <= n && DeviceId(n) !in taken
    ensures AllTaken(taken, m, n)
    decreases |taken - IdsBelow(m)|
  {
    if DeviceId(m) !in taken then m
    else
      FreshStep(taken, m);
      var n := FreshIndex(taken, m + 1);
      AllTakenFrom(taken, m, n);
      n
  }

  lemma AllTakenFrom(taken: set<string>, m: nat, n: nat)
    requires DeviceId(m) in taken && AllTaken(taken, m + 1, n)
    ensures AllTaken(taken, m, n)
  {
  }

  // ---------------------------------------------------------------------
  // Reading from a device

  /** Everything a device sent, chunk after chunk. */
  function Concat(chunks: seq<string>): string
  {
    if |chunks| == 0 then "" else Concat(chunks[..|chunks| - 1]) + chunks[|chunks| - 1]
  }

  /** The read loops: append each chunk that is waiting. */
  method Drain(chunks: seq<string>) returns (s: string)
    ensures s == Concat(chunks)
  {
    s := "";
    var i := 0;
    while i < |chunks|
      invariant 0 <= i <= |chunks|
      invariant s == Concat(chunks[..i])
    {
      assert chunks[..i + 1][..i] == chunks[..i];
      s := s + chunks[i];
      i := i + 1;
    }
    assert chunks[..i] == chunks;
  }

  /** `response.strip() if response else "OK"`: the reply to a command is
      "OK" when the device sent nothing, and otherwise what it sent without
      the surrounding white space. */
  function Reply(s: string): (r: string)
    ensures s == "" ==> r == "OK"
    ensures s != "" ==> exists k :: Surrounded(s, r, k)
    ensures s != "" ==> |r| == 0 || (!IsSpace(r[0]) && !IsSpace(r[|r| - 1]))
  {
    if s == "" then "OK"
    else
      StripSlice(s);
      Strip(s)
  }

  /** What `send_command` returns: None for an unknown device, a failed
      write, or a failure after the write (`readOk` false), the shaped reply
      otherwise. */
  function CommandOutcome(devices: Dict<string, Device>, id: string, writeOk: bool, readOk: bool,
                          chunks: seq<string>): (r: Option<string>)
    ensures r.None? <==> id !in devices.items || !writeOk || !readOk
  {
    if id in devices.items && writeOk && readOk then Some(Reply(Concat(chunks))) else None
  }

  /** Some connected device uses `port`. */
  ghost predicate OnPort(devices: Dict<string, Device>, port: string)
  {
    exists k :: k in devices.items && devices.items[k].port == port
  }

  /** `any(dev["port"] == port for dev in connected_devices.values())` */
  method AnyOnPort(devices: Dict<string, Device>, port: string) returns (b: bool)
    requires devices.Valid()
    ensures b <==> OnPort(devices, port)
  {
    b := false;
    var i := 0;
    while i < |devices.keys| && !b
      invariant 0 <= i <= |devices.keys|
      invariant b <==> exists j :: 0 <= j < i && devices.items[devices.keys[j]].port == port
    {
      b := devices.items[devices.keys[i]].port == port;
      i := i + 1;
    }
    if !b {
      forall k | k in devices.items
        ensures devices.items[k].port != port
      {
        var j :| 0 <= j < |devices.keys| && devices.keys[j] == k;
      }
    }
  }

  function PortLine(p: PortInfo, connected: bool): string
  {
    p.device + " - " + p.description + " (" + (if connected then "Connected" else "Available") + ")"
  }

  function ActiveLine(id: string, port: string): string
  {
    id + " - " + port + " (Active)"
  }

  /** `profile.get(field, default)` for each field of a new profile. */
  function WithDefaults(spec: ProfileSpec, now: int): (p: Profile)
    ensures p.name == (if spec.name.Some? then spec.name.value else "Unknown Device")
    ensures p.kind == (if spec.kind.Some? then spec.kind.value else "generic")
    ensures p.commands == (if spec.commands.Some? then spec.commands.value else map[])
    ensures p.baudrate == (if spec.baudrate.Some? then spec.baudrate.value else 9600)
    ensures p.initSequence == (if spec.initSequence.Some? then spec.initSequence.value else [])
    ensures p.createdAt == now
  {
    Profile(
      match spec.name case Some(v) => v case None => "Unknown Device",
      match spec.kind case Some(v) => v case None => "generic",
      match spec.commands case Some(v) => v case None => map[],
      match spec.baudrate case Some(v) => v case None => 9600,
      match spec.initSequence case Some(v) => v case None => [],
      now)
  }

  // ---------------------------------------------------------------------
  // The helper object

  /** One step of `disconnect_all` over a key list without repeats: the
      key at position `i` is dropped exactly when its port closed
      (`closed`), so the keys kept so far stay in order in front of the
      keys still to visit. */
  lemma {:induction false} KeysStep(ids: seq<string>, i: int, failing: set<string>, closed: bool, after: seq<string>)
    requires 0 <= i < |ids|
    requires forall a, b :: 0 <= a < b < |ids| ==> ids[a] != ids[b]
    requires closed <==> ids[i] !in failing
    requires closed ==> after == Without(Restricted(ids[..i], failing) + ids[i..], ids[i])
    requires !closed ==> after == Restricted(ids[..i], failing) + ids[i..]
    ensures after == Restricted(ids[..i + 1], failing) + ids[i + 1..]
  {
    var kept := Restricted(ids[..i], failing);
    assert ids[..i + 1][..i] == ids[..i];
    assert ids[i..] == [ids[i]] + ids[i + 1..];
    if closed {
      assert forall j :: 0 <= j < i ==> ids[..i][j] != ids[i];
      assert ids[i] !in kept;
      var later := ids[i + 1..];
      assert forall j :: 0 <= j < |later| ==> later[j] != ids[i];
      WithoutConcat(kept, ids[i..], ids[i]);
      WithoutAbsent(kept, ids[i]);
      WithoutAbsent(ids[i + 1..], ids[i]);
    }
  }

  class HardwareHelper {
    var connectedDevices: Dict<string, Device>
    var deviceConfigs: map<string, Profile>
    var autoReconnect: bool
    /** Everything written to the devices, in order. */
    var transmitted: seq<Written>
    /** Whether the serial library could be imported. */
    const serialAvailable: bool

    ghost predicate Valid()
      reads this
    {
      connectedDevices.Valid()
    }

    constructor(serial: bool)
      ensures Valid() && serialAvailable == serial
      ensures connectedDevices.items == map[] && deviceConfigs == map[]
      ensures autoReconnect && transmitted == []
    {
      connectedDevices := Empty();
      deviceConfigs := map[];
      autoReconnect := true;
      transmitted := [];
      serialAvailable := serial;
    }

    /** `scan_ports`: nothing without the serial library. */
    function ScanPorts(ports: seq<PortInfo>): (r: seq<PortInfo>)
      ensures serialAvailable ==> r == ports
      ensures !serialAvailable ==> r == []
    {
      if serialAvailable then ports else []
    }

    /** `connect_device`, with a registration that never reuses an id in
        use: the id is `device_<size>` as before when that is free, and
        otherwise the next free index above it. `portOpened` says whether the
        port could be opened. */
    method ConnectDevice(port: string, baudrate: int, portOpened: bool, now: int) returns (ok: bool, ghost id: string)
      requires Valid()
      modifies this
      ensures Valid()
      ensures ok <==> serialAvailable && portOpened
      ensures !ok ==> connectedDevices == old(connectedDevices)
      ensures ok ==> id !in old(connectedDevices.items)
      ensures ok ==> connectedDevices.items == old(connectedDevices.items)[id := Device(port, baudrate, now, now)]
      ensures ok ==> connectedDevices.keys == old(connectedDevices.keys) + [id]
      ensures ok ==> |connectedDevices.items| == |old(connectedDevices.items)| + 1
      ensures ok ==> exists n: nat :: n >= |old(connectedDevices.items)| && id == DeviceId(n)
      ensures ok ==> id == DeviceId(FreshIndex(old(connectedDevices.items).Keys, |old(connectedDevices.items)|))
      ensures ok && DeviceId(|old(connectedDevices.items)|) !in old(connectedDevices.items) ==>
                id == DeviceId(|old(connectedDevices.items)|)
      ensures deviceConfigs == old(deviceConfigs) && transmitted == old(transmitted)
      ensures autoReconnect == old(autoReconnect)
    {
      id := "";
      if !serialAvailable || !portOpened {
        return false, id;
      }
      connectedDevices.Size();
      var n := FreshIndex(connectedDevices.items.Keys, |connectedDevices.keys|);
      var newId := DeviceId(n);
      id := newId;
      connectedDevices := connectedDevices.Put(newId, Device(port, baudrate, now, now));
      ok := true;
    }

    /** `disconnect_device`; `closed` says whether closing the port worked. */
    method DisconnectDevice(id: string, closed: bool) returns (ok: bool)
      requires Valid()
      modifies this
      ensures Valid()
      ensures ok <==> id in old(connectedDevices.items) && closed
      ensures ok ==> connectedDevices.items == old(connectedDevices.items) - {id}
      ensures ok ==> connectedDevices.keys == Without(old(connectedDevices.keys), id)
      ensures !ok ==> connectedDevices == old(connectedDevices)
      ensures deviceConfigs == old(deviceConfigs) && transmitted == old(transmitted)
      ensures autoReconnect == old(autoReconnect)
    {
      if id !in connectedDevices.items || !closed {
        return false;
      }
      connectedDevices := connectedDevices.Remove(id);
      ok := true;
    }

    /** `disconnect_all`: every device whose port closes is removed; the
        others stay, unchanged. */
    method DisconnectAll(failing: set<string>)
      requires Valid()
      modifies this
      ensures Valid()
      ensures forall k :: k in connectedDevices.items <==> k in old(connectedDevices.items) && k in failing
      ensures forall k :: k in connectedDevices.items ==> connectedDevices.items[k] == old(connectedDevices.items)[k]
      ensures (forall k :: k in old(connectedDevices.items) ==> k !in failing) ==> connectedDevices.items == map[]
      ensures connectedDevices.keys == Restricted(old(connectedDevices.keys), failing)
      ensures deviceConfigs == old(deviceConfigs) && transmitted == old(transmitted)
      ensures autoReconnect == old(autoReconnect)
    {
      var ids := connectedDevices.keys;
      ghost var before := connectedDevices.items;
      var i := 0;
      while i < |ids|
        invariant 0 <= i <= |ids|
        invariant Valid()
        invariant forall a, b :: 0 <= a < b < |ids| ==> ids[a] != ids[b]
        invariant forall k :: k in before <==> k in ids
        invariant forall k :: k in connectedDevices.items ==> k in before && connectedDevices.items[k] == before[k]
        invariant connectedDevices.keys == Restricted(ids[..i], failing) + ids[i..]
        invariant deviceConfigs == old(deviceConfigs) && transmitted == old(transmitted)
        invariant autoReconnect == old(autoReconnect)
      {
        assert ids[i] in connectedDevices.keys;
        var ok := DisconnectDevice(ids[i], ids[i] !in failing);
        KeysStep(ids, i, failing, ok, connectedDevices.keys);
        i := i + 1;
      }
      assert ids[..i] == ids;
    }

    /** `send_command`: writes the command and a newline, then reads what
        the device sends back (`chunks`). `writeOk` says whether the write
        succeeds; `readOk` whether the flush, the read loop and the timestamp
        that follow it do. One `try` covers all of them, so a failure after
        the write returns None with the command already sent. */
    method SendCommand(id: string, command: string, writeOk: bool, readOk: bool, chunks: seq<string>, now: int)
      returns (r: Option<string>)
      requires Valid()
      modifies this
      ensures Valid()
      ensures r == CommandOutcome(old(connectedDevices), id, writeOk, readOk, chunks)
      ensures id !in old(connectedDevices.items) || !writeOk ==> unchanged(this)
      ensures id in old(connectedDevices.items) && writeOk ==>
                transmitted == old(transmitted) + [Written(id, TextLine(command + "\n"))]
      ensures r.None? ==> connectedDevices == old(connectedDevices)
      ensures r.Some? ==> connectedDevices.keys == old(connectedDevices.keys)
      ensures r.Some? ==> (connectedDevices.items ==
                old(connectedDevices.items)[id := old(connectedDevices.items)[id].(lastActivity := now)])
      ensures deviceConfigs == old(deviceConfigs) && autoReconnect == old(autoReconnect)
    {
      if id !in connectedDevices.items || !writeOk {
        return None;
      }
      transmitted := transmitted + [Written(id, TextLine(command + "\n"))];
      if !readOk {
        return None;
      }
      var response := Drain(chunks);
      var dev := connectedDevices.items[id];
      connectedDevices := connectedDevices.Put(id, dev.(lastActivity := now));
      r := Some(if response == "" then "OK" else Strip(response));
    }

    /** `send_raw_data`: `writeOk` says whether the write succeeds, and
        `flushOk` whether the flush and the timestamp after it do. One `try`
        covers both, so a failed flush returns false with the bytes already
        sent. */
    method SendRawData(id: string, data: seq<bv8>, writeOk: bool, flushOk: bool, now: int) returns (ok: bool)
      requires Valid()
      modifies this
      ensures Valid()
      ensures ok <==> id in old(connectedDevices.items) && writeOk && flushOk
      ensures id !in old(connectedDevices.items) || !writeOk ==> unchanged(this)
      ensures id in old(connectedDevices.items) && writeOk ==>
                transmitted == old(transmitted) + [Written(id, RawBytes(data))]
      ensures !ok ==> connectedDevices == old(connectedDevices)
      ensures ok ==> connectedDevices.keys == old(connectedDevices.keys)
      ensures ok ==> (connectedDevices.items ==
                old(connectedDevices.items)[id := old(connectedDevices.items)[id].(lastActivity := now)])
      ensures deviceConfigs == old(deviceConfigs) && autoReconnect == old(autoReconnect)
    {
      if id !in connectedDevices.items || !writeOk {
        return false;
      }
      transmitted := transmitted + [Written(id, RawBytes(data))];
      if !flushOk {
        return false;
      }
      var dev := connectedDevices.items[id];
      connectedDevices := connectedDevices.Put(id, dev.(lastActivity := now));
      ok := true;
    }

    /** `read_data`: `chunks` is what arrived before the timeout; `readOk`
        is false when reading raised. */
    method ReadData(id: string, readOk: bool, chunks: seq<string>, now: int) returns (r: Option<string>)
      requires Valid()
      modifies this
      ensures Valid()
      ensures id !in old(connectedDevices.items) || !readOk ==> r == None && unchanged(this)
      ensures id in old(connectedDevices.items) && readOk ==>
                && r == (if Concat(chunks) == "" then None else Some(Strip(Concat(chunks))))
                && connectedDevices.keys == old(connectedDevices.keys)
                && connectedDevices.items ==
                     old(connectedDevices.items)[id := old(connectedDevices.items)[id].(lastActivity := now)]
      ensures transmitted == old(transmitted)
      ensures deviceConfigs == old(deviceConfigs) && autoReconnect == old(autoReconnect)
    {
      if id !in connectedDevices.items || !readOk {
        return None;
      }
      var data := Drain(chunks);
      var dev := connectedDevices.items[id];
      connectedDevices := connectedDevices.Put(id, dev.(lastActivity := now));
      r := if data == "" then None else Some(Strip(data));
    }

    /** `list_devices`: every scanned port, marked by whether a connected
        device uses it, then every connected device in connection order. */
    method ListDevices(ports: seq<PortInfo>) returns (r: seq<string>)
      requires Valid()
      ensures |r| == |ScanPorts(ports)| + |connectedDevices.keys|
      ensures forall i :: 0 <= i < |ScanPorts(ports)| ==>
                r[i] == PortLine(ports[i], OnPort(connectedDevices, ports[i].device))
      ensures forall j :: 0 <= j < |connectedDevices.keys| ==>
                r[|ScanPorts(ports)| + j] ==
                  ActiveLine(connectedDevices.keys[j], connectedDevices.items[connectedDevices.keys[j]].port)
    {
      var scanned := ScanPorts(ports);
      r := [];
      var i := 0;
      while i < |scanned|
        invariant 0 <= i <= |scanned| && |r| == i
        invariant forall a :: 0 <= a < i ==> r[a] == PortLine(ports[a], OnPort(connectedDevices, ports[a].device))
      {
        var connected := AnyOnPort(connectedDevices, scanned[i].device);
        r := r + [PortLine(scanned[i], connected)];
        i := i + 1;
      }
      var keys := connectedDevices.keys;
      var j := 0;
      while j < |keys|
        invariant 0 <= j <= |keys| && |r| == |scanned| + j
        invariant forall a :: 0 <= a < |scanned| ==> r[a] == PortLine(ports[a], OnPort(connectedDevices, ports[a].device))
        invariant forall b :: 0 <= b < j ==>
                    r[|scanned| + b] == ActiveLine(keys[b], connectedDevices.items[keys[b]].port)
      {
        r := r + [ActiveLine(keys[j], connectedDevices.items[keys[j]].port)];
        j := j + 1;
      }
    }

    /** `create_device_profile`: a new profile, with defaults for missing
        fields, replaces any earlier one for `id`. */
    method CreateDeviceProfile(id: string, spec: ProfileSpec, now: int)
      modifies this
      ensures deviceConfigs == old(deviceConfigs)[id := WithDefaults(spec, now)]
      ensures connectedDevices == old(connectedDevices) && transmitted == old(transmitted)
      ensures autoReconnect == old(autoReconnect)
    {
      deviceConfigs := deviceConfigs[id := WithDefaults(spec, now)];
    }

    /** `execute_device_profile`: sends the command the profile maps
        `action` to, if the device has a profile with that action;
        `writeOk`, `readOk` and `chunks` are as for `send_command`. */
    method ExecuteDeviceProfile(id: string, action: string, writeOk: bool, readOk: bool, chunks: seq<string>, now: int)
      returns (r: Option<string>)
      requires Valid()
      modifies this
      ensures Valid()
      ensures id !in old(deviceConfigs) || action !in old(deviceConfigs)[id].commands ==> r == None && unchanged(this)
      ensures id in old(deviceConfigs) && action in old(deviceConfigs)[id].commands ==>
                && r == CommandOutcome(old(connectedDevices), id, writeOk, readOk, chunks)
                && (id in old(connectedDevices.items) && writeOk ==> (transmitted ==
                      old(transmitted) + [Written(id, TextLine(old(deviceConfigs)[id].commands[action] + "\n"))]))
                && (id !in old(connectedDevices.items) || !writeOk ==> unchanged(this))
                && (r.None? ==> connectedDevices == old(connectedDevices))
                && (r.Some? ==> connectedDevices.keys == old(connectedDevices.keys))
                && (r.Some? ==> (connectedDevices.items ==
                      old(connectedDevices.items)[id := old(connectedDevices.items)[id].(lastActivity := now)]))
      ensures deviceConfigs == old(deviceConfigs) && autoReconnect == old(autoReconnect)
    {
      if id !in deviceConfigs {
        return None;
      }
      var commands := deviceConfigs[id].commands;
      if action in commands {
        r := SendCommand(id, commands[action], writeOk, readOk, chunks, now);
      } else {
        r := None;
      }
    }

    /** `get_status` */
    method GetStatus(ports: seq<PortInfo>) returns (s: HardwareStatus)
      requires Valid()
      ensures s.serialAvailable == serialAvailable && s.autoReconnect == autoReconnect
      ensures s.connectedDevices == |connectedDevices.items| == |connectedDevices.keys|
      ensures s.availablePorts == ScanPorts(ports)
      ensures s.deviceProfiles == |deviceConfigs|
    {
      connectedDevices.Size();
      s := HardwareStatus(serialAvailable, |connectedDevices.keys|, ScanPorts(ports), |deviceConfigs|, autoReconnect);
    }
  }
}
