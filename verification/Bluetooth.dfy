/**
 The mirror of src/audio/bluetooth.c, its counters and flags, and the callbacks and actions
 that change them in place, each proved to do what BluetoothCalls says of it.
 */
module Bluetooth {
  import opened Wrappers
  import opened BluetoothCalls
  import opened BluetoothSafety

  class Mirror {
    var bus: bool
    var gen: nat
    var bluezUp: bool
    var adapter: Path
    var powered: bool
    var devs: seq<Device>
    var autoconnectDue: bool
    var scanWanted: bool
    var discoveryActive: bool
    var pairsInFlight: nat
    var calls: map<nat, Call>
    var nextCall: nat
    ghost var lost: bool

    ghost function View(): State
      reads this
    {
      State(bus, gen, bluezUp, adapter, powered, devs, autoconnectDue, scanWanted, discoveryActive, pairsInFlight,
            calls, nextCall, lost)
    }

    constructor ()
      ensures View() == START
    {
      bus, gen, bluezUp, adapter, powered, devs, autoconnectDue := false, 0, false, NOWHERE, false, [], false;
      scanWanted, discoveryActive, pairsInFlight, calls, nextCall, lost := false, false, 0, map[], 0, false;
    }

    method FindDev(path: Path) returns (i: nat)
      ensures i <= |devs| && (i < |devs| ==> devs[i].path == path)
      ensures forall k :: 0 <= k < i ==> devs[k].path != path
    {
      i := 0;
      while i < |devs| && devs[i].path != path
        invariant 0 <= i <= |devs|
        invariant forall k :: 0 <= k < i ==> devs[k].path != path
      {
        i := i + 1;
      }
    }

    method AddDev(path: Path)
      modifies this`devs
      ensures devs == Added(old(devs), path)
    {
      if |path.name| < PATH_SIZE {
        devs := devs + [NewDevice(path)];
      }
    }

    method RemoveDev(path: Path)
      requires Unique(devs)
      modifies this`devs
      ensures devs == Removed(old(devs), path) && Unique(devs)
    {
      var i := FindDev(path);
      RemovedAt(devs, path, i);
      RemovedUnique(devs, path);
      if i < |devs| {
        devs := devs[..i] + devs[i + 1..];
      }
    }

    method ResetMirror()
      modifies this`gen, this`adapter, this`powered, this`devs, this`discoveryActive, this`pairsInFlight, this`autoconnectDue, this`lost
      ensures View() == Reset(old(View()))
    {
      gen, adapter, powered, devs := gen + 1, NOWHERE, false, [];
      discoveryActive, pairsInFlight, autoconnectDue, lost := false, 0, false, false;
    }

    method ScheduleAutoconnect()
      modifies this`autoconnectDue, this`devs
      ensures autoconnectDue && devs == Untried(old(devs))
    {
      autoconnectDue := true;
      var i := 0;
      while i < |devs|
        invariant 0 <= i <= |devs| == |old(devs)| && autoconnectDue
        invariant forall k :: 0 <= k < |devs| ==> devs[k] == if k < i then old(devs)[k].(tried := false) else old(devs)[k]
      {
        devs := devs[i := devs[i].(tried := false)];
        i := i + 1;
      }
    }

    method AdapterProp(power: Option<bool>)
      requires Unique(devs)
      modifies this`powered, this`discoveryActive, this`autoconnectDue, this`devs
      ensures View() == MaybePower(old(View()), power) && Unique(devs)
    {
      if power.Some? {
        var was := powered;
        powered := power.value;
        if !powered {
          discoveryActive := false;
        } else if !was && bluezUp {
          ScheduleAutoconnect();
          StillUnique(old(devs), devs);
        }
      }
    }

    method DeviceProps(path: Path, p: Props)
      requires Unique(devs)
      modifies this`devs
      ensures devs == PropsSet(old(devs), path, p) && Unique(devs)
    {
      var i := FindDev(path);
      if i < |devs| {
        OnlyAt(devs, path, i);
        devs := devs[i := WithProps(devs[i], p)];
      }
      StillUnique(old(devs), devs);
    }

    method ParseIface(path: Path, iface: Iface, adapters: bool, devices: bool)
      requires Unique(devs)
      modifies this`adapter, this`powered, this`discoveryActive, this`autoconnectDue, this`devs
      ensures View() == TakeIface(old(View()), path, iface, adapters, devices) && Unique(devs)
    {
      match iface {
        case AdapterIface(power) =>
          if adapters && (adapter == NOWHERE || adapter == path) && |path.name| < PATH_SIZE {
            adapter := path;
            AdapterProp(power);
          }
        case DeviceIface(props) =>
          if devices && UnderAdapter(adapter, path) {
            ParseDevice(path, props);
          }
        case OtherIface =>
      }
    }

    method ParseDevice(path: Path, props: Props)
      requires Unique(devs)
      modifies this`devs
      ensures devs == PropsSet(if Known(old(devs), path) then old(devs) else Added(old(devs), path), path, props) && Unique(devs)
    {
      var i := FindDev(path);
      if i == |devs| {
        AddDev(path);
      }
      DeviceProps(path, props);
    }

    method ParseObject(path: Path, ifaces: seq<Iface>, adapters: bool, devices: bool)
      requires Unique(devs)
      modifies this`adapter, this`powered, this`discoveryActive, this`autoconnectDue, this`devs
      ensures View() == TakeIfaces(old(View()), path, ifaces, adapters, devices) && Unique(devs)
    {
      var i := 0;
      while i < |ifaces|
        invariant 0 <= i <= |ifaces| && Unique(devs)
        invariant TakeIfaces(View(), path, ifaces[i..], adapters, devices) == TakeIfaces(old(View()), path, ifaces, adapters, devices)
      {
        assert ifaces[i..][1..] == ifaces[i + 1..];
        ParseIface(path, ifaces[i], adapters, devices);
        i := i + 1;
      }
    }

    method ParseObjects(objects: seq<Object>, adapters: bool, devices: bool)
      requires Unique(devs)
      modifies this`adapter, this`powered, this`discoveryActive, this`autoconnectDue, this`devs
      ensures View() == TakeObjects(old(View()), objects, adapters, devices) && Unique(devs)
    {
      var i := 0;
      while i < |objects|
        invariant 0 <= i <= |objects| && Unique(devs)
        invariant TakeObjects(View(), objects[i..], adapters, devices) == TakeObjects(old(View()), objects, adapters, devices)
      {
        assert objects[i..][1..] == objects[i + 1..];
        ParseObject(objects[i].path, objects[i].ifaces, adapters, devices);
        i := i + 1;
      }
    }

    /** `send_call`; whether the bus takes the call is `ok`. */
    method SendCall(kind: Kind, path: Path, ok: bool) returns (sent: bool)
      modifies this`calls, this`nextCall
      ensures sent == (bus && ok)
      ensures View() == if sent then Send(old(View()), kind, path) else old(View())
    {
      sent := bus && ok;
      if sent {
        calls := calls[nextCall := Call(gen, kind, path)];
        nextCall := nextCall + 1;
      }
    }

    method UpdateDiscovery(startOk: bool)
      modifies this`calls, this`nextCall, this`discoveryActive
      ensures View() == BluetoothCalls.UpdateDiscovery(old(View()), startOk)
    {
      var want := scanWanted && adapter != NOWHERE && powered && pairsInFlight == 0;
      if want && !discoveryActive {
        discoveryActive := SendCall(StartDiscovery, NOWHERE, startOk);
      } else if !want && discoveryActive {
        discoveryActive := false;
      }
    }

    method SetOp(path: Path, op: Op)
      requires Unique(devs)
      modifies this`devs
      ensures View() == BluetoothCalls.SetOp(old(View()), path, op) && Unique(devs)
    {
      var i := FindDev(path);
      if i < |devs| {
        OnlyAt(devs, path, i);
        devs := devs[i := devs[i].(op := op)];
      }
      assert devs == OpSet(old(devs), path, op);
      StillUnique(old(devs), devs);
    }

    method FinishPair(startOk: bool)
      modifies this`pairsInFlight, this`calls, this`nextCall, this`discoveryActive
      ensures View() == BluetoothCalls.FinishPair(old(View()), startOk)
    {
      if pairsInFlight > 0 {
        pairsInFlight := pairsInFlight - 1;
      }
      assert View() == old(View()).(pairs := pairsInFlight);
      UpdateDiscovery(startOk);
    }

    method FetchObjects(sendOk: bool)
      modifies this`gen, this`calls, this`nextCall, this`lost
      ensures View() == Fetch(old(View()), sendOk)
    {
      gen := gen + 1;
      var sent := SendCall(Snapshot, NOWHERE, sendOk);
      lost := !sent;
    }

    method SendConnect(path: Path, why: Why, sendOk: bool) returns (sent: bool)
      requires Unique(devs)
      modifies this`calls, this`nextCall, this`devs
      ensures sent == (bus && sendOk) && Unique(devs)
      ensures View() == if sent then BluetoothCalls.SendConnect(old(View()), path, why) else old(View())
    {
      sent := SendCall(Connect(why), path, sendOk);
      if sent {
        SetOp(path, Connecting);
      }
    }

    /** The device to ask next: with AAP on the first pass, any on the second. */
    method PickNext() returns (pick: nat)
      ensures pick == Pick(devs)
    {
      pick := |devs|;
      var pass := 0;
      while pass < 2 && pick == |devs|
        invariant 0 <= pass <= 2 && pick <= |devs|
        invariant pass == 0 ==> pick == |devs|
        invariant pass == 1 ==> pick == FirstEligible(devs, true, 0)
        invariant pass == 2 ==> pick == Pick(devs)
        invariant pick < |devs| ==> pick == Pick(devs)
      {
        var i := 0;
        while i < |devs| && !(Eligible(devs[i]) && (pass == 0 ==> devs[i].aap))
          invariant 0 <= i <= |devs|
          invariant FirstEligible(devs, pass == 0, 0) == FirstEligible(devs, pass == 0, i)
        {
          i := i + 1;
        }
        pick := i;
        pass := pass + 1;
      }
    }

    method AutoconnectNext(sendOk: bool)
      requires Unique(devs)
      modifies this`calls, this`nextCall, this`devs
      ensures View() == BluetoothCalls.AutoconnectNext(old(View()), sendOk) && Unique(devs)
    {
      if !(bus && bluezUp && adapter != NOWHERE && powered) || pairsInFlight > 0 {
        return;
      }
      var i := 0;
      while i < |devs|
        invariant 0 <= i <= |devs|
        invariant forall k :: 0 <= k < i ==> !(devs[k].audio && devs[k].connected)
      {
        if devs[i].audio && devs[i].connected {
          return;
        }
        i := i + 1;
      }
      var pick := PickNext();
      if pick == |devs| {
        return;
      }
      var path := devs[pick].path;
      devs := devs[pick := devs[pick].(tried := true)];
      StillUnique(old(devs), devs);
      var sent := SendConnect(path, Auto, sendOk);
    }

    /** Two passes, adapters first. */
    method ParseAll(objects: seq<Object>, wellFormed: bool)
      requires Unique(devs)
      modifies this`adapter, this`powered, this`discoveryActive, this`autoconnectDue, this`devs
      ensures var s := TakeObjects(old(View()), objects, true, false);
              View() == if wellFormed && s.adapter != NOWHERE then TakeObjects(s, objects, false, true) else s
      ensures Unique(devs)
    {
      ParseObjects(objects, true, false);
      if wellFormed && adapter != NOWHERE {
        ParseObjects(objects, false, true);
      }
    }

    method OnObjects(outcome: Outcome, objects: seq<Object>, wellFormed: bool, startOk: bool)
      modifies this
      ensures View() == OnSnapshot(old(View()), outcome, objects, wellFormed, startOk) && Unique(devs)
    {
      ResetMirror();
      if outcome != Success {
        bluezUp := false;
        return;
      }
      bluezUp := true;
      ParseAll(objects, wellFormed);
      Rebuilt(startOk);
    }

    method Rebuilt(startOk: bool)
      requires Unique(devs)
      modifies this`devs, this`autoconnectDue, this`calls, this`nextCall, this`discoveryActive
      ensures View() == BluetoothCalls.UpdateDiscovery(
                if old(powered) then old(View()).(due := true, devs := Untried(old(devs))) else old(View()), startOk)
      ensures Unique(devs)
    {
      if powered {
        ScheduleAutoconnect();
      }
      StillUnique(old(devs), devs);
      UpdateDiscovery(startOk);
    }

    method OnPair(path: Path, outcome: Outcome, sendOk: bool, startOk: bool)
      requires Unique(devs)
      modifies this`devs, this`pairsInFlight, this`calls, this`nextCall, this`discoveryActive
      ensures View() == BluetoothCalls.OnPair(old(View()), path, outcome, sendOk, startOk) && Unique(devs)
    {
      if outcome == Error {
        SetOp(path, Idle);
        FinishPair(startOk);
        return;
      }
      var sent := SendConnect(path, FromPair, sendOk);
      if !sent {
        SetOp(path, Idle);
        FinishPair(startOk);
      }
    }

    method OnConnect(path: Path, why: Why, outcome: Outcome, sendOk: bool, startOk: bool)
      requires Unique(devs)
      modifies this`devs, this`pairsInFlight, this`calls, this`nextCall, this`discoveryActive
      ensures View() == BluetoothCalls.OnConnect(old(View()), path, why, outcome, sendOk, startOk) && Unique(devs)
    {
      SetOp(path, Idle);
      if why == Auto {
        if outcome == Error {
          AutoconnectNext(sendOk);
        }
      } else if why == FromPair {
        FinishPair(startOk);
      }
    }

    /** A reply's arrival: its call is freed, and its callback looks at the generation first. */
    method OnReply(id: nat, outcome: Outcome, objects: seq<Object>, wellFormed: bool, sendOk: bool, startOk: bool)
      requires id in calls && Unique(devs)
      modifies this
      ensures View() == BluetoothCalls.OnReply(old(View()), id, outcome, objects, wellFormed, sendOk, startOk) && Unique(devs)
    {
      var c := calls[id];
      calls := calls - {id};
      if c.gen != gen {
        return;
      }
      match c.kind {
        case Snapshot => OnObjects(outcome, objects, wellFormed, startOk);
        case StartDiscovery =>
          if outcome == Error {
            discoveryActive := false;
          }
        case Pair => OnPair(c.path, outcome, sendOk, startOk);
        case Connect(why) => OnConnect(c.path, why, outcome, sendOk, startOk);
        case Disconnect => SetOp(c.path, Idle);
      }
    }

    method OnInterfacesRemoved(path: Path, ifaces: seq<Iface>, sendOk: bool)
      requires Unique(devs)
      modifies this
      ensures View() == DropIfaces(old(View()), path, ifaces, sendOk) && Unique(devs)
    {
      var i := 0;
      while i < |ifaces|
        invariant 0 <= i <= |ifaces| && Unique(devs)
        invariant DropIfaces(View(), path, ifaces[i..], sendOk) == DropIfaces(old(View()), path, ifaces, sendOk)
      {
        assert ifaces[i..][1..] == ifaces[i + 1..];
        if ifaces[i].DeviceIface? {
          RemoveDev(path);
        } else if ifaces[i].AdapterIface? && path == adapter {
          ResetMirror();
          FetchObjects(sendOk);
          return;
        }
        i := i + 1;
      }
    }

    method CloseBus()
      modifies this
      ensures View() == BluetoothCalls.CloseBus(old(View())) && Unique(devs)
    {
      bus := false;
      calls := map[];
      ResetMirror();
      bluezUp := false;
    }

    method DeviceIdle(path: Path) returns (idle: bool)
      requires Unique(devs)
      ensures idle == IdleDevice(View(), path)
    {
      var i := FindDev(path);
      idle := i < |devs| && devs[i].op == Idle;
      if i < |devs| {
        OnlyAt(devs, path, i);
      }
    }

    method PairDevice(path: Path, sendOk: bool, startOk: bool)
      requires Unique(devs)
      modifies this`devs, this`pairsInFlight, this`calls, this`nextCall, this`discoveryActive
      ensures View() == TapPair(old(View()), path, sendOk, startOk) && Unique(devs)
    {
      var idle := DeviceIdle(path);
      if !idle {
        return;
      }
      BeginPairing(startOk);
      SendPairing(path, sendOk, startOk);
    }

    method BeginPairing(startOk: bool)
      modifies this`pairsInFlight, this`calls, this`nextCall, this`discoveryActive
      ensures View() == PairBegan(old(View()), startOk)
    {
      pairsInFlight := pairsInFlight + 1;
      assert View() == old(View()).(pairs := pairsInFlight);
      UpdateDiscovery(startOk);
    }

    method SendPairing(path: Path, sendOk: bool, startOk: bool)
      requires Unique(devs)
      modifies this`devs, this`pairsInFlight, this`calls, this`nextCall, this`discoveryActive
      ensures View() == SendPair(old(View()), path, sendOk, startOk) && Unique(devs)
    {
      var sent := SendCall(Pair, path, sendOk);
      if sent {
        SetOp(path, Pairing);
      } else {
        FinishPair(startOk);
      }
    }

    method OnAdapterChanged(path: Path, power: Option<bool>, startOk: bool)
      requires Unique(devs) && bus
      modifies this`powered, this`discoveryActive, this`autoconnectDue, this`devs, this`calls, this`nextCall
      ensures View() == Apply(old(View()), AdapterChanged(path, power, startOk)) && Unique(devs)
    {
      if path == adapter {
        AdapterProp(power);
        UpdateDiscovery(startOk);
      }
    }

    method DisconnectDevice(path: Path, sendOk: bool)
      requires Unique(devs)
      modifies this`devs, this`calls, this`nextCall
      ensures View() == Apply(old(View()), DisconnectTapped(path, sendOk)) && Unique(devs)
    {
      var idle := DeviceIdle(path);
      if idle {
        var sent := SendCall(Disconnect, path, sendOk);
        if sent {
          SetOp(path, Disconnecting);
        }
      }
    }

    method ConnectDevice(path: Path, sendOk: bool)
      requires Unique(devs)
      modifies this`devs, this`calls, this`nextCall
      ensures View() == Apply(old(View()), ConnectTapped(path, sendOk)) && Unique(devs)
    {
      var idle := DeviceIdle(path);
      if idle {
        var sent := SendConnect(path, Asked, sendOk);
      }
    }

    method OpenBus(matched: bool, sendOk: bool)
      requires Unique(devs) && !bus
      modifies this
      ensures View() == Apply(old(View()), BusOpened(matched, sendOk)) && Unique(devs)
    {
      bus := true;
      if matched {
        FetchObjects(sendOk);
      } else {
        CloseBus();
      }
    }

    method WantScan(wanted: bool, startOk: bool)
      modifies this`scanWanted, this`calls, this`nextCall, this`discoveryActive
      ensures View() == BluetoothCalls.UpdateDiscovery(old(View()).(scanWanted := wanted), startOk)
    {
      scanWanted := wanted;
      assert View() == old(View()).(scanWanted := wanted);
      UpdateDiscovery(startOk);
    }

    method FromUser(e: Event)
      requires Enabled(View(), e) && Unique(devs)
      requires e.ScanStart? || e.ScanStop? || e.PairTapped? || e.ConnectTapped? || e.DisconnectTapped? || e.AutoconnectDue?
      modifies this
      ensures View() == Apply(old(View()), e) && Unique(devs)
    {
      match e {
        case ScanStart(startOk) => WantScan(true, startOk);
        case ScanStop(startOk) => WantScan(false, startOk);
        case PairTapped(path, sendOk, startOk) => PairDevice(path, sendOk, startOk);
        case ConnectTapped(path, sendOk) => ConnectDevice(path, sendOk);
        case DisconnectTapped(path, sendOk) => DisconnectDevice(path, sendOk);
        case AutoconnectDue(sendOk) => autoconnectDue := false; AutoconnectNext(sendOk);
      }
    }

    method FromBus(e: Event)
      requires Enabled(View(), e) && Unique(devs)
      requires e.InterfacesAdded? || e.InterfacesRemoved? || e.AdapterChanged? || e.DeviceChanged?
               || e.OwnerGone? || e.OwnerCame? || e.BusLost? || e.BusOpened?
      modifies this
      ensures View() == Apply(old(View()), e) && Unique(devs)
    {
      match e {
        case InterfacesAdded(o, startOk) =>
          if bluezUp {
            ParseObject(o.path, o.ifaces, true, true);
            UpdateDiscovery(startOk);
          }
        case InterfacesRemoved(path, ifaces, sendOk) => OnInterfacesRemoved(path, ifaces, sendOk);
        case AdapterChanged(path, power, startOk) => OnAdapterChanged(path, power, startOk);
        case DeviceChanged(path, props) => DeviceProps(path, props);
        case OwnerGone => ResetMirror(); bluezUp := false;
        case OwnerCame(sendOk) => FetchObjects(sendOk);
        case BusLost => CloseBus();
        case BusOpened(matched, sendOk) => OpenBus(matched, sendOk);
      }
    }

    /** What the user, the timer, BlueZ and the bus bring about is a step of the relation, so it keeps its
        invariant. */
    method Handle(e: Event)
      requires Enabled(View(), e) && Inv(View())
      modifies this
      ensures View() == Apply(old(View()), e) && Inv(View())
    {
      StepInv(View(), e);
      if e.Reply? {
        OnReply(e.id, e.outcome, e.objects, e.wellFormed, e.sendOk, e.startOk);
      } else if e.ScanStart? || e.ScanStop? || e.PairTapped? || e.ConnectTapped? || e.DisconnectTapped? || e.AutoconnectDue? {
        FromUser(e);
      } else {
        FromBus(e);
      }
    }
  }

  /** A path found is found once. */
  lemma OnlyAt(devs: seq<Device>, path: Path, i: nat)
    requires Unique(devs) && i < |devs| && devs[i].path == path
    ensures forall k :: 0 <= k < |devs| && k != i ==> devs[k].path != path
  {
    forall k | 0 <= k < |devs| && k != i ensures devs[k].path != path {
      if k < i {
        assert devs[k].path != devs[i].path;
      } else {
        assert devs[i].path != devs[k].path;
      }
    }
  }

  lemma StillUnique(was: seq<Device>, devs: seq<Device>)
    requires Unique(was) && SamePaths(devs, was)
    ensures Unique(devs)
  {
    forall i, k | 0 <= i < k < |devs| ensures devs[i].path != devs[k].path {
      assert was[i].path != was[k].path;
    }
  }

  lemma {:induction false} NoneRemoved(devs: seq<Device>, path: Path)
    requires forall k :: 0 <= k < |devs| ==> devs[k].path != path
    ensures Removed(devs, path) == devs
  {
    if devs != [] {
      assert devs[0].path != path;
      NoneRemoved(devs[1..], path);
      assert [devs[0]] + devs[1..] == devs;
    }
  }

  /** Taking the device found out of the array takes out all there is of that path. */
  lemma {:induction false} RemovedAt(devs: seq<Device>, path: Path, i: nat)
    requires Unique(devs) && i <= |devs| && (i < |devs| ==> devs[i].path == path)
    requires forall k :: 0 <= k < i ==> devs[k].path != path
    ensures Removed(devs, path) == if i < |devs| then devs[..i] + devs[i + 1..] else devs
  {
    if i == |devs| {
      NoneRemoved(devs, path);
    } else if i == 0 {
      OnlyAt(devs, path, 0);
      NoneRemoved(devs[1..], path);
    } else {
      RemovedAt(devs[1..], path, i - 1);
      OneBefore(devs, i);
    }
  }

  lemma OneBefore(devs: seq<Device>, i: nat)
    requires 0 < i < |devs|
    ensures devs[..i] + devs[i + 1..] == [devs[0]] + (devs[1..][..i - 1] + devs[1..][i..])
  {
  }
}
