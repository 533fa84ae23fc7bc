/**
 What a snapshot of BlueZ's objects leaves in the mirror: the first adapter with its last
 power, and a device for each object under it, each property as last told. And what the
 messages and the reconnect round do to one device.
 */
module BluetoothSnapshot {
  import opened Wrappers
  import opened BluetoothCalls
  import opened BluetoothSafety
  import opened BluetoothEffects

  // --- A snapshot, interface by interface ---

  datatype Entry = Entry(path: Path, iface: Iface)

  function Entries(path: Path, ifaces: seq<Iface>): (r: seq<Entry>)
    ensures |r| == |ifaces| && forall i :: 0 <= i < |r| ==> r[i] == Entry(path, ifaces[i])
  {
    seq(|ifaces|, i requires 0 <= i < |ifaces| => Entry(path, ifaces[i]))
  }

  /** The interfaces of the objects, in order. */
  function Flat(objects: seq<Object>): seq<Entry> {
    if objects == [] then [] else Entries(objects[0].path, objects[0].ifaces) + Flat(objects[1..])
  }

  function TakeAll(st: State, entries: seq<Entry>, adapters: bool, devices: bool): State
    decreases |entries|
  {
    if entries == [] then st
    else TakeAll(TakeIface(st, entries[0].path, entries[0].iface, adapters, devices), entries[1..], adapters, devices)
  }

  lemma {:induction false} TakeMore(st: State, path: Path, ifaces: seq<Iface>, rest: seq<Entry>, adapters: bool, devices: bool)
    ensures TakeAll(st, Entries(path, ifaces) + rest, adapters, devices)
         == TakeAll(TakeIfaces(st, path, ifaces, adapters, devices), rest, adapters, devices)
    decreases |ifaces|
  {
    if ifaces == [] {
      assert Entries(path, ifaces) + rest == rest;
    } else {
      assert (Entries(path, ifaces) + rest)[1..] == Entries(path, ifaces[1..]) + rest;
      TakeMore(TakeIface(st, path, ifaces[0], adapters, devices), path, ifaces[1..], rest, adapters, devices);
    }
  }

  lemma {:induction false} TakenFlat(st: State, objects: seq<Object>, adapters: bool, devices: bool)
    ensures TakeObjects(st, objects, adapters, devices) == TakeAll(st, Flat(objects), adapters, devices)
    decreases |objects|
  {
    if objects != [] {
      TakeMore(st, objects[0].path, objects[0].ifaces, Flat(objects[1..]), adapters, devices);
      TakenFlat(TakeIfaces(st, objects[0].path, objects[0].ifaces, adapters, devices), objects[1..], adapters, devices);
    }
  }

  // --- The adapter ---

  predicate IsAdapter(e: Entry) {
    e.iface.AdapterIface? && |e.path.name| < PATH_SIZE
  }

  /** The path of the first adapter there is. */
  function FirstAdapter(entries: seq<Entry>): Path {
    if entries == [] then NOWHERE else if IsAdapter(entries[0]) then entries[0].path else FirstAdapter(entries[1..])
  }

  /** What was last told of an adapter's power; at first it is `was`. */
  function LastPower(entries: seq<Entry>, path: Path, was: bool): bool {
    if entries == [] then was
    else
      var told := IsAdapter(entries[0]) && entries[0].path == path && entries[0].iface.power.Some?;
      LastPower(entries[1..], path, if told then entries[0].iface.power.value else was)
  }

  /** As D-Bus has it, no object is without a path. */
  predicate Placed(entries: seq<Entry>) {
    forall e :: e in entries ==> e.path != NOWHERE
  }

  lemma PowerTaken(st: State, path: Path, power: Option<bool>)
    ensures var next := MaybePower(st.(adapter := path), power);
            next.adapter == path && next.powered == (if power.Some? then power.value else st.powered)
  {
  }

  lemma {:induction false} AdapterTaken(st: State, entries: seq<Entry>)
    requires Placed(entries)
    ensures var next := TakeAll(st, entries, true, false);
            var path := if st.adapter != NOWHERE then st.adapter else FirstAdapter(entries);
            next.adapter == path && next.powered == LastPower(entries, path, st.powered)
    decreases |entries|
  {
    if entries != [] {
      var e := entries[0];
      assert e.path != NOWHERE;
      if IsAdapter(e) {
        PowerTaken(st, e.path, e.iface.power);
      }
      var s := TakeIface(st, e.path, e.iface, true, false);
      AdapterTaken(s, entries[1..]);
      if s.adapter == NOWHERE {
        NoAdapterNoPower(entries[1..], s.powered);
      }
    }
  }

  /** Nothing is told of the power of no adapter. */
  lemma {:induction false} NoAdapterNoPower(entries: seq<Entry>, was: bool)
    requires Placed(entries)
    ensures LastPower(entries, NOWHERE, was) == was
  {
    if entries != [] {
      assert entries[0].path != NOWHERE;
      NoAdapterNoPower(entries[1..], was);
    }
  }

  // --- The devices ---

  /** The first device of that path. */
  function Row(devs: seq<Device>, path: Path): Option<Device> {
    if devs == [] then None else if devs[0].path == path then Some(devs[0]) else Row(devs[1..], path)
  }

  predicate IsDevice(e: Entry, adapter: Path, path: Path) {
    e.iface.DeviceIface? && e.path == path && UnderAdapter(adapter, path)
  }

  /** The device as all of that tells it. */
  function Heard(entries: seq<Entry>, adapter: Path, path: Path, d: Device): Device {
    if entries == [] then d
    else Heard(entries[1..], adapter, path,
      if IsDevice(entries[0], adapter, path) then WithProps(d, entries[0].iface.props) else d)
  }

  predicate Mentioned(entries: seq<Entry>, adapter: Path, path: Path) {
    |path.name| < PATH_SIZE && exists i :: 0 <= i < |entries| && IsDevice(entries[i], adapter, path)
  }

  lemma {:induction false} KnownRow(devs: seq<Device>, path: Path)
    ensures Known(devs, path) <==> Row(devs, path).Some?
  {
    if devs != [] {
      KnownRow(devs[1..], path);
      if Known(devs, path) && devs[0].path != path {
        var i :| 0 <= i < |devs| && devs[i].path == path;
        assert devs[1..][i - 1].path == path;
      }
    }
  }

  lemma {:induction false} RowAppended(devs: seq<Device>, d: Device, path: Path)
    ensures Row(devs + [d], path)
         == if Row(devs, path).Some? then Row(devs, path) else if d.path == path then Some(d) else None
  {
    if devs != [] {
      assert (devs + [d])[1..] == devs[1..] + [d];
      RowAppended(devs[1..], d, path);
    }
  }

  lemma {:induction false} RowProps(devs: seq<Device>, at: Path, p: Props, path: Path)
    ensures Row(PropsSet(devs, at, p), path)
         == if at == path && Row(devs, path).Some? then Some(WithProps(Row(devs, path).value, p)) else Row(devs, path)
  {
    if devs != [] {
      assert PropsSet(devs, at, p)[1..] == PropsSet(devs[1..], at, p);
      RowProps(devs[1..], at, p, path);
    }
  }

  function OrNew(d: Option<Device>, path: Path): Device {
    if d.Some? then d.value else NewDevice(path)
  }

  lemma DeviceTaken(st: State, e: Entry, path: Path)
    requires e.iface.DeviceIface? && UnderAdapter(st.adapter, e.path)
    ensures var next := TakeIface(st, e.path, e.iface, false, true);
            var was := Row(st.devs, path);
            next.adapter == st.adapter
            && Row(next.devs, path)
               == (if e.path != path || (was.None? && |path.name| >= PATH_SIZE) then was
                   else Some(WithProps(OrNew(was, path), e.iface.props)))
  {
    var devs := if Known(st.devs, e.path) then st.devs else Added(st.devs, e.path);
    KnownRow(st.devs, e.path);
    RowAppended(st.devs, NewDevice(e.path), path);
    RowProps(devs, e.path, e.iface.props, path);
  }

  /** Every path holds what all entries of it tell of a device, beginning with what was there, or with a new one
      if it is named at all. */
  lemma {:induction false} DevicesTaken(st: State, entries: seq<Entry>, path: Path)
    ensures var next := TakeAll(st, entries, false, true);
            var was := Row(st.devs, path);
            next.adapter == st.adapter && next.powered == st.powered
            && Row(next.devs, path)
               == (if was.None? && !Mentioned(entries, st.adapter, path) then None
                   else Some(Heard(entries, st.adapter, path, OrNew(was, path))))
    decreases |entries|
  {
    if entries != [] {
      var e := entries[0];
      var s := TakeIface(st, e.path, e.iface, false, true);
      if e.iface.DeviceIface? && UnderAdapter(st.adapter, e.path) {
        DeviceTaken(st, e, path);
      }
      DevicesTaken(s, entries[1..], path);
      MentionedRest(entries, st.adapter, path);
    }
  }

  lemma MentionedRest(entries: seq<Entry>, adapter: Path, path: Path)
    requires entries != []
    ensures Mentioned(entries, adapter, path)
       <==> (|path.name| < PATH_SIZE && IsDevice(entries[0], adapter, path)) || Mentioned(entries[1..], adapter, path)
  {
    if Mentioned(entries, adapter, path) && !IsDevice(entries[0], adapter, path) {
      var i :| 0 <= i < |entries| && IsDevice(entries[i], adapter, path);
      assert entries[1..][i - 1] == entries[i];
    }
    if Mentioned(entries[1..], adapter, path) {
      var i :| 0 <= i < |entries[1..]| && IsDevice(entries[1..][i], adapter, path);
      assert entries[i + 1] == entries[1..][i];
    }
  }

  datatype Prop = Paired | Bonded | Trusted | Connected | Audio | Aap

  function Told(p: Props, prop: Prop): Option<bool> {
    match prop
    case Paired => p.paired
    case Bonded => p.bonded
    case Trusted => p.trusted
    case Connected => p.connected
    case Audio => p.audio
    case Aap => p.aap
  }

  function Has(d: Device, prop: Prop): bool {
    match prop
    case Paired => d.paired
    case Bonded => d.bonded
    case Trusted => d.trusted
    case Connected => d.connected
    case Audio => d.audio
    case Aap => d.aap
  }

  /** The last value told of one property; at first it is `was`. */
  function LastTold(entries: seq<Entry>, path: Path, prop: Prop, was: bool): bool {
    if entries == [] then was
    else
      var e := entries[0];
      var told := e.iface.DeviceIface? && e.path == path && Told(e.iface.props, prop).Some?;
      LastTold(entries[1..], path, prop, if told then Told(e.iface.props, prop).value else was)
  }

  lemma {:induction false} HeardAsTold(entries: seq<Entry>, adapter: Path, path: Path, d: Device, prop: Prop)
    requires UnderAdapter(adapter, path)
    ensures var r := Heard(entries, adapter, path, d);
            Has(r, prop) == LastTold(entries, path, prop, Has(d, prop))
            && r.path == d.path && r.op == d.op && r.tried == d.tried
  {
    if entries != [] {
      HeardAsTold(entries[1..], adapter, path,
        if IsDevice(entries[0], adapter, path) then WithProps(d, entries[0].iface.props) else d, prop);
    }
  }

  lemma {:induction false} RowUntried(devs: seq<Device>, path: Path)
    ensures Row(Untried(devs), path)
         == if Row(devs, path).Some? then Some(Row(devs, path).value.(tried := false)) else None
  {
    if devs != [] {
      assert Untried(devs)[1..] == Untried(devs[1..]);
      RowUntried(devs[1..], path);
    }
  }

  /** Known to the mirror, as the snapshot tells it: idle, untried, and each property as last told; a new device
      counts as bonded and as nothing else. */
  ghost predicate ShownAsTold(d: Device, entries: seq<Entry>, path: Path) {
    && d.path == path && d.op == Idle && !d.tried
    && forall prop: Prop :: Has(d, prop) == LastTold(entries, path, prop, prop == Bonded)
  }

  /** A snapshot's devices are those named under its adapter, each as told. */
  ghost predicate DevicesShown(devs: seq<Device>, entries: seq<Entry>, adapter: Path) {
    forall path :: Shown(devs, entries, adapter, path)
  }

  ghost predicate Shown(devs: seq<Device>, entries: seq<Entry>, adapter: Path, path: Path) {
    && (Row(devs, path).Some? <==>
          UnderAdapter(adapter, path) && |path.name| < PATH_SIZE
          && exists e :: e in entries && e.path == path && e.iface.DeviceIface?)
    && (Row(devs, path).Some? ==> ShownAsTold(Row(devs, path).value, entries, path))
  }

  lemma MentionedIs(entries: seq<Entry>, adapter: Path, path: Path)
    ensures Mentioned(entries, adapter, path)
       <==> UnderAdapter(adapter, path) && |path.name| < PATH_SIZE
            && exists e :: e in entries && e.path == path && e.iface.DeviceIface?
  {
    if e :| e in entries && e.path == path && e.iface.DeviceIface? {
      var i :| 0 <= i < |entries| && entries[i] == e;
      assert UnderAdapter(adapter, path) ==> IsDevice(entries[i], adapter, path);
    }
    if Mentioned(entries, adapter, path) {
      var i :| 0 <= i < |entries| && IsDevice(entries[i], adapter, path);
      assert entries[i] in entries;
    }
  }

  lemma FirstHeard(st: State, entries: seq<Entry>, path: Path)
    requires st.devs == []
    ensures Shown(TakeAll(st, entries, false, true).devs, entries, st.adapter, path)
  {
    DevicesTaken(st, entries, path);
    MentionedIs(entries, st.adapter, path);
    if Mentioned(entries, st.adapter, path) {
      forall prop: Prop
        ensures Has(Heard(entries, st.adapter, path, NewDevice(path)), prop) == LastTold(entries, path, prop, prop == Bonded)
      {
        HeardAsTold(entries, st.adapter, path, NewDevice(path), prop);
      }
      HeardAsTold(entries, st.adapter, path, NewDevice(path), Paired);
    }
  }

  lemma UntriedShown(devs: seq<Device>, entries: seq<Entry>, adapter: Path, path: Path)
    requires Shown(devs, entries, adapter, path)
    ensures Shown(Untried(devs), entries, adapter, path)
  {
    RowUntried(devs, path);
  }

  /** A snapshot in its own generation leaves the first adapter with its last power, exactly the devices named
      under it, each property as last told, a round of reconnects if there is power, and no pairing. */
  lemma SnapshotShows(st: State, id: nat, objects: seq<Object>, startOk: bool)
    requires Inv(st) && Awaited(st, id, Snapshot) && Placed(Flat(objects))
    ensures var next := Apply(st, Reply(id, Success, objects, true, true, startOk));
            var entries := Flat(objects);
            && next.up && next.adapter == FirstAdapter(entries)
            && next.powered == LastPower(entries, next.adapter, false)
            && (next.powered ==> next.due) && next.pairs == 0
            && (if next.adapter == NOWHERE then next.devs == [] else DevicesShown(next.devs, entries, next.adapter))
  {
    var s := Reset(Answered(st, id)).(up := true);
    var entries := Flat(objects);
    var s1 := TakeObjects(s, objects, true, false);
    TakenFlat(s, objects, true, false);
    AdapterTaken(s, entries);
    AdaptersOnly(s, entries);
    TakenFlat(s1, objects, false, true);
    var s2 := if s1.adapter != NOWHERE then TakeObjects(s1, objects, false, true) else s1;
    DevicesOnly(s1, entries);
    var s3 := if s2.powered then s2.(due := true, devs := Untried(s2.devs)) else s2;
    if s1.adapter != NOWHERE {
      forall path ensures Shown(s3.devs, entries, s1.adapter, path) {
        FirstHeard(s1, entries, path);
        UntriedShown(s2.devs, entries, s1.adapter, path);
      }
    } else {
      NoAdapterNoPower(entries, false);
    }
    Updated(s3, startOk);
  }

  lemma Updated(st: State, startOk: bool)
    ensures var next := UpdateDiscovery(st, startOk);
            next.up == st.up && next.adapter == st.adapter && next.powered == st.powered && next.due == st.due
            && next.pairs == st.pairs && next.devs == st.devs
  {
  }

  /** The adapters' pass: a round is due only with power, and no device appears. */
  lemma {:induction false} AdaptersOnly(st: State, entries: seq<Entry>)
    requires st.devs == []
    ensures var next := TakeAll(st, entries, true, false);
            next.devs == [] && next.pairs == st.pairs && next.up == st.up
    decreases |entries|
  {
    if entries != [] {
      AdapterOnly(st, entries[0]);
      AdaptersOnly(TakeIface(st, entries[0].path, entries[0].iface, true, false), entries[1..]);
    }
  }

  lemma AdapterOnly(st: State, e: Entry)
    requires st.devs == []
    ensures var next := TakeIface(st, e.path, e.iface, true, false);
            next.devs == [] && next.pairs == st.pairs && next.up == st.up
  {
    if e.iface.AdapterIface? {
      PowerOnly(st.(adapter := e.path), e.iface.power);
    }
  }

  lemma PowerOnly(st: State, power: Option<bool>)
    requires st.devs == []
    ensures var next := MaybePower(st, power);
            next.devs == [] && next.pairs == st.pairs && next.up == st.up
  {
  }

  lemma DeviceOnly(st: State, e: Entry)
    ensures var next := TakeIface(st, e.path, e.iface, false, true);
            next.pairs == st.pairs && next.up == st.up && next.due == st.due
            && next.adapter == st.adapter && next.powered == st.powered
  {
  }

  lemma {:induction false} DevicesOnly(st: State, entries: seq<Entry>)
    ensures var next := TakeAll(st, entries, false, true);
            next.pairs == st.pairs && next.up == st.up && next.due == st.due
            && next.adapter == st.adapter && next.powered == st.powered
    decreases |entries|
  {
    if entries != [] {
      DeviceOnly(st, entries[0]);
      DevicesOnly(TakeIface(st, entries[0].path, entries[0].iface, false, true), entries[1..]);
    }
  }

  // --- One message about a device ---

  /** A device told of anew takes the properties told and keeps the rest; no other device is touched. */
  lemma DeviceTold(st: State, path: Path, props: Props)
    requires st.open
    ensures var next := Apply(st, DeviceChanged(path, props));
            |next.devs| == |st.devs|
            && forall i :: 0 <= i < |st.devs| ==>
                 if st.devs[i].path == path then TakesProps(st.devs[i], props, next.devs[i]) else next.devs[i] == st.devs[i]
  {
    forall d: Device ensures TakesProps(d, props, WithProps(d, props)) {
      PropsTaken(d, props);
    }
  }

  lemma PropsTaken(d: Device, props: Props)
    ensures TakesProps(d, props, WithProps(d, props))
  {
  }

  ghost predicate TakesProps(d: Device, props: Props, next: Device) {
    && next.path == d.path && next.op == d.op && next.tried == d.tried
    && forall prop: Prop :: Has(next, prop) == if Told(props, prop).Some? then Told(props, prop).value else Has(d, prop)
  }

  // --- The reconnect round ---

  /** Not asked yet in this round, ours, a listening device, and idle. */
  predicate InTurn(d: Device) {
    !d.tried && d.paired && d.bonded && d.trusted && d.audio && !d.connected && d.op == Idle
  }

  /** The first in turn of those that speak AAP, or of all if none of them does. */
  predicate IsNext(devs: seq<Device>, k: nat) {
    && k < |devs| && InTurn(devs[k])
    && (forall j :: 0 <= j < k ==> InTurn(devs[j]) ==> devs[k].aap && !devs[j].aap)
    && (devs[k].aap || forall j :: 0 <= j < |devs| ==> InTurn(devs[j]) ==> !devs[j].aap)
  }

  lemma PickIsNext(devs: seq<Device>)
    ensures Pick(devs) < |devs| ==> IsNext(devs, Pick(devs))
    ensures Pick(devs) == |devs| ==> forall d :: d in devs ==> !InTurn(d)
    ensures forall k :: IsNext(devs, k) ==> k == Pick(devs)
  {
    var k := FirstEligible(devs, true, 0);
    var m := FirstEligible(devs, false, 0);
    assert forall d :: Eligible(d) <==> InTurn(d);
  }

  predicate NoneListens(devs: seq<Device>) {
    forall d :: d in devs ==> !(d.audio && d.connected)
  }

  lemma NoneListening(devs: seq<Device>)
    ensures Listening(devs) <==> !NoneListens(devs)
  {
  }

  /** The round's step with the adapter on, nothing being paired, no listening device connected and a device in
      turn: it is asked to connect, and it alone spends its turn. */
  lemma RoundAsks(st: State, k: nat, sendOk: bool)
    requires Unique(st.devs) && st.open && st.up && st.adapter != NOWHERE && st.powered && st.pairs == 0
    requires IsNext(st.devs, k) && NoneListens(st.devs)
    ensures var next := AutoconnectNext(st, sendOk);
            && |next.devs| == |st.devs|
            && (forall i :: 0 <= i < |st.devs| && i != k ==> next.devs[i] == st.devs[i])
            && next.devs[k] == st.devs[k].(tried := true, op := if sendOk then Connecting else Idle)
            && (if sendOk then Sent(next, st.nextCall, st.calls, Connect(Auto), st.devs[k].path)
                else next.calls == st.calls)
            && next.gen == st.gen && SameTerms(st, next)
  {
    PickIsNext(st.devs);
    NoneListening(st.devs);
    var s := st.(devs := st.devs[k := st.devs[k].(tried := true)]);
    SentAndMarked(s, Connect(Auto), st.devs[k].path, Connecting);
  }

  /** In every other case the step does nothing. */
  lemma RoundRests(st: State, sendOk: bool)
    requires !(st.open && st.up && st.adapter != NOWHERE && st.powered && st.pairs == 0)
          || !NoneListens(st.devs) || forall d :: d in st.devs ==> !InTurn(d)
    ensures AutoconnectNext(st, sendOk) == st
  {
    PickIsNext(st.devs);
    NoneListening(st.devs);
  }

  /** The step is made when it falls due, and again for each device that did not answer, which is idle by then. */
  lemma RoundGoesOn(st: State, id: nat, sendOk: bool)
    requires Awaited(st, id, Connect(Auto))
    ensures var path := st.calls[id].path;
            var idle := seq(|st.devs|, i requires 0 <= i < |st.devs| =>
                          if st.devs[i].path == path then st.devs[i].(op := Idle) else st.devs[i]);
            Apply(st, Reply(id, Error, [], true, sendOk, true))
            == AutoconnectNext(st.(calls := st.calls - {id}, devs := idle), sendOk)
    ensures st.due ==> Apply(st, AutoconnectDue(sendOk)) == AutoconnectNext(st.(due := false), sendOk)
  {
    assert OpSet(st.devs, st.calls[id].path, Idle)
        == seq(|st.devs|, i requires 0 <= i < |st.devs| =>
                 if st.devs[i].path == st.calls[id].path then st.devs[i].(op := Idle) else st.devs[i]);
  }

  /** Power that comes on while BlueZ is there makes a round due, with every device's turn given back. */
  lemma PowerStartsRound(st: State, startOk: bool)
    requires st.open && st.up && !st.powered
    ensures var next := Apply(st, AdapterChanged(st.adapter, Some(true), startOk));
            next.powered && next.due && |next.devs| == |st.devs|
            && forall i :: 0 <= i < |st.devs| ==> next.devs[i] == st.devs[i].(tried := false)
  {
  }

  /** The adapter's power is what it was told last; off ends discovery. */
  lemma PowerFollows(st: State, on: bool, startOk: bool)
    requires st.open
    ensures var next := Apply(st, AdapterChanged(st.adapter, Some(on), startOk));
            next.powered == on && (!on ==> !next.discovering)
  {
  }

  /** Under an adapter are the paths that begin with its own and a slash. */
  lemma UnderIs(adapter: Path, path: Path)
    ensures UnderAdapter(adapter, path) <==> adapter.name != "" && exists rest: string :: path.name == adapter.name + "/" + rest
  {
    if UnderAdapter(adapter, path) {
      var n := |adapter.name|;
      assert path.name == adapter.name + "/" + path.name[n + 1..];
    }
    if adapter.name != "" {
      if rest: string :| path.name == adapter.name + "/" + rest {
        assert path.name[..|adapter.name|] == adapter.name;
      }
    }
  }

  // --- What goes ---

  lemma {:induction false} RowRemoved(devs: seq<Device>, gone: Path, path: Path)
    ensures Row(Removed(devs, gone), path) == if path == gone then None else Row(devs, path)
  {
    if devs != [] {
      RowRemoved(devs[1..], gone, path);
      if devs[0].path != gone {
        assert ([devs[0]] + Removed(devs[1..], gone))[1..] == Removed(devs[1..], gone);
      } else {
        assert [] + Removed(devs[1..], gone) == Removed(devs[1..], gone);
      }
    }
  }

  predicate HasDevice(ifaces: seq<Iface>) {
    exists i :: 0 <= i < |ifaces| && ifaces[i].DeviceIface?
  }

  /** The adapter itself is not among what goes. */
  predicate AdapterStays(st: State, path: Path, ifaces: seq<Iface>) {
    path != st.adapter || forall i :: 0 <= i < |ifaces| ==> !ifaces[i].AdapterIface?
  }

  /** What is left of the devices. */
  function Left(devs: seq<Device>, path: Path, ifaces: seq<Iface>): seq<Device>
    decreases |ifaces|
  {
    if ifaces == [] then devs else Left(if ifaces[0].DeviceIface? then Removed(devs, path) else devs, path, ifaces[1..])
  }

  lemma DropStep(st: State, path: Path, ifaces: seq<Iface>, sendOk: bool, s: State)
    requires AdapterStays(st, path, ifaces) && ifaces != []
    requires s == if ifaces[0].DeviceIface? then st.(devs := Removed(st.devs, path)) else st
    ensures DropIfaces(st, path, ifaces, sendOk) == DropIfaces(s, path, ifaces[1..], sendOk)
    ensures AdapterStays(s, path, ifaces[1..])
  {
  }

  lemma {:induction false} OnlyDevicesGo(st: State, path: Path, ifaces: seq<Iface>, sendOk: bool)
    requires AdapterStays(st, path, ifaces)
    ensures DropIfaces(st, path, ifaces, sendOk) == st.(devs := Left(st.devs, path, ifaces))
    decreases |ifaces|
  {
    if ifaces != [] {
      var s := if ifaces[0].DeviceIface? then st.(devs := Removed(st.devs, path)) else st;
      DropStep(st, path, ifaces, sendOk, s);
      OnlyDevicesGo(s, path, ifaces[1..], sendOk);
    }
  }

  lemma {:induction false} RowLeft(devs: seq<Device>, path: Path, ifaces: seq<Iface>, other: Path)
    ensures Row(Left(devs, path, ifaces), other) == if other == path && HasDevice(ifaces) then None else Row(devs, other)
    decreases |ifaces|
  {
    if ifaces != [] {
      RowRemoved(devs, path, other);
      FirstOrLater(ifaces);
      RowLeft(if ifaces[0].DeviceIface? then Removed(devs, path) else devs, path, ifaces[1..], other);
    }
  }

  lemma FirstOrLater(ifaces: seq<Iface>)
    requires ifaces != []
    ensures HasDevice(ifaces) <==> ifaces[0].DeviceIface? || HasDevice(ifaces[1..])
  {
    if i :| 0 < i < |ifaces| && ifaces[i].DeviceIface? {
      assert ifaces[1..][i - 1].DeviceIface?;
    }
    if i :| 0 <= i < |ifaces[1..]| && ifaces[1..][i].DeviceIface? {
      assert ifaces[i + 1].DeviceIface?;
    }
  }

  /** Interfaces that go take their device with them, and nothing else. */
  lemma DeviceGoes(st: State, path: Path, ifaces: seq<Iface>, sendOk: bool, other: Path)
    requires st.open && AdapterStays(st, path, ifaces)
    ensures var next := Apply(st, InterfacesRemoved(path, ifaces, sendOk));
            && next == st.(devs := next.devs)
            && Row(next.devs, other) == if other == path && HasDevice(ifaces) then None else Row(st.devs, other)
  {
    OnlyDevicesGo(st, path, ifaces, sendOk);
    RowLeft(st.devs, path, ifaces, other);
  }

  /** Nothing is known any more, so many generations later. */
  predicate Forgotten(st: State, next: State, raised: nat) {
    && next.adapter == NOWHERE && !next.powered && next.devs == [] && !next.discovering && next.pairs == 0 && !next.due
    && next.gen == st.gen + raised
  }

  /** When the adapter goes, all goes, and what is left is asked for. */
  lemma {:induction false} AdapterGoes(st: State, ifaces: seq<Iface>, sendOk: bool)
    requires exists i :: 0 <= i < |ifaces| && ifaces[i].AdapterIface?
    ensures var next := DropIfaces(st, st.adapter, ifaces, sendOk);
            Forgotten(st, next, 2) && Asked(st, next, sendOk)
    decreases |ifaces|
  {
    if !ifaces[0].AdapterIface? {
      var s := if ifaces[0].DeviceIface? then st.(devs := Removed(st.devs, st.adapter)) else st;
      var i :| 0 <= i < |ifaces| && ifaces[i].AdapterIface?;
      assert ifaces[1..][i - 1].AdapterIface?;
      AdapterGoes(s, ifaces[1..], sendOk);
    }
  }

  /** A request for a snapshot was sent, if it could be, and nothing else. */
  predicate Asked(st: State, next: State, sendOk: bool) {
    if st.open && sendOk then Sent(next, st.nextCall, st.calls, Snapshot, NOWHERE) else next.calls == st.calls
  }

  /** When bluetoothd goes nothing is known; when it comes what there is is asked for, and what is shown stays until the
      answer. */
  lemma OwnerTells(st: State, sendOk: bool)
    requires st.open
    ensures var gone := Apply(st, OwnerGone);
            Forgotten(st, gone, 1) && !gone.up && gone.calls == st.calls
    ensures var came := Apply(st, OwnerCame(sendOk));
            came.gen == st.gen + 1 && Asked(st, came, sendOk) && came.devs == st.devs && SameTerms(st, came)
  {
  }

  /** A bus that is opened asks for what there is, or is closed again. */
  lemma OpenTells(st: State, matched: bool, sendOk: bool)
    requires !st.open
    ensures var next := Apply(st, BusOpened(matched, sendOk));
            if matched then next.open && next.gen == st.gen + 1 && Asked(st.(open := true), next, sendOk)
            else !next.open && Forgotten(st, next, 1) && next.calls == map[]
  {
    if !matched {
      ClosedTells(st.(open := true));
    }
  }

  lemma ClosedTells(st: State)
    ensures var next := CloseBus(st);
            !next.open && !next.up && Forgotten(st, next, 1) && next.calls == map[]
  {
  }

  /** One that is lost leaves nothing, and no answer to wait for. */
  lemma LossTells(st: State)
    requires st.open
    ensures var next := Apply(st, BusLost);
            !next.open && !next.up && Forgotten(st, next, 1) && next.calls == map[]
  {
    ClosedTells(st);
  }

  /** The search is wanted from the moment the screen opens until it closes. */
  lemma ScanTells(st: State, startOk: bool)
    ensures Apply(st, ScanStart(startOk)).scanWanted && !Apply(st, ScanStop(startOk)).scanWanted
    ensures !Apply(st, ScanStop(startOk)).discovering
  {
  }
}
