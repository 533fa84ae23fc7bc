/**
 The Bluetooth mirror of src/audio/bluetooth.c as values: what each callback and each
 user action does to the mirror of BlueZ's objects and to the calls awaiting a reply, and
 what holds after every run of them. A message is what its parser got out of it; whether
 a call can be sent is an input.
 */
module BluetoothCalls {
  import opened Wrappers

  /** A D-Bus object path; the empty one is none. */
  datatype Path = At(name: string)

  const NOWHERE: Path := At("")

  const PATH_SIZE: nat := 64

  datatype Op = Idle | Pairing | Connecting | Disconnecting

  datatype Device = Device(
    path: Path, op: Op, paired: bool, bonded: bool, trusted: bool, connected: bool, audio: bool, aap: bool, tried: bool)

  /** Why a Connect is sent: the user asked, it finishes our own Pair, or nobody asked. */
  datatype Why = Asked | FromPair | Auto

  datatype Kind = Snapshot | StartDiscovery | Pair | Connect(why: Why) | Disconnect

  /** A call awaiting its reply, with the generation it was sent in. */
  datatype Call = Call(gen: nat, kind: Kind, path: Path)

  /** `lost`: the last request for a snapshot could not be sent, and no reset came after it. */
  datatype State = State(
    open: bool, gen: nat, up: bool, adapter: Path, powered: bool, devs: seq<Device>, due: bool,
    scanWanted: bool, discovering: bool, pairs: nat, calls: map<nat, Call>, nextCall: nat, lost: bool)

  /** One interface of an object, with the properties that matter here. */
  datatype Iface =
    | AdapterIface(power: Option<bool>)
    | DeviceIface(props: Props)
    | OtherIface

  datatype Props = Props(
    paired: Option<bool>, bonded: Option<bool>, trusted: Option<bool>, connected: Option<bool>, audio: Option<bool>, aap: Option<bool>)

  datatype Object = Object(path: Path, ifaces: seq<Iface>)

  /** `Already`: the error that says it was so all along (InProgress, AlreadyExists, AlreadyConnected). */
  datatype Outcome = Success | Already | Error

  datatype Event =
    | ScanStart(startOk: bool)
    | ScanStop(startOk: bool)
    | PairTapped(path: Path, sendOk: bool, startOk: bool)
    | ConnectTapped(path: Path, sendOk: bool)
    | DisconnectTapped(path: Path, sendOk: bool)
    | Reply(id: nat, outcome: Outcome, objects: seq<Object>, wellFormed: bool, sendOk: bool, startOk: bool)
    | InterfacesAdded(object: Object, startOk: bool)
    | InterfacesRemoved(path: Path, ifaces: seq<Iface>, sendOk: bool)
    | AdapterChanged(path: Path, power: Option<bool>, startOk: bool)
    | DeviceChanged(path: Path, props: Props)
    | OwnerGone
    | OwnerCame(sendOk: bool)
    | BusLost
    | BusOpened(matched: bool, sendOk: bool)
    | AutoconnectDue(sendOk: bool)

  // --- The mirror ---

  predicate Known(devs: seq<Device>, path: Path) {
    exists i :: 0 <= i < |devs| && devs[i].path == path
  }

  predicate UnderAdapter(adapter: Path, path: Path) {
    0 < |adapter.name| < |path.name| && path.name[..|adapter.name|] == adapter.name && path.name[|adapter.name|] == '/'
  }

  function NewDevice(path: Path): Device {
    Device(path, Idle, false, true, false, false, false, false, false)
  }

  /** `add_dev`, on a path not in the list. */
  function Added(devs: seq<Device>, path: Path): seq<Device> {
    if |path.name| < PATH_SIZE then devs + [NewDevice(path)] else devs
  }

  /** `remove_dev`. */
  function Removed(devs: seq<Device>, path: Path): (r: seq<Device>)
    ensures forall d :: d in r ==> d in devs
  {
    if devs == [] then [] else (if devs[0].path == path then [] else [devs[0]]) + Removed(devs[1..], path)
  }

  function Untried(devs: seq<Device>): (r: seq<Device>)
    ensures |r| == |devs| && forall i :: 0 <= i < |r| ==> r[i] == devs[i].(tried := false)
  {
    seq(|devs|, i requires 0 <= i < |devs| => devs[i].(tried := false))
  }

  function Or<T>(o: Option<T>, old_: T): T {
    if o.Some? then o.value else old_
  }

  function WithProps(d: Device, p: Props): Device {
    d.(paired := Or(p.paired, d.paired), bonded := Or(p.bonded, d.bonded), trusted := Or(p.trusted, d.trusted),
       connected := Or(p.connected, d.connected), audio := Or(p.audio, d.audio), aap := Or(p.aap, d.aap))
  }

  function PropsSet(devs: seq<Device>, path: Path, p: Props): (r: seq<Device>)
    ensures |r| == |devs|
    ensures forall i :: 0 <= i < |r| ==> r[i] == if devs[i].path == path then WithProps(devs[i], p) else devs[i]
  {
    seq(|devs|, i requires 0 <= i < |devs| => if devs[i].path == path then WithProps(devs[i], p) else devs[i])
  }

  function OpSet(devs: seq<Device>, path: Path, op: Op): (r: seq<Device>)
    ensures |r| == |devs|
    ensures forall i :: 0 <= i < |r| ==> r[i] == if devs[i].path == path then devs[i].(op := op) else devs[i]
  {
    seq(|devs|, i requires 0 <= i < |devs| => if devs[i].path == path then devs[i].(op := op) else devs[i])
  }

  /** `reset_mirror`. */
  function Reset(st: State): State {
    st.(gen := st.gen + 1, adapter := NOWHERE, powered := false, devs := [], discovering := false, pairs := 0, due := false, lost := false)
  }

  /** `adapter_prop` on Powered. */
  function SetPower(st: State, on: bool): State {
    if !on then st.(powered := false, discovering := false)
    else if !st.powered && st.up then st.(powered := true, due := true, devs := Untried(st.devs))
    else st.(powered := true)
  }

  function MaybePower(st: State, power: Option<bool>): State {
    if power.Some? then SetPower(st, power.value) else st
  }

  function SetProps(st: State, path: Path, p: Props): State {
    st.(devs := PropsSet(st.devs, path, p))
  }

  /** `parse_object`, one interface. */
  function TakeIface(st: State, path: Path, iface: Iface, adapters: bool, devices: bool): State {
    match iface
    case AdapterIface(power) =>
      if adapters && (st.adapter == NOWHERE || st.adapter == path) && |path.name| < PATH_SIZE then
        MaybePower(st.(adapter := path), power)
      else st
    case DeviceIface(props) =>
      if devices && UnderAdapter(st.adapter, path) then
        SetProps(if Known(st.devs, path) then st else st.(devs := Added(st.devs, path)), path, props)
      else st
    case OtherIface => st
  }

  function TakeIfaces(st: State, path: Path, ifaces: seq<Iface>, adapters: bool, devices: bool): State
    decreases |ifaces|
  {
    if ifaces == [] then st
    else TakeIfaces(TakeIface(st, path, ifaces[0], adapters, devices), path, ifaces[1..], adapters, devices)
  }

  function TakeObjects(st: State, objects: seq<Object>, adapters: bool, devices: bool): State
    decreases |objects|
  {
    if objects == [] then st
    else TakeObjects(TakeIfaces(st, objects[0].path, objects[0].ifaces, adapters, devices), objects[1..], adapters, devices)
  }

  // --- Calls ---

  /** `send_call`, when it can. */
  function Send(st: State, kind: Kind, path: Path): State {
    st.(calls := st.calls[st.nextCall := Call(st.gen, kind, path)], nextCall := st.nextCall + 1)
  }

  predicate Wanted(st: State) {
    st.scanWanted && st.adapter != NOWHERE && st.powered && st.pairs == 0
  }

  /** `update_discovery`. */
  function UpdateDiscovery(st: State, startOk: bool): State {
    if Wanted(st) && !st.discovering then
      if st.open && startOk then Send(st.(discovering := true), StartDiscovery, NOWHERE) else st
    else if !Wanted(st) then st.(discovering := false)
    else st
  }

  function SetOp(st: State, path: Path, op: Op): State {
    st.(devs := OpSet(st.devs, path, op))
  }

  function FinishPair(st: State, startOk: bool): State {
    UpdateDiscovery(if st.pairs > 0 then st.(pairs := st.pairs - 1) else st, startOk)
  }

  /** `fetch_objects`: the generation moves on, and the mirror stays. */
  function Fetch(st: State, sendOk: bool): State {
    var s := st.(gen := st.gen + 1);
    if st.open && sendOk then Send(s, Snapshot, NOWHERE).(lost := false) else s.(lost := true)
  }

  function SendConnect(st: State, path: Path, why: Why): State {
    SetOp(Send(st, Connect(why), path), path, Connecting)
  }

  predicate Eligible(d: Device) {
    !d.tried && d.paired && d.bonded && d.trusted && d.audio && !d.connected && d.op == Idle
  }

  /** The first eligible device from the `i`th on, of those with `aap` if it is asked for; or the length. */
  function FirstEligible(devs: seq<Device>, aap: bool, i: nat): (k: nat)
    requires i <= |devs|
    ensures i <= k <= |devs| && (k < |devs| ==> Eligible(devs[k]) && (aap ==> devs[k].aap))
    ensures forall j :: i <= j < k ==> !(Eligible(devs[j]) && (aap ==> devs[j].aap))
    decreases |devs| - i
  {
    if i == |devs| then i
    else if Eligible(devs[i]) && (aap ==> devs[i].aap) then i
    else FirstEligible(devs, aap, i + 1)
  }

  function Pick(devs: seq<Device>): (k: nat)
    ensures k <= |devs| && (k < |devs| ==> Eligible(devs[k]))
  {
    var k := FirstEligible(devs, true, 0);
    if k < |devs| then k else FirstEligible(devs, false, 0)
  }

  predicate On(st: State) {
    st.open && st.up && st.adapter != NOWHERE && st.powered
  }

  predicate Listening(devs: seq<Device>) {
    exists i :: 0 <= i < |devs| && devs[i].audio && devs[i].connected
  }

  /** `autoconnect_next`. */
  function AutoconnectNext(st: State, sendOk: bool): State {
    if !On(st) || st.pairs > 0 || Listening(st.devs) || Pick(st.devs) == |st.devs| then st
    else
      var k := Pick(st.devs);
      var s := st.(devs := st.devs[k := st.devs[k].(tried := true)]);
      if sendOk then SendConnect(s, st.devs[k].path, Auto) else s
  }

  // --- Replies ---

  function Answered(st: State, id: nat): State {
    st.(calls := st.calls - {id})
  }

  /** `on_objects`, in the current generation. */
  function OnSnapshot(st: State, outcome: Outcome, objects: seq<Object>, wellFormed: bool, startOk: bool): State {
    var s := Reset(st);
    if outcome != Success then s.(up := false)
    else
      var s1 := TakeObjects(s.(up := true), objects, true, false);
      var s2 := if wellFormed && s1.adapter != NOWHERE then TakeObjects(s1, objects, false, true) else s1;
      var s3 := if s2.powered then s2.(due := true, devs := Untried(s2.devs)) else s2;
      UpdateDiscovery(s3, startOk)
  }

  function OnPair(st: State, path: Path, outcome: Outcome, sendOk: bool, startOk: bool): State {
    if outcome == Error || !(st.open && sendOk) then FinishPair(SetOp(st, path, Idle), startOk)
    else SendConnect(st, path, FromPair)
  }

  function OnConnect(st: State, path: Path, why: Why, outcome: Outcome, sendOk: bool, startOk: bool): State {
    var s := SetOp(st, path, Idle);
    match why
    case Auto => if outcome == Error then AutoconnectNext(s, sendOk) else s
    case FromPair => FinishPair(s, startOk)
    case Asked => s
  }

  /** A reply's callback: for a call of an older generation, nothing. */
  function OnReply(st: State, id: nat, outcome: Outcome, objects: seq<Object>, wellFormed: bool, sendOk: bool, startOk: bool): State
    requires id in st.calls
  {
    var c := st.calls[id];
    if c.gen != st.gen then Answered(st, id)
    else Acted(Answered(st, id), c, outcome, objects, wellFormed, sendOk, startOk)
  }

  function Acted(
    st: State, c: Call, outcome: Outcome, objects: seq<Object>, wellFormed: bool, sendOk: bool, startOk: bool): State
  {
    match c.kind
    case Snapshot => OnSnapshot(st, outcome, objects, wellFormed, startOk)
    case StartDiscovery => if outcome == Error then st.(discovering := false) else st
    case Pair => OnPair(st, c.path, outcome, sendOk, startOk)
    case Connect(why) => OnConnect(st, c.path, why, outcome, sendOk, startOk)
    case Disconnect => SetOp(st, c.path, Idle)
  }

  // --- Signals, the bus and the user ---

  /** `on_interfaces_removed`: an adapter that is ours ends the list's reading. */
  function DropIfaces(st: State, path: Path, ifaces: seq<Iface>, sendOk: bool): State
    decreases |ifaces|
  {
    if ifaces == [] then st
    else
      match ifaces[0]
      case DeviceIface(_) => DropIfaces(st.(devs := Removed(st.devs, path)), path, ifaces[1..], sendOk)
      case AdapterIface(_) => if path == st.adapter then Fetch(Reset(st), sendOk) else DropIfaces(st, path, ifaces[1..], sendOk)
      case OtherIface => DropIfaces(st, path, ifaces[1..], sendOk)
  }

  predicate IdleDevice(st: State, path: Path) {
    exists i :: 0 <= i < |st.devs| && st.devs[i].path == path && st.devs[i].op == Idle
  }

  /** `close_bus`: no reply will come any more. */
  function CloseBus(st: State): State {
    Reset(st.(open := false, calls := map[])).(up := false)
  }

  /** `rpod_bt_pair`. */
  function TapPair(st: State, path: Path, sendOk: bool, startOk: bool): State {
    if IdleDevice(st, path) then SendPair(PairBegan(st, startOk), path, sendOk, startOk) else st
  }

  /** A pairing is counted, and the search stops for it. */
  function PairBegan(st: State, startOk: bool): State {
    UpdateDiscovery(st.(pairs := st.pairs + 1), startOk)
  }

  function SendPair(st: State, path: Path, sendOk: bool, startOk: bool): State {
    if st.open && sendOk then SetOp(Send(st, Pair, path), path, Pairing) else FinishPair(st, startOk)
  }

  predicate Enabled(st: State, e: Event) {
    match e
    case Reply(id, _, _, _, _, _) => st.open && id in st.calls
    case InterfacesAdded(_, _) => st.open
    case InterfacesRemoved(_, _, _) => st.open
    case AdapterChanged(_, _, _) => st.open
    case DeviceChanged(_, _) => st.open
    case OwnerGone => st.open
    case OwnerCame(_) => st.open
    case BusLost => st.open
    case BusOpened(_, _) => !st.open
    case AutoconnectDue(_) => st.due
    case ScanStart(_) => true
    case ScanStop(_) => true
    case PairTapped(_, _, _) => true
    case ConnectTapped(_, _) => true
    case DisconnectTapped(_, _) => true
  }

  function Apply(st: State, e: Event): State
    requires Enabled(st, e)
  {
    match e
    case ScanStart(startOk) => UpdateDiscovery(st.(scanWanted := true), startOk)
    case ScanStop(startOk) => UpdateDiscovery(st.(scanWanted := false), startOk)
    case PairTapped(path, sendOk, startOk) => TapPair(st, path, sendOk, startOk)
    case ConnectTapped(path, sendOk) =>
      if IdleDevice(st, path) && st.open && sendOk then SendConnect(st, path, Asked) else st
    case DisconnectTapped(path, sendOk) =>
      if IdleDevice(st, path) && st.open && sendOk then SetOp(Send(st, Disconnect, path), path, Disconnecting) else st
    case Reply(id, outcome, objects, wellFormed, sendOk, startOk) =>
      OnReply(st, id, outcome, objects, wellFormed, sendOk, startOk)
    case InterfacesAdded(o, startOk) =>
      if st.up then UpdateDiscovery(TakeIfaces(st, o.path, o.ifaces, true, true), startOk) else st
    case InterfacesRemoved(path, ifaces, sendOk) => DropIfaces(st, path, ifaces, sendOk)
    case AdapterChanged(path, power, startOk) =>
      if path == st.adapter then UpdateDiscovery(MaybePower(st, power), startOk) else st
    case DeviceChanged(path, props) => SetProps(st, path, props)
    case OwnerGone => Reset(st).(up := false)
    case OwnerCame(sendOk) => Fetch(st, sendOk)
    case BusLost => CloseBus(st)
    case BusOpened(matched, sendOk) => if matched then Fetch(st.(open := true), sendOk) else CloseBus(st.(open := true))
    case AutoconnectDue(sendOk) => AutoconnectNext(st.(due := false), sendOk)
  }
}
