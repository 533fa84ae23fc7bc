/**
 What the events of the Bluetooth mirror bring about, said on its fields and calls:
 discovery runs wherever it is wanted, every tap and every reply sends the call that is
 due, the reconnect round asks the device whose turn it is, and a snapshot's objects are
 what the mirror holds.
 */
module BluetoothEffects {
  import opened Wrappers
  import opened BluetoothCalls
  import opened BluetoothSafety

  // --- Discovery ---

  /** No start of discovery fails: each can be sent, and none sent in this generation is refused. */
  predicate StartHolds(st: State, e: Event)
    requires Enabled(st, e)
  {
    match e
    case ScanStart(startOk) => startOk
    case ScanStop(startOk) => startOk
    case PairTapped(_, _, startOk) => startOk
    case InterfacesAdded(_, startOk) => startOk
    case AdapterChanged(_, _, startOk) => startOk
    case Reply(id, outcome, _, _, _, startOk) =>
      startOk && !(outcome == Error && st.calls[id].kind == StartDiscovery && st.calls[id].gen == st.gen)
    case _ => true
  }

  predicate StartsHold(st: State, events: seq<Event>)
    requires Possible(st, events)
    decreases |events|
  {
    events == [] || (StartHolds(st, events[0]) && StartsHold(Apply(st, events[0]), events[1..]))
  }

  /** Without the bus there is no adapter. */
  predicate Bare(st: State) {
    !st.open ==> st.adapter == NOWHERE
  }

  predicate Settled(st: State) {
    (st.discovering <==> st.scanWanted && st.adapter != NOWHERE && st.powered && st.pairs == 0) && Bare(st)
  }

  lemma UpdateSettles(st: State)
    requires Bare(st)
    ensures Settled(UpdateDiscovery(st, true))
  {
  }

  /** What the parts of a step that send no StartDiscovery leave of discovery's terms. */
  predicate SameTerms(st: State, next: State) {
    next.scanWanted == st.scanWanted && next.adapter == st.adapter && next.powered == st.powered
    && next.pairs == st.pairs && next.open == st.open && next.discovering == st.discovering
  }

  predicate CallsKept(st: State, next: State) {
    next.calls == st.calls && next.nextCall == st.nextCall && next.gen == st.gen && (next.discovering ==> st.discovering)
  }

  lemma PowerKeeps(st: State, power: Option<bool>)
    ensures MaybePower(st, power).open == st.open && CallsKept(st, MaybePower(st, power))
  {
  }

  lemma IfaceOpen(st: State, path: Path, iface: Iface, adapters: bool, devices: bool)
    ensures var next := TakeIface(st, path, iface, adapters, devices);
            next.open == st.open && CallsKept(st, next)
  {
    match iface {
      case AdapterIface(power) => PowerKeeps(st.(adapter := path), power);
      case DeviceIface(_) =>
      case OtherIface =>
    }
  }

  lemma {:induction false} IfacesOpen(st: State, path: Path, ifaces: seq<Iface>, adapters: bool, devices: bool)
    ensures var next := TakeIfaces(st, path, ifaces, adapters, devices);
            next.open == st.open && CallsKept(st, next)
    decreases |ifaces|
  {
    if ifaces != [] {
      IfaceOpen(st, path, ifaces[0], adapters, devices);
      IfacesOpen(TakeIface(st, path, ifaces[0], adapters, devices), path, ifaces[1..], adapters, devices);
    }
  }

  lemma {:induction false} ObjectsOpen(st: State, objects: seq<Object>, adapters: bool, devices: bool)
    ensures var next := TakeObjects(st, objects, adapters, devices);
            next.open == st.open && CallsKept(st, next)
    decreases |objects|
  {
    if objects != [] {
      IfacesOpen(st, objects[0].path, objects[0].ifaces, adapters, devices);
      ObjectsOpen(TakeIfaces(st, objects[0].path, objects[0].ifaces, adapters, devices), objects[1..], adapters, devices);
    }
  }

  lemma {:induction false} DropSettled(st: State, path: Path, ifaces: seq<Iface>, sendOk: bool)
    requires Settled(st)
    ensures Settled(DropIfaces(st, path, ifaces, sendOk))
    decreases |ifaces|
  {
    if ifaces != [] {
      match ifaces[0] {
        case DeviceIface(_) => DropSettled(st.(devs := Removed(st.devs, path)), path, ifaces[1..], sendOk);
        case AdapterIface(_) =>
          if path != st.adapter {
            DropSettled(st, path, ifaces[1..], sendOk);
          }
        case OtherIface => DropSettled(st, path, ifaces[1..], sendOk);
      }
    }
  }

  lemma AutoconnectSettled(st: State, sendOk: bool)
    ensures SameTerms(st, AutoconnectNext(st, sendOk))
  {
  }

  lemma SnapshotSettled(st: State, outcome: Outcome, objects: seq<Object>, wellFormed: bool)
    requires st.open
    ensures Settled(OnSnapshot(st, outcome, objects, wellFormed, true))
  {
    if outcome == Success {
      var s := Reset(st).(up := true);
      var s1 := TakeObjects(s, objects, true, false);
      ObjectsOpen(s, objects, true, false);
      ObjectsOpen(s1, objects, false, true);
      var s2 := if wellFormed && s1.adapter != NOWHERE then TakeObjects(s1, objects, false, true) else s1;
      UpdateSettles(if s2.powered then s2.(due := true, devs := Untried(s2.devs)) else s2);
    }
  }

  lemma PairReplySettled(st: State, path: Path, outcome: Outcome, sendOk: bool)
    requires Settled(st)
    ensures Settled(OnPair(st, path, outcome, sendOk, true))
  {
    if outcome == Error || !(st.open && sendOk) {
      FinishSettles(SetOp(st, path, Idle));
    }
  }

  lemma FinishSettles(st: State)
    requires Bare(st)
    ensures Settled(FinishPair(st, true))
  {
    UpdateSettles(if st.pairs > 0 then st.(pairs := st.pairs - 1) else st);
  }

  lemma ConnectReplySettled(st: State, path: Path, why: Why, outcome: Outcome, sendOk: bool)
    requires Settled(st)
    ensures Settled(OnConnect(st, path, why, outcome, sendOk, true))
  {
    var s := SetOp(st, path, Idle);
    match why {
      case Auto => AutoconnectSettled(s, sendOk);
      case FromPair => FinishSettles(s);
      case Asked =>
    }
  }

  lemma ReplySettled(st: State, id: nat, outcome: Outcome, objects: seq<Object>, wellFormed: bool, sendOk: bool)
    requires Settled(st) && st.open && id in st.calls
    requires !(outcome == Error && st.calls[id].kind == StartDiscovery && st.calls[id].gen == st.gen)
    ensures Settled(OnReply(st, id, outcome, objects, wellFormed, sendOk, true))
  {
    var c := st.calls[id];
    var s := Answered(st, id);
    if c.gen == st.gen {
      match c.kind {
        case Snapshot => SnapshotSettled(s, outcome, objects, wellFormed);
        case StartDiscovery =>
        case Pair => PairReplySettled(s, c.path, outcome, sendOk);
        case Connect(why) => ConnectReplySettled(s, c.path, why, outcome, sendOk);
        case Disconnect => assert Settled(SetOp(s, c.path, Idle));
      }
    }
  }

  lemma TapPairSettled(st: State, path: Path, sendOk: bool)
    requires Settled(st)
    ensures Settled(TapPair(st, path, sendOk, true))
  {
    if IdleDevice(st, path) {
      var s := PairBegan(st, true);
      UpdateSettles(st.(pairs := st.pairs + 1));
      if s.open && sendOk {
        assert Settled(SetOp(Send(s, Pair, path), path, Pairing));
      } else {
        FinishSettles(s);
      }
    }
  }

  lemma FetchSettled(st: State, sendOk: bool)
    requires Settled(st)
    ensures Settled(Fetch(st, sendOk))
  {
  }

  lemma BusSettled(st: State, e: Event)
    requires Settled(st) && Enabled(st, e) && (e.BusLost? || e.BusOpened? || e.OwnerGone? || e.OwnerCame?)
    ensures Settled(Apply(st, e))
  {
    match e {
      case BusLost => assert Settled(CloseBus(st));
      case BusOpened(matched, sendOk) =>
        FetchSettled(st.(open := true), sendOk);
        assert Settled(CloseBus(st.(open := true)));
      case OwnerGone => assert Settled(Reset(st).(up := false));
      case OwnerCame(sendOk) => FetchSettled(st, sendOk);
    }
  }

  lemma UserSettled(st: State, e: Event)
    requires Settled(st) && Enabled(st, e) && StartHolds(st, e)
    requires e.ScanStart? || e.ScanStop? || e.PairTapped? || e.ConnectTapped? || e.DisconnectTapped? || e.AutoconnectDue?
    ensures Settled(Apply(st, e))
  {
    match e {
      case ScanStart(_) => UpdateSettles(st.(scanWanted := true));
      case ScanStop(_) => UpdateSettles(st.(scanWanted := false));
      case PairTapped(path, sendOk, _) => TapPairSettled(st, path, sendOk);
      case ConnectTapped(_, _) =>
      case DisconnectTapped(_, _) =>
      case AutoconnectDue(sendOk) => AutoconnectSettled(st.(due := false), sendOk);
    }
  }

  lemma MessageSettled(st: State, e: Event)
    requires Settled(st) && Enabled(st, e) && StartHolds(st, e)
    requires e.InterfacesAdded? || e.InterfacesRemoved? || e.AdapterChanged? || e.DeviceChanged?
    ensures Settled(Apply(st, e))
  {
    match e {
      case InterfacesAdded(o, _) =>
        if st.up {
          IfacesOpen(st, o.path, o.ifaces, true, true);
          UpdateSettles(TakeIfaces(st, o.path, o.ifaces, true, true));
        }
      case InterfacesRemoved(path, ifaces, sendOk) => DropSettled(st, path, ifaces, sendOk);
      case AdapterChanged(path, power, _) => UpdateSettles(MaybePower(st, power));
      case DeviceChanged(_, _) =>
    }
  }

  /** If no start fails, discovery runs after each event exactly where it is wanted. */
  lemma StepSettled(st: State, e: Event)
    requires Settled(st) && Enabled(st, e) && StartHolds(st, e)
    ensures Settled(Apply(st, e))
  {
    if e.Reply? {
      ReplySettled(st, e.id, e.outcome, e.objects, e.wellFormed, e.sendOk);
    } else if e.InterfacesAdded? || e.InterfacesRemoved? || e.AdapterChanged? || e.DeviceChanged? {
      MessageSettled(st, e);
    } else if e.BusLost? || e.BusOpened? || e.OwnerGone? || e.OwnerCame? {
      BusSettled(st, e);
    } else {
      UserSettled(st, e);
    }
  }

  lemma {:induction false} RunSettled(st: State, events: seq<Event>)
    requires Settled(st) && Possible(st, events) && StartsHold(st, events)
    ensures Settled(Exec(st, events))
    decreases |events|
  {
    if events != [] {
      StepSettled(st, events[0]);
      RunSettled(Apply(st, events[0]), events[1..]);
    }
  }

  /** Over every run in which no start fails, the search runs exactly while the search screen is open, there is a
      powered adapter and nothing is being paired. */
  lemma SearchesWhereWanted(events: seq<Event>)
    requires Possible(START, events) && StartsHold(START, events)
    ensures var r := Exec(START, events);
            r.discovering <==> r.scanWanted && r.adapter != NOWHERE && r.powered && r.pairs == 0
  {
    RunSettled(START, events);
  }

  /** The starts among the calls from number `at` on. */
  function Starts(at: nat, next: State): set<nat> {
    set id | id in next.calls && at <= id && next.calls[id].kind == StartDiscovery
  }

  predicate Numbered(st: State) {
    forall id :: id in st.calls ==> id < st.nextCall
  }

  /** No start was sent, and discovery is active only if it was. */
  predicate NoStart(at: nat, was: bool, next: State) {
    Starts(at, next) == {} && at <= next.nextCall && Numbered(next) && (next.discovering ==> was)
  }

  /** At most one start was sent, by the one who is active now, and one was if it was not active before. */
  predicate OneStart(at: nat, was: bool, next: State) {
    && (!next.discovering ==> Starts(at, next) == {})
    && (next.discovering && !was ==> Starts(at, next) != {})
    && (Starts(at, next) != {} ==>
          exists id :: Starts(at, next) == {id} && id in next.calls && next.calls[id] == Call(next.gen, StartDiscovery, NOWHERE))
  }

  lemma QuietOneStart(at: nat, was: bool, next: State)
    requires NoStart(at, was, next)
    ensures OneStart(at, was, next)
  {
  }

  lemma UpdateOneStart(at: nat, was: bool, s: State, startOk: bool)
    requires NoStart(at, was, s)
    ensures OneStart(at, was, UpdateDiscovery(s, startOk))
  {
    var next := UpdateDiscovery(s, startOk);
    if Wanted(s) && !s.discovering && s.open && startOk {
      var id := s.nextCall;
      assert id !in s.calls;
      assert next.calls[id] == Call(next.gen, StartDiscovery, NOWHERE);
      assert Starts(at, next) == {id} by {
        forall k | k in Starts(at, next) ensures k == id {
          assert k in s.calls ==> k in Starts(at, s);
        }
        assert id in Starts(at, next);
      }
    } else {
      assert Starts(at, next) == Starts(at, s);
    }
  }

  lemma SentNoStart(at: nat, was: bool, s: State, kind: Kind, path: Path)
    requires NoStart(at, was, s) && kind != StartDiscovery
    ensures NoStart(at, was, Send(s, kind, path))
  {
    assert Starts(at, Send(s, kind, path)) == Starts(at, s);
  }

  lemma KeptNoStart(at: nat, was: bool, s: State, next: State)
    requires NoStart(at, was, s) && CallsKept(s, next)
    ensures NoStart(at, was, next)
  {
    assert Starts(at, next) == Starts(at, s);
  }

  lemma AutoconnectNoStart(at: nat, was: bool, s: State, sendOk: bool)
    requires NoStart(at, was, s)
    ensures NoStart(at, was, AutoconnectNext(s, sendOk))
  {
    var next := AutoconnectNext(s, sendOk);
    if next != s {
      var k := Pick(s.devs);
      var spent := s.(devs := s.devs[k := s.devs[k].(tried := true)]);
      KeptNoStart(at, was, s, spent);
      if sendOk {
        SentNoStart(at, was, spent, Connect(Auto), s.devs[k].path);
        KeptNoStart(at, was, Send(spent, Connect(Auto), s.devs[k].path), next);
      }
    }
  }

  lemma RaisedNoStart(at: nat, was: bool, s: State)
    requires NoStart(at, was, s)
    ensures NoStart(at, was, s.(gen := s.gen + 1))
  {
    assert Starts(at, s.(gen := s.gen + 1)) == Starts(at, s);
  }

  lemma FetchNoStart(at: nat, was: bool, s: State, sendOk: bool)
    requires NoStart(at, was, s)
    ensures NoStart(at, was, Fetch(s, sendOk))
  {
    var g := s.(gen := s.gen + 1);
    RaisedNoStart(at, was, s);
    if s.open && sendOk {
      SentNoStart(at, was, g, Snapshot, NOWHERE);
      KeptNoStart(at, was, Send(g, Snapshot, NOWHERE), Fetch(s, sendOk));
    } else {
      KeptNoStart(at, was, g, Fetch(s, sendOk));
    }
  }

  lemma ResetNoStart(at: nat, was: bool, s: State)
    requires NoStart(at, was, s)
    ensures NoStart(at, was, Reset(s))
  {
    assert Starts(at, Reset(s)) == Starts(at, s);
  }

  lemma {:induction false} DropNoStart(at: nat, was: bool, s: State, path: Path, ifaces: seq<Iface>, sendOk: bool)
    requires NoStart(at, was, s)
    ensures NoStart(at, was, DropIfaces(s, path, ifaces, sendOk))
    decreases |ifaces|
  {
    if ifaces != [] {
      match ifaces[0] {
        case DeviceIface(_) =>
          var t := s.(devs := Removed(s.devs, path));
          KeptNoStart(at, was, s, t);
          DropNoStart(at, was, t, path, ifaces[1..], sendOk);
        case AdapterIface(_) =>
          if path != s.adapter {
            DropNoStart(at, was, s, path, ifaces[1..], sendOk);
          } else {
            ResetNoStart(at, was, s);
            FetchNoStart(at, was, Reset(s), sendOk);
          }
        case OtherIface => DropNoStart(at, was, s, path, ifaces[1..], sendOk);
      }
    }
  }

  lemma FinishOneStart(at: nat, was: bool, s: State, startOk: bool)
    requires NoStart(at, was, s)
    ensures OneStart(at, was, FinishPair(s, startOk))
  {
    var t := if s.pairs > 0 then s.(pairs := s.pairs - 1) else s;
    KeptNoStart(at, was, s, t);
    UpdateOneStart(at, was, t, startOk);
  }

  lemma SnapshotOneStart(at: nat, was: bool, s: State, outcome: Outcome, objects: seq<Object>, wellFormed: bool, startOk: bool)
    requires NoStart(at, was, s)
    ensures OneStart(at, was, OnSnapshot(s, outcome, objects, wellFormed, startOk))
  {
    var r := Reset(s).(up := outcome == Success);
    assert Starts(at, r) == Starts(at, s);
    if outcome != Success {
      QuietOneStart(at, was, r);
    } else {
      var s1 := TakeObjects(r, objects, true, false);
      var s2 := if wellFormed && s1.adapter != NOWHERE then TakeObjects(s1, objects, false, true) else s1;
      var s3 := if s2.powered then s2.(due := true, devs := Untried(s2.devs)) else s2;
      ObjectsOpen(r, objects, true, false);
      ObjectsOpen(s1, objects, false, true);
      KeptNoStart(at, was, r, s3);
      UpdateOneStart(at, was, s3, startOk);
    }
  }

  lemma ReplyOneStart(st: State, e: Event)
    requires Numbered(st) && Enabled(st, e) && e.Reply?
    ensures OneStart(st.nextCall, st.discovering, Apply(st, e))
  {
    var c := st.calls[e.id];
    var s := Answered(st, e.id);
    assert Starts(st.nextCall, s) == {};
    if c.gen != st.gen {
      QuietOneStart(st.nextCall, st.discovering, s);
    } else {
      ActedOneStart(st.nextCall, st.discovering, s, c, e.outcome, e.objects, e.wellFormed, e.sendOk, e.startOk);
    }
  }

  lemma ActedOneStart(
      at: nat, was: bool, s: State, c: Call, outcome: Outcome, objects: seq<Object>, wellFormed: bool, sendOk: bool, startOk: bool)
    requires NoStart(at, was, s)
    ensures OneStart(at, was, Acted(s, c, outcome, objects, wellFormed, sendOk, startOk))
  {
    match c.kind {
      case Snapshot => SnapshotOneStart(at, was, s, outcome, objects, wellFormed, startOk);
      case StartDiscovery => KeptNoStart(at, was, s, s.(discovering := false));
      case Pair => PairReplyOneStart(at, was, s, c.path, outcome, sendOk, startOk);
      case Connect(why) => ConnectReplyOneStart(at, was, s, c.path, why, outcome, sendOk, startOk);
      case Disconnect => KeptNoStart(at, was, s, SetOp(s, c.path, Idle));
    }
  }

  lemma ConnectNoStart(at: nat, was: bool, s: State, path: Path, why: Why)
    requires NoStart(at, was, s)
    ensures NoStart(at, was, SendConnect(s, path, why))
  {
    SentNoStart(at, was, s, Connect(why), path);
    KeptNoStart(at, was, Send(s, Connect(why), path), SendConnect(s, path, why));
  }

  lemma PairReplyOneStart(at: nat, was: bool, s: State, path: Path, outcome: Outcome, sendOk: bool, startOk: bool)
    requires NoStart(at, was, s)
    ensures OneStart(at, was, OnPair(s, path, outcome, sendOk, startOk))
  {
    if outcome == Error || !(s.open && sendOk) {
      KeptNoStart(at, was, s, SetOp(s, path, Idle));
      FinishOneStart(at, was, SetOp(s, path, Idle), startOk);
    } else {
      ConnectNoStart(at, was, s, path, FromPair);
      QuietOneStart(at, was, SendConnect(s, path, FromPair));
    }
  }

  lemma ConnectReplyOneStart(at: nat, was: bool, s: State, path: Path, why: Why, outcome: Outcome, sendOk: bool, startOk: bool)
    requires NoStart(at, was, s)
    ensures OneStart(at, was, OnConnect(s, path, why, outcome, sendOk, startOk))
  {
    var idle := SetOp(s, path, Idle);
    KeptNoStart(at, was, s, idle);
    match why {
      case Auto => AutoconnectNoStart(at, was, idle, sendOk);
      case FromPair => FinishOneStart(at, was, idle, startOk);
      case Asked =>
    }
  }

  lemma TapOneStart(st: State, e: Event)
    requires Numbered(st) && Enabled(st, e) && (e.PairTapped? || e.ConnectTapped? || e.DisconnectTapped?)
    ensures OneStart(st.nextCall, st.discovering, Apply(st, e))
  {
    assert NoStart(st.nextCall, st.discovering, st);
    match e {
      case PairTapped(path, sendOk, startOk) =>
        var s := PairBegan(st, startOk);
        KeptNoStart(st.nextCall, st.discovering, st, s);
        SentNoStart(st.nextCall, st.discovering, s, Pair, path);
        KeptNoStart(st.nextCall, st.discovering, Send(s, Pair, path), SetOp(Send(s, Pair, path), path, Pairing));
        FinishOneStart(st.nextCall, st.discovering, s, startOk);
      case ConnectTapped(path, sendOk) =>
        SentNoStart(st.nextCall, st.discovering, st, Connect(Asked), path);
        KeptNoStart(st.nextCall, st.discovering, Send(st, Connect(Asked), path), SendConnect(st, path, Asked));
      case DisconnectTapped(path, sendOk) =>
        SentNoStart(st.nextCall, st.discovering, st, Disconnect, path);
        KeptNoStart(st.nextCall, st.discovering, Send(st, Disconnect, path), SetOp(Send(st, Disconnect, path), path, Disconnecting));
    }
  }

  lemma BusOneStart(st: State, e: Event)
    requires Numbered(st) && Enabled(st, e) && (e.BusLost? || e.BusOpened? || e.OwnerGone? || e.OwnerCame?)
    ensures OneStart(st.nextCall, st.discovering, Apply(st, e))
  {
    match e {
      case BusOpened(matched, sendOk) =>
        assert NoStart(st.nextCall, st.discovering, st.(open := true)) by {
          assert Starts(st.nextCall, st.(open := true)) == {};
        }
        FetchNoStart(st.nextCall, st.discovering, st.(open := true), sendOk);
      case OwnerCame(sendOk) =>
        assert Starts(st.nextCall, st) == {};
        FetchNoStart(st.nextCall, st.discovering, st, sendOk);
      case OwnerGone => assert Starts(st.nextCall, Apply(st, e)) == {};
      case BusLost => assert Starts(st.nextCall, Apply(st, e)) == {};
    }
  }

  lemma ScreenOneStart(st: State, e: Event)
    requires Numbered(st) && Enabled(st, e) && (e.ScanStart? || e.ScanStop? || e.AutoconnectDue?)
    ensures OneStart(st.nextCall, st.discovering, Apply(st, e))
  {
    assert NoStart(st.nextCall, st.discovering, st);
    match e {
      case ScanStart(startOk) =>
        KeptNoStart(st.nextCall, st.discovering, st, st.(scanWanted := true));
        UpdateOneStart(st.nextCall, st.discovering, st.(scanWanted := true), startOk);
      case ScanStop(startOk) =>
        KeptNoStart(st.nextCall, st.discovering, st, st.(scanWanted := false));
        UpdateOneStart(st.nextCall, st.discovering, st.(scanWanted := false), startOk);
      case AutoconnectDue(sendOk) =>
        KeptNoStart(st.nextCall, st.discovering, st, st.(due := false));
        AutoconnectNoStart(st.nextCall, st.discovering, st.(due := false), sendOk);
    }
  }

  lemma MessageOneStart(st: State, e: Event)
    requires Numbered(st) && Enabled(st, e)
    requires e.InterfacesAdded? || e.InterfacesRemoved? || e.AdapterChanged? || e.DeviceChanged?
    ensures OneStart(st.nextCall, st.discovering, Apply(st, e))
  {
    assert NoStart(st.nextCall, st.discovering, st);
    match e {
      case InterfacesAdded(o, startOk) =>
        IfacesOpen(st, o.path, o.ifaces, true, true);
        KeptNoStart(st.nextCall, st.discovering, st, TakeIfaces(st, o.path, o.ifaces, true, true));
        UpdateOneStart(st.nextCall, st.discovering, TakeIfaces(st, o.path, o.ifaces, true, true), startOk);
      case InterfacesRemoved(path, ifaces, sendOk) => DropNoStart(st.nextCall, st.discovering, st, path, ifaces, sendOk);
      case AdapterChanged(path, power, startOk) =>
        PowerKeeps(st, power);
        KeptNoStart(st.nextCall, st.discovering, st, MaybePower(st, power));
        UpdateOneStart(st.nextCall, st.discovering, MaybePower(st, power), startOk);
      case DeviceChanged(path, props) => KeptNoStart(st.nextCall, st.discovering, st, SetProps(st, path, props));
    }
  }

  /** Every event sends at most one StartDiscovery: none where discovery is not active afterwards, and exactly
      one, of the generation then current, where it has become active. */
  lemma StartedOnce(st: State, e: Event)
    requires Inv(st) && Enabled(st, e)
    ensures OneStart(st.nextCall, st.discovering, Apply(st, e))
  {
    if e.Reply? {
      ReplyOneStart(st, e);
    } else if e.ScanStart? || e.ScanStop? || e.AutoconnectDue? {
      ScreenOneStart(st, e);
    } else if e.InterfacesAdded? || e.InterfacesRemoved? || e.AdapterChanged? || e.DeviceChanged? {
      MessageOneStart(st, e);
    } else if e.PairTapped? || e.ConnectTapped? || e.DisconnectTapped? {
      TapOneStart(st, e);
    } else {
      BusOneStart(st, e);
    }
  }

  // --- What the user taps ---

  /** One device's op is set, and nothing else of any device. */
  predicate OpOnly(devs: seq<Device>, was: seq<Device>, path: Path, op: Op) {
    && |devs| == |was|
    && forall i :: 0 <= i < |was| ==> devs[i] == if was[i].path == path then was[i].(op := op) else was[i]
  }

  /** Exactly this call was sent on top of `calls`. */
  predicate Sent(next: State, at: nat, calls: map<nat, Call>, kind: Kind, path: Path) {
    next.nextCall == at + 1 && next.calls == calls[at := Call(next.gen, kind, path)]
  }

  lemma SentAndMarked(st: State, kind: Kind, path: Path, op: Op)
    ensures var next := SetOp(Send(st, kind, path), path, op);
            Sent(next, st.nextCall, st.calls, kind, path) && OpOnly(next.devs, st.devs, path, op)
            && next.gen == st.gen && SameTerms(st, next)
  {
  }

  lemma IdleOne(st: State, path: Path)
    ensures IdleDevice(st, path) <==> exists d :: d in st.devs && d.path == path && d.op == Idle
  {
  }

  /** A tap on an idle device sends the call it names and marks the device with it; one on a device that is at
      something, or whose call cannot be sent, does nothing. */
  lemma ConnectTapSends(st: State, path: Path, sendOk: bool)
    ensures var next := Apply(st, ConnectTapped(path, sendOk));
            if (exists d :: d in st.devs && d.path == path && d.op == Idle) && st.open && sendOk then
              Sent(next, st.nextCall, st.calls, Connect(Asked), path) && OpOnly(next.devs, st.devs, path, Connecting)
              && next.gen == st.gen && SameTerms(st, next)
            else next == st
  {
    IdleOne(st, path);
    SentAndMarked(st, Connect(Asked), path, Connecting);
  }

  lemma DisconnectTapSends(st: State, path: Path, sendOk: bool)
    ensures var next := Apply(st, DisconnectTapped(path, sendOk));
            if (exists d :: d in st.devs && d.path == path && d.op == Idle) && st.open && sendOk then
              Sent(next, st.nextCall, st.calls, Disconnect, path) && OpOnly(next.devs, st.devs, path, Disconnecting)
              && next.gen == st.gen && SameTerms(st, next)
            else next == st
  {
    IdleOne(st, path);
    SentAndMarked(st, Disconnect, path, Disconnecting);
  }

  /** A Pair that can be sent is, with discovery stopped, the pairing counted and the device marked; one that
      cannot leaves the count and the devices as they were. */
  lemma PairTapSends(st: State, path: Path, sendOk: bool, startOk: bool)
    ensures var next := Apply(st, PairTapped(path, sendOk, startOk));
            if exists d :: d in st.devs && d.path == path && d.op == Idle then
              if st.open && sendOk then
                && Sent(next, st.nextCall, st.calls, Pair, path) && OpOnly(next.devs, st.devs, path, Pairing)
                && next.gen == st.gen && next.pairs == st.pairs + 1 && !next.discovering
              else next.pairs == st.pairs && next.devs == st.devs && OnlyStarts(next, st.calls)
            else next == st
  {
    IdleOne(st, path);
    if IdleDevice(st, path) {
      var s := PairBegan(st, startOk);
      if st.open && sendOk {
        SentAndMarked(s, Pair, path, Pairing);
      } else {
        PairingDone(s, startOk);
      }
    }
  }

  /** Nothing but a StartDiscovery was sent. */
  predicate OnlyStarts(next: State, calls: map<nat, Call>) {
    forall id :: id in next.calls && (id !in calls || next.calls[id] != calls[id]) ==> next.calls[id].kind == StartDiscovery
  }

  /** One pairing less, and the search resumes with the last. */
  lemma PairingDone(st: State, startOk: bool)
    requires st.pairs > 0
    ensures var next := FinishPair(st, startOk);
            next.pairs == st.pairs - 1 && next.devs == st.devs && OnlyStarts(next, st.calls)
            && (st.open && st.scanWanted && st.adapter != NOWHERE && st.powered && st.pairs == 1 && startOk ==> next.discovering)
  {
  }

  // --- Replies ---

  predicate Awaited(st: State, id: nat, kind: Kind) {
    st.open && id in st.calls && st.calls[id].gen == st.gen && st.calls[id].kind == kind
  }

  lemma Counted(st: State, id: nat)
    requires Inv(st) && id in st.calls && st.calls[id].gen == st.gen && PairingKind(st.calls[id].kind)
    ensures st.pairs > 0
  {
    assert id in PairCalls(st);
  }

  /** A Pair that succeeded, or was made before, sends the Connect that finishes it; one that failed, or whose
      Connect cannot be sent, ends the pairing and leaves its device idle. */
  lemma PairReplySends(st: State, id: nat, outcome: Outcome, sendOk: bool, startOk: bool)
    requires Inv(st) && Awaited(st, id, Pair)
    ensures var next := Apply(st, Reply(id, outcome, [], true, sendOk, startOk));
            var path := st.calls[id].path;
            if outcome != Error && sendOk then
              && Sent(next, st.nextCall, st.calls - {id}, Connect(FromPair), path)
              && OpOnly(next.devs, st.devs, path, Connecting) && next.pairs == st.pairs
            else PairingOver(st, next, id, startOk)
  {
    Counted(st, id);
    var s := Answered(st, id);
    SentAndMarked(s, Connect(FromPair), st.calls[id].path, Connecting);
    PairingDone(SetOp(s, st.calls[id].path, Idle), startOk);
  }

  predicate PairingOver(st: State, next: State, id: nat, startOk: bool)
    requires id in st.calls
  {
    && next.pairs == st.pairs - 1 && OpOnly(next.devs, st.devs, st.calls[id].path, Idle)
    && OnlyStarts(next, st.calls - {id})
    && (st.scanWanted && st.adapter != NOWHERE && st.powered && st.pairs == 1 && startOk ==> next.discovering)
  }

  /** The Connect that finishes a pairing ends it, whatever came of it, and the search resumes. */
  lemma PairingEnds(st: State, id: nat, outcome: Outcome, startOk: bool)
    requires Inv(st) && Awaited(st, id, Connect(FromPair))
    ensures PairingOver(st, Apply(st, Reply(id, outcome, [], true, true, startOk)), id, startOk)
  {
    Counted(st, id);
    PairingDone(SetOp(Answered(st, id), st.calls[id].path, Idle), startOk);
  }

  /** What the user asked for is over when its reply is there, whatever it says; so is what nobody asked for,
      unless it failed. */
  lemma ReplySettles(st: State, id: nat, outcome: Outcome, sendOk: bool, kind: Kind)
    requires Awaited(st, id, kind)
    requires kind == Connect(Asked) || kind == Disconnect || (kind == Connect(Auto) && outcome != Error)
    ensures var next := Apply(st, Reply(id, outcome, [], true, sendOk, true));
            OpOnly(next.devs, st.devs, st.calls[id].path, Idle)
            && next == st.(devs := next.devs, calls := st.calls - {id})
  {
  }
}
