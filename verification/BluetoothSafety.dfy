/**
 What every run of the Bluetooth mirror keeps: discovery runs only where it may, and the
 pairing count and the devices' op markers are exactly what the outstanding calls account
 for, as long as no snapshot is awaited.
 */
module BluetoothSafety {
  import opened Wrappers
  import opened BluetoothCalls

  predicate PairingKind(k: Kind) {
    k == Pair || k == Connect(FromPair)
  }

  /** The outstanding calls of this generation that are part of a pairing. */
  function PairCalls(st: State): set<nat> {
    set id | id in st.calls && st.calls[id].gen == st.gen && PairingKind(st.calls[id].kind)
  }

  function OpOf(k: Kind): Op {
    match k
    case Pair => Pairing
    case Connect(_) => Connecting
    case Disconnect => Disconnecting
    case Snapshot => Idle
    case StartDiscovery => Idle
  }

  /** Some outstanding call of this generation is what the device is said to be at. */
  predicate Owned(st: State, path: Path, op: Op) {
    exists id :: id in st.calls && st.calls[id].gen == st.gen && st.calls[id].path == path && OpOf(st.calls[id].kind) == op
  }

  /** Every op but that of `but` has its call. */
  predicate OpsOwned(st: State, but: Option<Path>) {
    forall i :: 0 <= i < |st.devs| && st.devs[i].op != Idle && Some(st.devs[i].path) != but ==>
      Owned(st, st.devs[i].path, st.devs[i].op)
  }

  /** The books are right but for `n` pairings that no call stands for any more, and the op of `but`. */
  predicate ExactBut(st: State, n: nat, but: Option<Path>) {
    st.pairs == |PairCalls(st)| + n && OpsOwned(st, but)
  }

  predicate Exact(st: State) {
    ExactBut(st, 0, None)
  }

  predicate SnapshotDue(st: State) {
    exists id :: id in st.calls && st.calls[id].gen == st.gen && st.calls[id].kind == Snapshot
  }

  predicate Books(st: State, n: nat, but: Option<Path>) {
    && st.pairs >= |PairCalls(st)| + n
    && (ExactBut(st, n, but) || SnapshotDue(st) || st.lost)
  }

  predicate Unique(devs: seq<Device>) {
    forall i, k :: 0 <= i < k < |devs| ==> devs[i].path != devs[k].path
  }

  /** The list holds devices of the adapter, once each; calls are of past or present generations. */
  predicate Listed(st: State) {
    && Unique(st.devs)
    && (forall i :: 0 <= i < |st.devs| ==> UnderAdapter(st.adapter, st.devs[i].path) && |st.devs[i].path.name| < PATH_SIZE)
    && (forall id :: id in st.calls ==> id < st.nextCall && st.calls[id].gen <= st.gen)
    && (!st.open ==> st.calls == map[] && st.devs == [])
  }

  predicate DiscoveryOk(st: State) {
    st.discovering ==> Wanted(st)
  }

  predicate Inv(st: State) {
    Listed(st) && DiscoveryOk(st) && Books(st, 0, None)
  }

  // --- What the parts of the steps keep ---

  predicate SamePaths(devs: seq<Device>, was: seq<Device>) {
    |devs| == |was| && forall i :: 0 <= i < |devs| ==> devs[i].path == was[i].path
  }

  lemma SamePathsListed(st: State, devs: seq<Device>)
    requires Listed(st) && SamePaths(devs, st.devs)
    ensures Listed(st.(devs := devs))
  {
    forall i, k | 0 <= i < k < |devs| ensures devs[i].path != devs[k].path {
      assert st.devs[i].path != st.devs[k].path;
    }
  }

  /** No device is at more in `devs` than it is in `was`. */
  predicate OpsFrom(devs: seq<Device>, was: seq<Device>) {
    forall i :: 0 <= i < |devs| && devs[i].op != Idle ==>
      exists k :: 0 <= k < |was| && was[k].path == devs[i].path && was[k].op == devs[i].op
  }

  predicate SameCalls(st: State, next: State) {
    next.gen == st.gen && next.pairs == st.pairs && next.calls == st.calls && next.nextCall == st.nextCall
    && next.lost == st.lost && next.open == st.open
  }

  lemma BooksKept(st: State, next: State, n: nat, but: Option<Path>)
    requires Books(st, n, but) && SameCalls(st, next) && OpsFrom(next.devs, st.devs)
    ensures Books(next, n, but)
  {
    assert PairCalls(next) == PairCalls(st);
    if ExactBut(st, n, but) {
      forall i | 0 <= i < |next.devs| && next.devs[i].op != Idle && Some(next.devs[i].path) != but
        ensures Owned(next, next.devs[i].path, next.devs[i].op)
      {
        var k :| 0 <= k < |st.devs| && st.devs[k].path == next.devs[i].path && st.devs[k].op == next.devs[i].op;
        assert Owned(st, st.devs[k].path, st.devs[k].op);
      }
    }
    if SnapshotDue(st) {
      assert SnapshotDue(next);
    }
  }

  lemma SendOwned(st: State, kind: Kind, path: Path, p: Path, op: Op)
    requires Listed(st) && Owned(st, p, op)
    ensures Owned(Send(st, kind, path), p, op)
  {
    var next := Send(st, kind, path);
    var id :| id in st.calls && st.calls[id].gen == st.gen && st.calls[id].path == p && OpOf(st.calls[id].kind) == op;
    assert id in next.calls && next.calls[id] == st.calls[id];
  }

  /** Sending a pairing call accounts for one pairing; any other changes no account. */
  lemma SendBooks(st: State, kind: Kind, path: Path, n: nat, but: Option<Path>)
    requires Listed(st) && st.open && Books(st, n, but) && (PairingKind(kind) ==> n > 0)
    ensures Listed(Send(st, kind, path))
    ensures Books(Send(st, kind, path), if PairingKind(kind) then n - 1 else n, but)
    ensures Owned(Send(st, kind, path), path, OpOf(kind))
  {
    var next := Send(st, kind, path);
    var id := st.nextCall;
    assert id in next.calls && next.calls[id] == Call(st.gen, kind, path);
    assert PairCalls(next) == if PairingKind(kind) then PairCalls(st) + {id} else PairCalls(st);
    assert id !in PairCalls(st);
    if ExactBut(st, n, but) {
      forall i | 0 <= i < |next.devs| && next.devs[i].op != Idle && Some(next.devs[i].path) != but
        ensures Owned(next, next.devs[i].path, next.devs[i].op)
      {
        SendOwned(st, kind, path, st.devs[i].path, st.devs[i].op);
      }
    }
    if SnapshotDue(st) {
      var k :| k in st.calls && st.calls[k].gen == st.gen && st.calls[k].kind == Snapshot;
      assert k in next.calls && next.calls[k] == st.calls[k];
    }
  }

  lemma UpdateDiscoveryOk(st: State, startOk: bool, n: nat, but: Option<Path>)
    requires Listed(st) && Books(st, n, but)
    ensures var next := UpdateDiscovery(st, startOk);
            Listed(next) && Books(next, n, but) && DiscoveryOk(next)
            && next.open == st.open && next.devs == st.devs && next.gen == st.gen && next.pairs == st.pairs
            && (st.pairs > 0 ==> !next.discovering)
  {
    if Wanted(st) && !st.discovering && st.open && startOk {
      var s := st.(discovering := true);
      BooksKept(st, s, n, but);
      SendBooks(s, StartDiscovery, NOWHERE, n, but);
    } else {
      BooksKept(st, UpdateDiscovery(st, startOk), n, but);
    }
  }

  /** Setting a device's op settles it, when the op has its call. */
  lemma SetOpOk(st: State, path: Path, op: Op, n: nat, but: Option<Path>)
    requires Listed(st) && Books(st, n, but) && (but == None || but == Some(path))
    requires op == Idle || Owned(st, path, op)
    ensures var next := SetOp(st, path, op);
            Listed(next) && Books(next, n, None) && SameCalls(st, next)
            && next.discovering == st.discovering && (Wanted(next) <==> Wanted(st))
  {
    var next := SetOp(st, path, op);
    SamePathsListed(st, next.devs);
    SettledBooks(st, next, path, op, n, but);
  }

  lemma SettledBooks(st: State, next: State, path: Path, op: Op, n: nat, but: Option<Path>)
    requires Books(st, n, but) && (but == None || but == Some(path))
    requires op == Idle || Owned(st, path, op)
    requires SameCalls(st, next) && |next.devs| == |st.devs|
    requires forall i :: 0 <= i < |st.devs| ==> next.devs[i] == if st.devs[i].path == path then st.devs[i].(op := op) else st.devs[i]
    ensures Books(next, n, None)
  {
    assert PairCalls(next) == PairCalls(st);
    if ExactBut(st, n, but) {
      forall i | 0 <= i < |next.devs| && next.devs[i].op != Idle
        ensures Owned(next, next.devs[i].path, next.devs[i].op)
      {
        if next.devs[i].path == path {
          assert Owned(st, path, op);
        } else {
          assert Owned(st, st.devs[i].path, st.devs[i].op);
        }
      }
    }
    if SnapshotDue(st) {
      assert SnapshotDue(next);
    }
  }

  lemma FinishPairOk(st: State, startOk: bool, n: nat)
    requires Listed(st) && Books(st, n + 1, None)
    ensures var next := FinishPair(st, startOk);
            Listed(next) && Books(next, n, None) && DiscoveryOk(next)
  {
    var s := st.(pairs := st.pairs - 1);
    assert PairCalls(s) == PairCalls(st);
    assert Books(s, n, None) by {
      if ExactBut(st, n + 1, None) {
        forall i | 0 <= i < |s.devs| && s.devs[i].op != Idle ensures Owned(s, s.devs[i].path, s.devs[i].op) {
          assert Owned(st, st.devs[i].path, st.devs[i].op);
        }
      }
      if SnapshotDue(st) {
        assert SnapshotDue(s);
      }
    }
    UpdateDiscoveryOk(s, startOk, n, None);
  }

  lemma SendConnectOk(st: State, path: Path, why: Why, n: nat, but: Option<Path>)
    requires Listed(st) && st.open && Books(st, n, but) && (why == FromPair ==> n > 0) && (but == None || but == Some(path))
    ensures var next := SendConnect(st, path, why);
            Listed(next) && Books(next, if why == FromPair then n - 1 else n, None)
            && next.pairs == st.pairs && next.discovering == st.discovering && (Wanted(next) <==> Wanted(st))
  {
    SendBooks(st, Connect(why), path, n, but);
    SetOpOk(Send(st, Connect(why), path), path, Connecting, if why == FromPair then n - 1 else n, but);
  }

  /** A reset makes the books right: there is nothing in them, and no call of the new generation. */
  lemma ResetOk(st: State)
    requires Listed(st)
    ensures var next := Reset(st);
            Listed(next) && DiscoveryOk(next) && Exact(next) && Books(next, 0, None)
  {
    var next := Reset(st);
    assert PairCalls(next) == {};
  }

  /** A new generation leaves no call standing for a pairing or an op, so the books are right afterwards
      exactly if there was none to stand for. */
  lemma FetchOk(st: State, sendOk: bool)
    requires Listed(st) && DiscoveryOk(st)
    ensures var next := Fetch(st, sendOk);
            Inv(next)
            && (Exact(next) <==> st.pairs == 0 && forall i :: 0 <= i < |st.devs| ==> st.devs[i].op == Idle)
            && (SnapshotDue(next) <==> st.open && sendOk)
  {
    var next := Fetch(st, sendOk);
    FetchCalls(st, sendOk);
    assert PairCalls(next) == {};
    forall i | 0 <= i < |next.devs| && next.devs[i].op != Idle ensures !Owned(next, next.devs[i].path, next.devs[i].op) {
    }
  }

  /** The only call of the new generation is the snapshot's request. */
  lemma FetchCalls(st: State, sendOk: bool)
    requires Listed(st)
    ensures var next := Fetch(st, sendOk);
            Listed(next)
            && (forall id :: id in next.calls && next.calls[id].gen == next.gen ==> next.calls[id].kind == Snapshot)
            && (SnapshotDue(next) <==> st.open && sendOk)
  {
    var next := Fetch(st, sendOk);
    if st.open && sendOk {
      assert st.nextCall in next.calls && next.calls[st.nextCall] == Call(next.gen, Snapshot, NOWHERE);
    }
  }

  // --- Messages ---

  predicate TakesFrom(st: State, next: State) {
    && SameCalls(st, next) && OpsFrom(next.devs, st.devs)
    && Listed(next) && DiscoveryOk(next)
    && next.up == st.up && next.scanWanted == st.scanWanted
  }

  lemma OpsFromTrans(a: seq<Device>, b: seq<Device>, c: seq<Device>)
    requires OpsFrom(c, b) && OpsFrom(b, a)
    ensures OpsFrom(c, a)
  {
    forall i | 0 <= i < |c| && c[i].op != Idle
      ensures exists k :: 0 <= k < |a| && a[k].path == c[i].path && a[k].op == c[i].op
    {
      var m :| 0 <= m < |b| && b[m].path == c[i].path && b[m].op == c[i].op;
    }
  }

  predicate SameRows(devs: seq<Device>, was: seq<Device>) {
    |devs| == |was| && forall i :: 0 <= i < |devs| ==> devs[i].path == was[i].path && devs[i].op == was[i].op
  }

  lemma SameRowsOk(devs: seq<Device>, was: seq<Device>)
    requires SameRows(devs, was)
    ensures OpsFrom(devs, was) && SamePaths(devs, was)
  {
    forall i | 0 <= i < |devs| && devs[i].op != Idle
      ensures exists k :: 0 <= k < |was| && was[k].path == devs[i].path && was[k].op == devs[i].op
    {
      assert was[i].path == devs[i].path && was[i].op == devs[i].op;
    }
  }

  /** Whatever changes but the adapter, the calls and the devices' paths and ops. */
  lemma RowsOk(st: State, next: State)
    requires Listed(st) && SameCalls(st, next) && SameRows(next.devs, st.devs) && DiscoveryOk(next)
    requires next.adapter == st.adapter && next.up == st.up && next.scanWanted == st.scanWanted
    ensures TakesFrom(st, next)
  {
    SameRowsOk(next.devs, st.devs);
    SamePathsListed(st, next.devs);
  }

  lemma SetPowerOk(st: State, power: Option<bool>)
    requires Listed(st) && DiscoveryOk(st)
    ensures TakesFrom(st, MaybePower(st, power))
  {
    RowsOk(st, MaybePower(st, power));
  }

  lemma SetPropsOk(st: State, path: Path, p: Props)
    requires Listed(st) && DiscoveryOk(st)
    ensures TakesFrom(st, SetProps(st, path, p))
  {
    RowsOk(st, SetProps(st, path, p));
  }

  lemma AddedOk(st: State, path: Path)
    requires Listed(st) && DiscoveryOk(st) && st.open && UnderAdapter(st.adapter, path) && !Known(st.devs, path)
    ensures TakesFrom(st, st.(devs := Added(st.devs, path)))
  {
    var next := st.(devs := Added(st.devs, path));
    forall i | 0 <= i < |next.devs| && next.devs[i].op != Idle
      ensures exists k :: 0 <= k < |st.devs| && st.devs[k].path == next.devs[i].path && st.devs[k].op == next.devs[i].op
    {
      assert st.devs[i] == next.devs[i];
    }
  }

  lemma TakeDeviceOk(st: State, path: Path, props: Props)
    requires Listed(st) && DiscoveryOk(st) && st.open && UnderAdapter(st.adapter, path)
    ensures TakesFrom(st, SetProps(if Known(st.devs, path) then st else st.(devs := Added(st.devs, path)), path, props))
  {
    if Known(st.devs, path) {
      SetPropsOk(st, path, props);
    } else {
      var s := st.(devs := Added(st.devs, path));
      AddedOk(st, path);
      SetPropsOk(s, path, props);
      OpsFromTrans(st.devs, s.devs, SetProps(s, path, props).devs);
    }
  }

  lemma TakeAdapterOk(st: State, path: Path, power: Option<bool>)
    requires Listed(st) && DiscoveryOk(st) && (st.adapter == NOWHERE || st.adapter == path)
    ensures TakesFrom(st, MaybePower(st.(adapter := path), power))
  {
    assert st.devs != [] ==> UnderAdapter(st.adapter, st.devs[0].path);
    SetPowerOk(st.(adapter := path), power);
  }

  lemma TakeIfaceOk(st: State, path: Path, iface: Iface, adapters: bool, devices: bool)
    requires Listed(st) && DiscoveryOk(st) && st.open
    ensures TakesFrom(st, TakeIface(st, path, iface, adapters, devices))
  {
    match iface {
      case AdapterIface(power) =>
        if adapters && (st.adapter == NOWHERE || st.adapter == path) && |path.name| < PATH_SIZE {
          TakeAdapterOk(st, path, power);
        }
      case DeviceIface(props) =>
        if devices && UnderAdapter(st.adapter, path) {
          TakeDeviceOk(st, path, props);
        }
      case OtherIface =>
    }
  }

  lemma {:induction false} TakeIfacesOk(st: State, path: Path, ifaces: seq<Iface>, adapters: bool, devices: bool)
    requires Listed(st) && DiscoveryOk(st) && st.open
    ensures TakesFrom(st, TakeIfaces(st, path, ifaces, adapters, devices))
    decreases |ifaces|
  {
    if ifaces != [] {
      var s := TakeIface(st, path, ifaces[0], adapters, devices);
      TakeIfaceOk(st, path, ifaces[0], adapters, devices);
      TakeIfacesOk(s, path, ifaces[1..], adapters, devices);
      OpsFromTrans(st.devs, s.devs, TakeIfaces(s, path, ifaces[1..], adapters, devices).devs);
    }
  }

  lemma {:induction false} TakeObjectsOk(st: State, objects: seq<Object>, adapters: bool, devices: bool)
    requires Listed(st) && DiscoveryOk(st) && st.open
    ensures TakesFrom(st, TakeObjects(st, objects, adapters, devices))
    decreases |objects|
  {
    if objects != [] {
      var s := TakeIfaces(st, objects[0].path, objects[0].ifaces, adapters, devices);
      TakeIfacesOk(st, objects[0].path, objects[0].ifaces, adapters, devices);
      TakeObjectsOk(s, objects[1..], adapters, devices);
      OpsFromTrans(st.devs, s.devs, TakeObjects(s, objects[1..], adapters, devices).devs);
    }
  }

  // --- The steps ---

  lemma AutoconnectOk(st: State, sendOk: bool)
    requires Inv(st)
    ensures Inv(AutoconnectNext(st, sendOk))
  {
    if On(st) && st.pairs == 0 && !Listening(st.devs) && Pick(st.devs) < |st.devs| {
      var k := Pick(st.devs);
      var s := st.(devs := st.devs[k := st.devs[k].(tried := true)]);
      RowsOk(st, s);
      BooksKept(st, s, 0, None);
      if sendOk {
        SendConnectOk(s, st.devs[k].path, Auto, 0, None);
      }
    }
  }

  /** A reply's call leaves the books: one pairing less is accounted for if it was one, and the device's op is
      no longer sure to have its call. */
  lemma AnsweredOk(st: State, id: nat)
    requires Inv(st) && id in st.calls
    ensures var c := st.calls[id];
            var s := Answered(st, id);
            Listed(s) && DiscoveryOk(s)
            && (c.gen != st.gen || c.kind == StartDiscovery ==> Books(s, 0, None))
            && (c.gen == st.gen && c.kind != Snapshot ==> Books(s, if PairingKind(c.kind) then 1 else 0, Some(c.path)))
  {
    var c := st.calls[id];
    var s := Answered(st, id);
    var mine := c.gen == st.gen && PairingKind(c.kind);
    assert PairCalls(s) == PairCalls(st) - {id};
    assert mine <==> id in PairCalls(st);
    if Exact(st) {
      forall i | 0 <= i < |s.devs| && s.devs[i].op != Idle && (c.gen == st.gen && c.kind != StartDiscovery ==> s.devs[i].path != c.path)
        ensures Owned(s, s.devs[i].path, s.devs[i].op)
      {
        assert Owned(st, st.devs[i].path, st.devs[i].op);
        var k :| k in st.calls && st.calls[k].gen == st.gen && st.calls[k].path == st.devs[i].path && OpOf(st.calls[k].kind) == st.devs[i].op;
        assert k in s.calls;
      }
    }
    if SnapshotDue(st) && (c.gen == st.gen ==> c.kind != Snapshot) {
      var k :| k in st.calls && st.calls[k].gen == st.gen && st.calls[k].kind == Snapshot;
      assert k in s.calls;
    }
  }

  /** With no device at anything and no pairing, the books are right if no call is of this generation. */
  lemma Blank(st: State)
    requires forall id :: id in st.calls ==> st.calls[id].gen < st.gen
    requires st.pairs == 0 && OpsFrom(st.devs, [])
    ensures Exact(st) && Books(st, 0, None)
  {
    assert PairCalls(st) == {};
  }

  lemma SnapshotTaken(st: State, objects: seq<Object>, wellFormed: bool, s1: State, s2: State)
    requires Listed(st) && DiscoveryOk(st) && st.open && st.devs == []
    requires s1 == TakeObjects(st, objects, true, false)
    requires s2 == if wellFormed && s1.adapter != NOWHERE then TakeObjects(s1, objects, false, true) else s1
    ensures TakesFrom(st, s2)
  {
    TakeObjectsOk(st, objects, true, false);
    if wellFormed && s1.adapter != NOWHERE {
      TakeObjectsOk(s1, objects, false, true);
      OpsFromTrans(st.devs, s1.devs, s2.devs);
    }
  }

  lemma OnSnapshotOk(st: State, outcome: Outcome, objects: seq<Object>, wellFormed: bool, startOk: bool)
    requires Listed(st) && st.open
    ensures Inv(OnSnapshot(st, outcome, objects, wellFormed, startOk))
    ensures Exact(OnSnapshot(st, outcome, objects, wellFormed, startOk))
  {
    ResetOk(st);
    var s := Reset(st);
    if outcome != Success {
      Blank(s.(up := false));
    } else {
      var s0 := s.(up := true);
      var s1 := TakeObjects(s0, objects, true, false);
      var s2 := if wellFormed && s1.adapter != NOWHERE then TakeObjects(s1, objects, false, true) else s1;
      SnapshotTaken(s0, objects, wellFormed, s1, s2);
      MirrorRebuilt(s2, startOk);
    }
  }

  /** What follows once the objects are in the mirror. */
  lemma MirrorRebuilt(s: State, startOk: bool)
    requires Listed(s) && DiscoveryOk(s) && s.open && s.pairs == 0 && OpsFrom(s.devs, [])
    requires forall id :: id in s.calls ==> s.calls[id].gen < s.gen
    ensures var next := UpdateDiscovery(if s.powered then s.(due := true, devs := Untried(s.devs)) else s, startOk);
            Inv(next) && Exact(next)
  {
    var s3 := if s.powered then s.(due := true, devs := Untried(s.devs)) else s;
    SamePathsListed(s, s3.devs);
    Blank(s3);
    UpdateDiscoveryOk(s3, startOk, 0, None);
    StartedExact(s3, startOk);
  }

  lemma StartedExact(st: State, startOk: bool)
    requires Listed(st) && Exact(st) && st.pairs == 0 && OpsFrom(st.devs, [])
    ensures Exact(UpdateDiscovery(st, startOk))
  {
    var next := UpdateDiscovery(st, startOk);
    assert PairCalls(next) == PairCalls(st);
  }

  lemma OnPairOk(st: State, path: Path, outcome: Outcome, sendOk: bool, startOk: bool)
    requires Listed(st) && DiscoveryOk(st) && Books(st, 1, Some(path))
    ensures Inv(OnPair(st, path, outcome, sendOk, startOk))
  {
    if outcome == Error || !(st.open && sendOk) {
      SetOpOk(st, path, Idle, 1, Some(path));
      FinishPairOk(SetOp(st, path, Idle), startOk, 0);
    } else {
      SendConnectOk(st, path, FromPair, 1, Some(path));
    }
  }

  lemma OnConnectOk(st: State, path: Path, why: Why, outcome: Outcome, sendOk: bool, startOk: bool)
    requires Listed(st) && DiscoveryOk(st) && Books(st, if why == FromPair then 1 else 0, Some(path))
    ensures Inv(OnConnect(st, path, why, outcome, sendOk, startOk))
  {
    var s := SetOp(st, path, Idle);
    SetOpOk(st, path, Idle, if why == FromPair then 1 else 0, Some(path));
    match why {
      case Auto => AutoconnectOk(s, sendOk);
      case FromPair => FinishPairOk(s, startOk, 0);
      case Asked =>
    }
  }

  lemma ReplyOk(st: State, id: nat, outcome: Outcome, objects: seq<Object>, wellFormed: bool, sendOk: bool, startOk: bool)
    requires Inv(st) && st.open && id in st.calls
    ensures Inv(OnReply(st, id, outcome, objects, wellFormed, sendOk, startOk))
  {
    var c := st.calls[id];
    var s := Answered(st, id);
    AnsweredOk(st, id);
    if c.gen == st.gen {
      match c.kind {
        case Snapshot => OnSnapshotOk(s, outcome, objects, wellFormed, startOk);
        case StartDiscovery => assert PairCalls(s.(discovering := false)) == PairCalls(s);
        case Pair => OnPairOk(s, c.path, outcome, sendOk, startOk);
        case Connect(why) => OnConnectOk(s, c.path, why, outcome, sendOk, startOk);
        case Disconnect => SetOpOk(s, c.path, Idle, 0, Some(c.path));
      }
    }
  }

  lemma {:induction false} RemovedUnique(devs: seq<Device>, path: Path)
    requires Unique(devs)
    ensures Unique(Removed(devs, path))
  {
    if devs != [] {
      RemovedUnique(devs[1..], path);
      forall d | d in Removed(devs[1..], path) ensures d.path != devs[0].path {
        assert d in devs[1..];
      }
    }
  }

  lemma RemovedOk(st: State, path: Path)
    requires Inv(st)
    ensures Inv(st.(devs := Removed(st.devs, path)))
  {
    var next := st.(devs := Removed(st.devs, path));
    RemovedUnique(st.devs, path);
    forall i | 0 <= i < |next.devs| ensures next.devs[i] in st.devs {
    }
    assert OpsFrom(next.devs, st.devs);
    BooksKept(st, next, 0, None);
  }

  lemma {:induction false} DropIfacesOk(st: State, path: Path, ifaces: seq<Iface>, sendOk: bool)
    requires Inv(st)
    ensures Inv(DropIfaces(st, path, ifaces, sendOk))
    decreases |ifaces|
  {
    if ifaces != [] {
      match ifaces[0] {
        case DeviceIface(_) =>
          RemovedOk(st, path);
          DropIfacesOk(st.(devs := Removed(st.devs, path)), path, ifaces[1..], sendOk);
        case AdapterIface(_) =>
          if path == st.adapter {
            ResetOk(st);
            FetchOk(Reset(st), sendOk);
          } else {
            DropIfacesOk(st, path, ifaces[1..], sendOk);
          }
        case OtherIface => DropIfacesOk(st, path, ifaces[1..], sendOk);
      }
    }
  }

  lemma ScanOk(st: State, on: bool, startOk: bool)
    requires Inv(st)
    ensures Inv(UpdateDiscovery(st.(scanWanted := on), startOk))
  {
    BooksKept(st, st.(scanWanted := on), 0, None);
    UpdateDiscoveryOk(st.(scanWanted := on), startOk, 0, None);
  }

  lemma OneMorePair(st: State)
    requires Inv(st)
    ensures Listed(st.(pairs := st.pairs + 1)) && Books(st.(pairs := st.pairs + 1), 1, None)
  {
    var next := st.(pairs := st.pairs + 1);
    assert PairCalls(next) == PairCalls(st);
    if Exact(st) {
      forall i | 0 <= i < |next.devs| && next.devs[i].op != Idle ensures Owned(next, next.devs[i].path, next.devs[i].op) {
        assert Owned(st, st.devs[i].path, st.devs[i].op);
      }
    }
    if SnapshotDue(st) {
      assert SnapshotDue(next);
    }
  }

  lemma PairSentOk(st: State, path: Path)
    requires Listed(st) && st.open && DiscoveryOk(st) && Books(st, 1, None)
    ensures Inv(SetOp(Send(st, Pair, path), path, Pairing))
  {
    SendBooks(st, Pair, path, 1, None);
    SetOpOk(Send(st, Pair, path), path, Pairing, 0, None);
  }

  lemma TapPairOk(st: State, path: Path, sendOk: bool, startOk: bool)
    requires Inv(st)
    ensures Inv(TapPair(st, path, sendOk, startOk))
  {
    if IdleDevice(st, path) {
      PairCounted(st, startOk);
      PairTriedOk(PairBegan(st, startOk), path, sendOk, startOk);
    }
  }

  lemma PairCounted(st: State, startOk: bool)
    requires Inv(st)
    ensures var next := PairBegan(st, startOk);
            Listed(next) && DiscoveryOk(next) && Books(next, 1, None) && next.open == st.open
  {
    OneMorePair(st);
    UpdateDiscoveryOk(st.(pairs := st.pairs + 1), startOk, 1, None);
  }

  lemma PairTriedOk(st: State, path: Path, sendOk: bool, startOk: bool)
    requires Listed(st) && DiscoveryOk(st) && Books(st, 1, None)
    ensures Inv(SendPair(st, path, sendOk, startOk))
  {
    if st.open && sendOk {
      PairSentOk(st, path);
    } else {
      FinishPairOk(st, startOk, 0);
    }
  }

  lemma TapOk(st: State, path: Path, kind: Kind, op: Op)
    requires Inv(st) && st.open && OpOf(kind) == op && !PairingKind(kind)
    ensures Inv(SetOp(Send(st, kind, path), path, op))
  {
    SendBooks(st, kind, path, 0, None);
    SetOpOk(Send(st, kind, path), path, op, 0, None);
  }

  lemma TakenOk(st: State, next: State, startOk: bool)
    requires Inv(st) && TakesFrom(st, next)
    ensures Inv(UpdateDiscovery(next, startOk))
  {
    BooksKept(st, next, 0, None);
    UpdateDiscoveryOk(next, startOk, 0, None);
  }

  lemma BusOk(st: State, e: Event)
    requires Inv(st) && Enabled(st, e) && (e.BusLost? || e.BusOpened? || e.OwnerGone? || e.OwnerCame?)
    ensures Inv(Apply(st, e))
  {
    match e {
      case BusLost => ClosedOk(st);
      case BusOpened(matched, sendOk) =>
        if matched {
          FetchOk(st.(open := true), sendOk);
        } else {
          ClosedOk(st.(open := true));
        }
      case OwnerGone =>
        ResetOk(st);
        BooksKept(Reset(st), Reset(st).(up := false), 0, None);
      case OwnerCame(sendOk) => FetchOk(st, sendOk);
    }
  }

  lemma ClosedOk(st: State)
    requires Listed(st)
    ensures Inv(CloseBus(st)) && Exact(CloseBus(st))
  {
    Blank(CloseBus(st));
  }

  lemma DeviceTapInv(st: State, e: Event)
    requires Inv(st) && Enabled(st, e) && (e.PairTapped? || e.ConnectTapped? || e.DisconnectTapped?)
    ensures Inv(Apply(st, e))
  {
    match e {
      case PairTapped(path, sendOk, startOk) =>
        TapPairOk(st, path, sendOk, startOk);
      case ConnectTapped(path, sendOk) =>
        if IdleDevice(st, path) && st.open && sendOk {
          TapOk(st, path, Connect(Asked), Connecting);
        }
      case DisconnectTapped(path, sendOk) =>
        if IdleDevice(st, path) && st.open && sendOk {
          TapOk(st, path, Disconnect, Disconnecting);
        }
    }
  }

  lemma ScreenInv(st: State, e: Event)
    requires Inv(st) && Enabled(st, e) && (e.ScanStart? || e.ScanStop? || e.AutoconnectDue?)
    ensures Inv(Apply(st, e))
  {
    match e {
      case ScanStart(startOk) => ScanOk(st, true, startOk);
      case ScanStop(startOk) => ScanOk(st, false, startOk);
      case AutoconnectDue(sendOk) =>
        BooksKept(st, st.(due := false), 0, None);
        AutoconnectOk(st.(due := false), sendOk);
    }
  }

  lemma MessageInv(st: State, e: Event)
    requires Inv(st) && Enabled(st, e)
    requires e.InterfacesAdded? || e.InterfacesRemoved? || e.AdapterChanged? || e.DeviceChanged?
    ensures Inv(Apply(st, e))
  {
    match e {
      case InterfacesAdded(o, startOk) =>
        if st.up {
          TakeIfacesOk(st, o.path, o.ifaces, true, true);
          TakenOk(st, TakeIfaces(st, o.path, o.ifaces, true, true), startOk);
        }
      case InterfacesRemoved(path, ifaces, sendOk) => DropIfacesOk(st, path, ifaces, sendOk);
      case AdapterChanged(path, power, startOk) =>
        if path == st.adapter {
          SetPowerOk(st, power);
          TakenOk(st, MaybePower(st, power), startOk);
        }
      case DeviceChanged(path, props) =>
        SetPropsOk(st, path, props);
        BooksKept(st, SetProps(st, path, props), 0, None);
    }
  }

  /** Every callback and every action keeps the invariant. */
  lemma StepInv(st: State, e: Event)
    requires Inv(st) && Enabled(st, e)
    ensures Inv(Apply(st, e))
  {
    if e.PairTapped? || e.ConnectTapped? || e.DisconnectTapped? {
      DeviceTapInv(st, e);
    } else if e.ScanStart? || e.ScanStop? || e.AutoconnectDue? {
      ScreenInv(st, e);
    } else if e.Reply? {
      ReplyOk(st, e.id, e.outcome, e.objects, e.wellFormed, e.sendOk, e.startOk);
    } else if e.InterfacesAdded? || e.InterfacesRemoved? || e.AdapterChanged? || e.DeviceChanged? {
      MessageInv(st, e);
    } else {
      BusOk(st, e);
    }
  }

  // --- Whole runs ---

  const START: State := State(false, 0, false, NOWHERE, false, [], false, false, false, 0, map[], 0, false)

  predicate Possible(st: State, events: seq<Event>)
    decreases |events|
  {
    events == [] || (Enabled(st, events[0]) && Possible(Apply(st, events[0]), events[1..]))
  }

  function Exec(st: State, events: seq<Event>): State
    requires Possible(st, events)
    decreases |events|
  {
    if events == [] then st else Exec(Apply(st, events[0]), events[1..])
  }

  lemma {:induction false} RunInv(st: State, events: seq<Event>)
    requires Inv(st) && Possible(st, events)
    ensures Inv(Exec(st, events))
    decreases |events|
  {
    if events != [] {
      StepInv(st, events[0]);
      RunInv(Apply(st, events[0]), events[1..]);
    }
  }

  /** In every reachable state: a discovery that runs is wanted, has a powered adapter, and no pairing call is
      out; the pairing count never misses such a call; and with no snapshot awaited or lost, the count is exactly
      theirs and every device that is at something has its own call. */
  lemma EveryRun(events: seq<Event>)
    requires Possible(START, events)
    ensures var r := Exec(START, events);
            && (r.discovering ==> r.scanWanted && r.adapter != NOWHERE && r.powered && r.pairs == 0 && PairCalls(r) == {})
            && r.pairs >= |PairCalls(r)|
            && (!SnapshotDue(r) && !r.lost ==>
                  r.pairs == |PairCalls(r)|
                  && forall i :: 0 <= i < |r.devs| && r.devs[i].op != Idle ==> Owned(r, r.devs[i].path, r.devs[i].op))
  {
    assert PairCalls(START) == {};
    RunInv(START, events);
    var r := Exec(START, events);
    assert r.discovering ==> |PairCalls(r)| == 0;
  }

  /** So once the calls of this generation are answered, nothing is left at work. */
  lemma QuietIsIdle(events: seq<Event>)
    requires Possible(START, events)
    requires var r := Exec(START, events);
             !r.lost && forall id :: id in r.calls ==> r.calls[id].gen != r.gen
    ensures var r := Exec(START, events);
            r.pairs == 0 && forall i :: 0 <= i < |r.devs| ==> r.devs[i].op == Idle
  {
    EveryRun(events);
    var r := Exec(START, events);
    assert PairCalls(r) == {};
    forall i | 0 <= i < |r.devs| ensures r.devs[i].op == Idle {
      assert !Owned(r, r.devs[i].path, r.devs[i].op);
    }
  }

  const ADAPTER: Path := At("/a")
  const HEADSET: Path := At("/a/d")
  const NO_PROPS: Props := Props(None, None, None, None, None, None)
  const OBJECTS: seq<Object> := [Object(ADAPTER, [AdapterIface(Some(true))]), Object(HEADSET, [DeviceIface(NO_PROPS)])]

  /** The proviso is needed: when bluetoothd comes anew while a headset is being paired, and the request for a
      snapshot cannot be sent, no call is out and yet a pairing is counted, so the search does not resume. */
  lemma LostSnapshot() returns (events: seq<Event>)
    ensures Possible(START, events)
    ensures var r := Exec(START, events);
            r.lost && r.calls == map[] && r.pairs == 1 && !r.discovering && Wanted(r.(pairs := 0))
  {
    var s1 := Apply(START, BusOpened(true, true));
    var found := Reply(0, Success, OBJECTS, true, true, true);
    var s2 := Apply(s1, found);
    FirstSnapshot(s1, s2);
    events := PairingStranded(s2);
    Then(s1, found, events);
    events := [found] + events;
    Then(START, BusOpened(true, true), events);
    events := [BusOpened(true, true)] + events;
  }

  lemma Then(st: State, e: Event, rest: seq<Event>)
    requires Enabled(st, e) && Possible(Apply(st, e), rest)
    ensures Possible(st, [e] + rest) && Exec(st, [e] + rest) == Exec(Apply(st, e), rest)
  {
    assert ([e] + rest)[1..] == rest;
  }

  lemma PairingStranded(st: State) returns (events: seq<Event>)
    requires st.open && st.up && st.gen == 2 && st.adapter == ADAPTER && st.powered && st.devs == [NewDevice(HEADSET)]
    requires st.calls == map[] && st.nextCall == 1 && st.pairs == 0 && !st.discovering && !st.scanWanted
    ensures Possible(st, events)
    ensures var r := Exec(st, events);
            r.lost && r.calls == map[] && r.pairs == 1 && !r.discovering && Wanted(r.(pairs := 0))
  {
    var s3 := Apply(st, ScanStart(false));
    var tap := PairTapped(HEADSET, true, true);
    assert IdleDevice(s3, HEADSET) by {
      assert s3.devs[0].path == HEADSET;
    }
    var s4 := Apply(s3, tap);
    assert s4.calls == map[1 := Call(2, Pair, HEADSET)];
    var s5 := Apply(s4, OwnerCame(false));
    var answer := Reply(1, Success, [], true, true, true);
    assert Answered(s5, 1).calls == map[];
    events := AnswerTooLate(s5, answer);
    Then(s4, OwnerCame(false), events);
    events := [OwnerCame(false)] + events;
    Then(s3, tap, events);
    events := [tap] + events;
    Then(st, ScanStart(false), events);
    events := [ScanStart(false)] + events;
  }

  lemma AnswerTooLate(st: State, answer: Event) returns (events: seq<Event>)
    requires answer == Reply(1, Success, [], true, true, true) && Enabled(st, answer)
    requires st.lost && st.pairs == 1 && !st.discovering && Wanted(st.(pairs := 0)) && Answered(st, 1).calls == map[]
    requires st.calls[1].kind == Pair && st.calls[1].gen != st.gen
    ensures Possible(st, events)
    ensures var r := Exec(st, events);
            r.lost && r.calls == map[] && r.pairs == 1 && !r.discovering && Wanted(r.(pairs := 0))
  {
    Then(st, answer, []);
    events := [answer] + [];
  }

  lemma FirstSnapshot(s1: State, s2: State)
    requires s1 == Apply(START, BusOpened(true, true))
    requires s1.calls == map[0 := Call(1, Snapshot, NOWHERE)]
    requires s2 == Apply(s1, Reply(0, Success, OBJECTS, true, true, true))
    ensures s2.open && s2.up && s2.gen == 2 && s2.adapter == ADAPTER && s2.powered && s2.devs == [NewDevice(HEADSET)]
    ensures s2.calls == map[] && s2.nextCall == 1 && s2.pairs == 0 && !s2.discovering && !s2.scanWanted && !s2.lost
  {
    var s := Reset(Answered(s1, 0)).(up := true);
    var r1 := TakeObjects(s, OBJECTS, true, false);
    var r2 := TakeObjects(r1, OBJECTS, false, true);
    assert s.devs == [] && s.adapter == NOWHERE;
    ObjectsTaken(s, true, false);
    assert r1 == MaybePower(s.(adapter := ADAPTER), Some(true));
    ObjectsTaken(r1, false, true);
    assert UnderAdapter(ADAPTER, HEADSET);
    assert r2.devs == [NewDevice(HEADSET)];
    assert Untried(r2.devs) == r2.devs;
  }

  lemma ObjectsTaken(st: State, adapters: bool, devices: bool)
    ensures TakeObjects(st, OBJECTS, adapters, devices) ==
            TakeIface(TakeIface(st, ADAPTER, AdapterIface(Some(true)), adapters, devices), HEADSET, DeviceIface(NO_PROPS), adapters, devices)
  {
    var s := TakeIface(st, ADAPTER, AdapterIface(Some(true)), adapters, devices);
    OneIface(st, ADAPTER, AdapterIface(Some(true)), adapters, devices);
    OneIface(s, HEADSET, DeviceIface(NO_PROPS), adapters, devices);
    var t := TakeIface(s, HEADSET, DeviceIface(NO_PROPS), adapters, devices);
    assert OBJECTS[1..] == [Object(HEADSET, [DeviceIface(NO_PROPS)])] && OBJECTS[1..][1..] == [];
    assert TakeObjects(s, OBJECTS[1..], adapters, devices) == TakeObjects(t, OBJECTS[1..][1..], adapters, devices);
  }

  lemma OneIface(st: State, path: Path, iface: Iface, adapters: bool, devices: bool)
    ensures TakeIfaces(st, path, [iface], adapters, devices) == TakeIface(st, path, iface, adapters, devices)
  {
    assert [iface][1..] == [];
  }

  /** A reply from before the last generation changes nothing but that it is no longer awaited. */
  lemma StaleReply(st: State, e: Event)
    requires Enabled(st, e) && e.Reply? && st.calls[e.id].gen != st.gen
    ensures Apply(st, e) == st.(calls := Apply(st, e).calls) && Apply(st, e).calls.Keys == st.calls.Keys - {e.id}
  {
  }

  /** The adapter is not asked to reconnect anything while a pairing is under way, and each asking spends one
      device's turn of the round, so a round of failures ends. */
  lemma ReconnectsSpendTurns(st: State, sendOk: bool)
    requires Inv(st)
    ensures var next := AutoconnectNext(st, sendOk);
            next == st
            || (st.pairs == 0 && Turns(next.devs) < Turns(st.devs) && next.calls.Keys <= st.calls.Keys + {st.nextCall})
  {
    if AutoconnectNext(st, sendOk) != st {
      var k := Pick(st.devs);
      var spent := st.devs[k := st.devs[k].(tried := true)];
      TurnSpent(st.devs, spent, k);
      if sendOk {
        var s := Send(st.(devs := spent), Connect(Auto), st.devs[k].path);
        SameTurns(spent, SetOp(s, st.devs[k].path, Connecting).devs);
      }
    }
  }

  /** How many devices the round has not tried. */
  function Turns(devs: seq<Device>): nat {
    if devs == [] then 0 else (if devs[0].tried then 0 else 1) + Turns(devs[1..])
  }

  lemma {:induction false} TurnSpent(a: seq<Device>, b: seq<Device>, k: nat)
    requires |a| == |b| && k < |a| && !a[k].tried && b[k].tried
    requires forall i :: 0 <= i < |a| && i != k ==> a[i].tried == b[i].tried
    ensures Turns(b) < Turns(a)
  {
    if k > 0 {
      TurnSpent(a[1..], b[1..], k - 1);
    } else {
      SameTurns(a[1..], b[1..]);
    }
  }

  lemma {:induction false} SameTurns(a: seq<Device>, b: seq<Device>)
    requires |a| == |b| && forall i :: 0 <= i < |a| ==> a[i].tried == b[i].tried
    ensures Turns(a) == Turns(b)
  {
    if a != [] {
      SameTurns(a[1..], b[1..]);
    }
  }
}
