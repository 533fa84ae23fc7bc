/**
 The shared state of src/ha/ha.c and the worker that talks to the server without the lock,
 as a step relation: each event is one section under the lock, a reply coming with the
 section that takes it in. What is shown carries the server it came from, so that "no
 stale data" can be said.
 */
module HomeAssistant {
  import opened Wrappers

  const JOBS_MAX: nat := 16

  datatype Text = Text(chars: string)

  const EMPTY: Text := Text("")

  datatype Config = Config(url: Text, token: Text) {
    predicate Complete() {
      url != EMPTY && token != EMPTY
    }
  }

  /** What an entity shows: what its server reported, or what an action is expected to bring about. */
  datatype Value = Reported(v: nat) | Expected(job: Job)

  /** An entity, and the server whose list it came in. */
  datatype Entity = Entity(id: nat, from: Config, value: Value)

  datatype Info = Info(name: Text, from: Config)

  datatype Status = Unconfigured | Connecting | Ok(from: Config) | Trouble(why: nat, from: Config)

  /** An action, with the server configured when it was queued. */
  datatype Job = Job(id: nat, action: nat, queuedFor: Config)

  /** The worker between sections: waiting for a reply in the generation and with the address it took. */
  datatype Worker =
    | Resting
    | Listing(gen: nat, to_: Config)
    | AskingInfo(gen: nat, to_: Config)
    | Acting(gen: nat, to_: Config, job: Job)
    | Confirming(gen: nat, to_: Config, job: Job)

  /** An action sent to a server. */
  datatype Sent = Sent(job: Job, to_: Config)

  /** `patch`: the action just queued, while its caller has still to show what it is expected to bring about; there is
      one thread that calls. For the proofs: the actions queued, and those taken by the worker, since the last change of
      server; all that was sent; and the server of every generation. */
  datatype State = State(
    cfg: Config, gen: nat, status: Status, ents: seq<Entity>, info: Option<Info>, failed: bool,
    refresh: bool, jobs: seq<Job>, version: nat, worker: Worker, patch: Option<Job>,
    queued: seq<Job>, taken: seq<Job>, sent: seq<Sent>, servers: seq<Config>)

  datatype Event =
    | SetUrl(url: Text, saved: bool)
    | SetToken(token: Text, saved: bool)
    | Refresh
    | Enqueue(id: nat, action: nat)
    | Patch
    | TakeFailure
    | WorkerTakes
    | ListFails(why: nat)
    | ListComes(list: Option<seq<(nat, nat)>>, garbled: nat)
    | InfoComes(name: Option<Text>)
    | ActionFails
    | ActionDone
    | Confirmed(state: Option<(nat, nat)>)

  // --- The steps ---

  function StartStatus(cfg: Config): Status {
    if cfg.Complete() then Connecting else Unconfigured
  }

  /** `config_changed_locked`, with the new server in place. */
  function Changed(st: State, cfg: Config): State {
    st.(cfg := cfg, gen := st.gen + 1, status := StartStatus(cfg), ents := [], info := None,
        refresh := cfg.Complete(), jobs := [], version := st.version + 1,
        queued := [], taken := [], servers := st.servers + [cfg])
  }

  function Configure(st: State, cfg: Config, saved: bool): State {
    if saved && cfg != st.cfg then Changed(st, cfg) else st
  }

  function WithUrl(cfg: Config, url: Text): Config {
    Config(url, if url == EMPTY then EMPTY else cfg.token)
  }

  /** `set_status_locked`. */
  function SetStatus(st: State, status: Status): State {
    if st.status != status then st.(status := status, version := st.version + 1) else st
  }

  /** The first entity of that id from the `i`th on, or the length. */
  function Find(ents: seq<Entity>, id: nat, i: nat): (k: nat)
    requires i <= |ents|
    ensures i <= k <= |ents| && (k < |ents| ==> ents[k].id == id)
    ensures forall j :: i <= j < k ==> ents[j].id != id
    decreases |ents| - i
  {
    if i == |ents| || ents[i].id == id then i else Find(ents, id, i + 1)
  }

  /** `patch_locked`. */
  function Patched(st: State, job: Job): State {
    var k := Find(st.ents, job.id, 0);
    if k == |st.ents| then st
    else st.(ents := st.ents[k := st.ents[k].(value := Expected(job))], version := st.version + 1)
  }

  function Listed(list: seq<(nat, nat)>, from: Config): (ents: seq<Entity>)
    ensures |ents| == |list| && forall i :: 0 <= i < |ents| ==> ents[i] == Entity(list[i].0, from, Reported(list[i].1))
  {
    seq(|list|, i requires 0 <= i < |list| => Entity(list[i].0, from, Reported(list[i].1)))
  }

  predicate Enabled(st: State, e: Event) {
    match e
    case SetUrl(_, _) => st.patch == None
    case SetToken(_, _) => st.patch == None
    case Refresh => st.patch == None
    case Enqueue(_, _) => st.patch == None
    case Patch => st.patch.Some?
    case TakeFailure => st.patch == None
    case WorkerTakes => st.worker == Resting && (st.jobs != [] || (st.refresh && st.cfg.Complete()))
    case ListFails(_) => st.worker.Listing?
    case ListComes(_, _) => st.worker.Listing?
    case InfoComes(_) => st.worker.AskingInfo?
    case ActionFails => st.worker.Acting?
    case ActionDone => st.worker.Acting?
    case Confirmed(_) => st.worker.Confirming?
  }

  function Apply(st: State, e: Event): State
    requires Enabled(st, e)
  {
    match e
    case SetUrl(url, saved) => Configure(st, WithUrl(st.cfg, url), saved)
    case SetToken(token, saved) => Configure(st, st.cfg.(token := token), saved)
    case Refresh => if st.cfg.Complete() then st.(refresh := true) else st
    case Enqueue(id, action) => Queue(st, Job(id, action, st.cfg))
    case Patch => Patched(st, st.patch.value).(patch := None)
    case TakeFailure => st.(failed := false)
    case WorkerTakes => Take(st)
    case ListFails(why) =>
      var s := st.(worker := Resting);
      if st.worker.gen == st.gen then SetStatus(s, Trouble(why, st.worker.to_)) else s
    case ListComes(list, garbled) => TakeList(st, list, garbled)
    case InfoComes(name) => TakeInfo(st, name)
    case ActionFails => TakeRefusal(st)
    case ActionDone => st.(worker := Confirming(st.worker.gen, st.worker.to_, st.worker.job))
    case Confirmed(state) => Confirm(st, state)
  }

  /** `enqueue`. */
  function Queue(st: State, job: Job): State {
    if st.cfg.Complete() && |st.jobs| < JOBS_MAX then
      st.(jobs := st.jobs + [job], queued := st.queued + [job], patch := Some(job))
    else st
  }

  /** The top of the worker's loop: an action before a refresh, and the server as it is now. */
  function Take(st: State): State {
    if st.jobs != [] then
      st.(jobs := st.jobs[1..], taken := st.taken + [st.jobs[0]], sent := st.sent + [Sent(st.jobs[0], st.cfg)],
          worker := Acting(st.gen, st.cfg, st.jobs[0]))
    else st.(refresh := false, worker := Listing(st.gen, st.cfg))
  }

  function TakeList(st: State, list: Option<seq<(nat, nat)>>, garbled: nat): State
    requires st.worker.Listing?
  {
    var s := st.(worker := Resting);
    var from := st.worker.to_;
    if st.worker.gen != st.gen then s
    else if list.None? then SetStatus(s, Trouble(garbled, from))
    else ShowList(s, Listed(list.value, from), from)
  }

  function TakeInfo(st: State, name: Option<Text>): State
    requires st.worker.AskingInfo?
  {
    var s := st.(worker := Resting);
    if name.Some? && st.worker.gen == st.gen then s.(info := Some(Info(name.value, st.worker.to_)), version := st.version + 1) else s
  }

  /** A failed action is told, and a refresh undoes what was expected of it. */
  function TakeRefusal(st: State): State
    requires st.worker.Acting?
  {
    var s := st.(worker := Resting);
    if st.worker.gen == st.gen then s.(failed := true, refresh := true, version := st.version + 1) else s
  }

  function ShowList(st: State, ents: seq<Entity>, from: Config): State {
    var s := SetStatus(if ents != st.ents then st.(ents := ents, version := st.version + 1) else st, Ok(from));
    if st.info.None? then s.(worker := AskingInfo(st.gen, from)) else s
  }

  function Confirm(st: State, state: Option<(nat, nat)>): State
    requires st.worker.Confirming?
  {
    var s := st.(worker := Resting);
    if state.None? || st.worker.gen != st.gen then s
    else
      var k := Find(st.ents, state.value.0, 0);
      if k == |st.ents| then s
      else
        var newest := Entity(state.value.0, st.worker.to_, Reported(state.value.1));
        if st.ents[k] != newest then s.(ents := st.ents[k := newest], version := st.version + 1) else s
  }

  // --- What every run keeps ---

  /** All that is shown came from the server now configured. */
  predicate Fresh(st: State) {
    && (forall i :: 0 <= i < |st.ents| ==> st.ents[i].from == st.cfg)
    && (st.info.Some? ==> st.info.value.from == st.cfg)
    && (st.status.Ok? || st.status.Trouble? ==> st.status.from == st.cfg)
    && (st.status == Unconfigured <==> !st.cfg.Complete())
  }

  /** Generations are those of the servers so far. */
  predicate Dated(st: State) {
    && |st.servers| == st.gen + 1 && st.servers[st.gen] == st.cfg
    && (st.worker != Resting ==> st.worker.gen <= st.gen && st.servers[st.worker.gen] == st.worker.to_ && st.worker.to_.Complete())
  }

  /** The last of the actions sent are those taken, in the same order. */
  predicate Follows(sent: seq<Sent>, taken: seq<Job>) {
    |taken| <= |sent| && forall i :: 0 <= i < |taken| ==> sent[|sent| - |taken| + i].job == taken[i]
  }

  /** Actions are sent and wait in the order they were queued, for the server they were queued for, and go nowhere else. */
  predicate Ordered(st: State) {
    && st.queued == st.taken + st.jobs && |st.jobs| <= JOBS_MAX && Follows(st.sent, st.taken)
    && (forall i :: 0 <= i < |st.queued| ==> st.queued[i].queuedFor == st.cfg)
    && (forall i :: 0 <= i < |st.sent| ==> st.sent[i].to_ == st.sent[i].job.queuedFor)
    && (!st.cfg.Complete() ==> st.jobs == [] && !st.refresh)
  }

  /** What is expected, or about to be, is so of an action on that very entity, queued since the server was last changed,
      and so for the server now configured. */
  predicate Expecting(st: State) {
    && (forall i :: 0 <= i < |st.ents| && st.ents[i].value.Expected? ==> Meant(st, st.ents[i].value.job, st.ents[i].id))
    && (st.patch.Some? ==> Meant(st, st.patch.value, st.patch.value.id))
  }

  predicate Meant(st: State, job: Job, id: nat) {
    job.id == id && job.queuedFor == st.cfg && job in st.queued
  }

  predicate Inv(st: State) {
    Fresh(st) && Dated(st) && Ordered(st) && Expecting(st)
  }

  ghost predicate IsStart(st: State) {
    && st.gen == 0 && st.status == StartStatus(st.cfg) && st.ents == [] && st.info == None && !st.failed && !st.refresh
    && st.jobs == [] && st.worker == Resting && st.patch == None
    && st.queued == [] && st.taken == [] && st.sent == [] && st.servers == [st.cfg]
  }

  lemma ConfigureInv(st: State, cfg: Config, saved: bool)
    requires Inv(st) && st.patch == None
    ensures Inv(Configure(st, cfg, saved))
  {
  }

  lemma FollowsOn(sent: seq<Sent>, taken: seq<Job>, s: Sent)
    requires Follows(sent, taken)
    ensures Follows(sent + [s], taken + [s.job])
  {
  }

  lemma TakeInv(st: State)
    requires Inv(st) && Enabled(st, WorkerTakes)
    ensures Inv(Take(st))
  {
    if st.jobs != [] {
      assert st.jobs[0] == st.queued[|st.taken|];
      assert st.jobs == [st.jobs[0]] + st.jobs[1..];
      assert st.queued == (st.taken + [st.jobs[0]]) + st.jobs[1..];
      FollowsOn(st.sent, st.taken, Sent(st.jobs[0], st.cfg));
    }
  }

  /** What comes of a reply: other entities of the server, another status of it, a worker resting or asking on. */
  lemma ShownInv(st: State, next: State)
    requires Inv(st) && next == st.(ents := next.ents, status := next.status, worker := next.worker, version := next.version)
    requires forall i :: 0 <= i < |next.ents| ==> next.ents[i].from == st.cfg
    requires forall i :: 0 <= i < |next.ents| && next.ents[i].value.Expected? ==> next.ents[i] in st.ents
    requires next.status == st.status || (st.cfg.Complete() && (next.status.Ok? || next.status.Trouble?) && next.status.from == st.cfg)
    requires next.worker == Resting || (next.worker == AskingInfo(st.gen, st.cfg) && st.cfg.Complete())
    ensures Inv(next)
  {
  }

  lemma ListInv(st: State, list: Option<seq<(nat, nat)>>, garbled: nat)
    requires Inv(st) && st.worker.Listing?
    ensures Inv(TakeList(st, list, garbled))
  {
    var s := st.(worker := Resting);
    ShownInv(st, s);
    if st.worker.gen == st.gen {
      if list.None? {
        ShownInv(s, SetStatus(s, Trouble(garbled, st.cfg)));
      } else {
        ShowListInv(s, Listed(list.value, st.cfg), ShowList(s, Listed(list.value, st.cfg), st.cfg));
      }
    }
  }

  lemma ShowListInv(st: State, ents: seq<Entity>, next: State)
    requires Inv(st) && st.worker == Resting && st.cfg.Complete() && next == ShowList(st, ents, st.cfg)
    requires forall i :: 0 <= i < |ents| ==> ents[i].from == st.cfg && ents[i].value.Reported?
    ensures Inv(next)
  {
    ShownInv(st, next);
  }

  lemma ConfirmInv(st: State, state: Option<(nat, nat)>)
    requires Inv(st) && st.worker.Confirming?
    ensures Inv(Confirm(st, state))
  {
  }

  lemma PatchedInv(st: State, job: Job)
    requires Inv(st) && Meant(st, job, job.id)
    ensures Inv(Patched(st, job))
  {
  }

  lemma PatchInv(st: State)
    requires Inv(st) && Enabled(st, Patch)
    ensures Inv(Apply(st, Patch))
  {
    PatchedInv(st, st.patch.value);
  }

  lemma FlagInv(st: State, e: Event)
    requires Inv(st) && Enabled(st, e) && (e.Refresh? || e.TakeFailure? || e.ActionDone?)
    ensures Inv(Apply(st, e))
  {
  }

  lemma ListFailsInv(st: State, why: nat)
    requires Inv(st) && st.worker.Listing?
    ensures Inv(Apply(st, ListFails(why)))
  {
    ShownInv(st, st.(worker := Resting));
    ShownInv(st, Apply(st, ListFails(why)));
  }

  lemma InfoInv(st: State, name: Option<Text>)
    requires Inv(st) && st.worker.AskingInfo?
    ensures Inv(TakeInfo(st, name))
  {
  }

  lemma RefusalInv(st: State)
    requires Inv(st) && st.worker.Acting?
    ensures Inv(TakeRefusal(st))
  {
  }

  lemma QueueInv(st: State, job: Job)
    requires Inv(st) && job.queuedFor == st.cfg
    ensures Inv(Queue(st, job))
  {
    assert st.taken + (st.jobs + [job]) == (st.taken + st.jobs) + [job];
  }

  lemma StepInv(st: State, e: Event)
    requires Inv(st) && Enabled(st, e)
    ensures Inv(Apply(st, e))
  {
    if e.SetUrl? {
      ConfigureInv(st, WithUrl(st.cfg, e.url), e.saved);
    } else if e.SetToken? {
      ConfigureInv(st, st.cfg.(token := e.token), e.saved);
    } else if e.WorkerTakes? {
      TakeInv(st);
    } else if e.Enqueue? {
      QueueInv(st, Job(e.id, e.action, st.cfg));
    } else if e.ListComes? {
      ListInv(st, e.list, e.garbled);
    } else if e.Confirmed? {
      ConfirmInv(st, e.state);
    } else if e.Patch? {
      PatchInv(st);
    } else if e.ListFails? {
      ListFailsInv(st, e.why);
    } else if e.InfoComes? {
      InfoInv(st, e.name);
    } else if e.ActionFails? {
      RefusalInv(st);
    } else {
      FlagInv(st, e);
    }
  }

  predicate Possible(st: State, events: seq<Event>)
    decreases |events|
  {
    events == [] || (Enabled(st, events[0]) && Possible(Apply(st, events[0]), events[1..]))
  }

  function Exec(st: State, events: seq<Event>): State
    requires Possible(st, events)
    decreases |events|
  {
    if events == [] then st else Exec(Apply(st, events[0]), events[1..])
  }

  lemma {:induction false} RunInv(st: State, events: seq<Event>)
    requires Inv(st) && Possible(st, events)
    ensures Inv(Exec(st, events))
    decreases |events|
  {
    if events != [] {
      StepInv(st, events[0]);
      RunInv(Apply(st, events[0]), events[1..]);
    }
  }

  /** Under every interleaving: the entities, the status and the server's name on show came from the address and token now
      configured, and what an entity is only expected to show is so of an action on it at that server. */
  lemma NothingStale(st: State, events: seq<Event>)
    requires IsStart(st) && Possible(st, events)
    ensures Fresh(Exec(st, events)) && Expecting(Exec(st, events))
  {
    RunInv(st, events);
  }

  /** Every action went to the server configured when it was queued; and of those queued since the server was last
      changed, the first ones were sent, last of all that was sent and in the order they were queued, and the others
      are waiting. */
  lemma ActionsGoWhereMeant(st: State, events: seq<Event>)
    requires IsStart(st) && Possible(st, events)
    ensures var r := Exec(st, events);
            && (forall i :: 0 <= i < |r.sent| ==> r.sent[i].to_ == r.sent[i].job.queuedFor)
            && var n := |r.queued| - |r.jobs|;
            && 0 <= n <= |r.sent| && r.jobs == r.queued[n..]
            && forall i :: 0 <= i < n ==> r.sent[|r.sent| - n + i] == Sent(r.queued[i], r.cfg)
  {
    RunInv(st, events);
    var r := Exec(st, events);
  }

  /** A reply of another generation changes nothing that is shown. */
  lemma LateReply(st: State, e: Event)
    requires Enabled(st, e) && (e.ListFails? || e.ListComes? || e.InfoComes? || e.ActionFails? || e.Confirmed?)
    requires st.worker.gen != st.gen
    ensures Apply(st, e) == st.(worker := Resting)
  {
  }

  predicate SameShown(st: State, next: State) {
    next.ents == st.ents && next.status == st.status && next.info == st.info && (next.failed ==> st.failed)
  }

  predicate Told(st: State, next: State) {
    next.version >= st.version && (next.version > st.version || SameShown(st, next))
  }

  /** Whoever watches the version misses no change of what is shown. */
  lemma VersionTells(st: State, e: Event)
    requires Enabled(st, e)
    ensures Told(st, Apply(st, e))
  {
    if e.ListComes? {
      ListTells(st, e.list, e.garbled);
    } else if e.Confirmed? {
      ConfirmTells(st, e.state);
    }
  }

  lemma ListTells(st: State, list: Option<seq<(nat, nat)>>, garbled: nat)
    requires st.worker.Listing?
    ensures Told(st, TakeList(st, list, garbled))
  {
  }

  lemma ConfirmTells(st: State, state: Option<(nat, nat)>)
    requires st.worker.Confirming?
    ensures Told(st, Confirm(st, state))
  {
  }
}

/** What is on show is what the server said last, and what was done to it since. */
module HomeAssistantScreen {
  import opened Wrappers
  import opened HomeAssistant

  // --- One event ---

  /** A list of the configured server's is shown as it is: each entity in its place, with what the server reported. */
  lemma ListIsShown(st: State, list: seq<(nat, nat)>, garbled: nat)
    requires Inv(st) && st.worker.Listing? && st.worker.gen == st.gen
    ensures var next := Apply(st, ListComes(Some(list), garbled));
            && |next.ents| == |list| && next.status == Ok(st.cfg)
            && (forall i :: 0 <= i < |list| ==>
                  next.ents[i].id == list[i].0 && next.ents[i].value == Reported(list[i].1) && next.ents[i].from == st.cfg)
            && (st.info.None? <==> next.worker == AskingInfo(st.gen, st.cfg)) && (st.info.Some? <==> next.worker == Resting)
  {
  }

  /** One that can not be read, or does not come, leaves what is shown, with the trouble as the status. */
  lemma TroubleIsShown(st: State, why: nat)
    requires Inv(st) && st.worker.Listing? && st.worker.gen == st.gen
    ensures var failed, garbled := Apply(st, ListFails(why)), Apply(st, ListComes(None, why));
            && failed.status == garbled.status == Trouble(why, st.cfg)
            && failed.ents == garbled.ents == st.ents && failed.worker == garbled.worker == Resting
  {
  }

  lemma NameIsShown(st: State, name: Text)
    requires Inv(st) && st.worker.AskingInfo? && st.worker.gen == st.gen
    ensures Apply(st, InfoComes(Some(name))).info == Some(Info(name, st.cfg))
  {
  }

  lemma RefusalIsShown(st: State)
    requires Inv(st) && st.worker.Acting? && st.worker.gen == st.gen
    ensures var next := Apply(st, ActionFails); next.failed && next.refresh && next.worker == Resting
  {
  }

  /** A setting that is saved is taken, and no other. */
  lemma SettingIsTaken(st: State, url: Text, token: Text, saved: bool)
    requires st.patch == None
    ensures var next := Apply(st, SetUrl(url, saved));
            next.cfg == if saved then Config(url, if url == EMPTY then EMPTY else st.cfg.token) else st.cfg
    ensures Apply(st, SetToken(token, saved)).cfg == if saved then Config(st.cfg.url, token) else st.cfg
    ensures !saved ==> Apply(st, SetUrl(url, saved)) == st && Apply(st, SetToken(token, saved)) == st
  {
  }

  /** Another server starts anew: nothing shown, nothing waiting, and a list asked for if it can be. */
  lemma ChangeStartsAnew(st: State, cfg: Config)
    requires cfg != st.cfg
    ensures var next := Configure(st, cfg, true);
            && next.cfg == cfg && next.gen == st.gen + 1 && next.ents == [] && next.info == None && next.jobs == []
            && (if cfg.url != EMPTY && cfg.token != EMPTY then next.status == Connecting && next.refresh
                else next.status == Unconfigured && !next.refresh)
            && next.worker == st.worker && next.version > st.version && next.failed == st.failed
    ensures Configure(st, st.cfg, true) == st
  {
  }

  /** A refresh is asked for if there is a server to ask; a failure is told until it is taken; and an action that was done
      has its outcome asked for. */
  lemma FlagsAreKept(st: State)
    ensures st.patch == None ==> Apply(st, Refresh) == (if st.cfg.url != EMPTY && st.cfg.token != EMPTY then st.(refresh := true) else st)
    ensures st.patch == None ==> Apply(st, TakeFailure) == st.(failed := false)
    ensures st.worker.Acting? ==> Apply(st, ActionDone) == st.(worker := Confirming(st.worker.gen, st.worker.to_, st.worker.job))
  {
  }

  /** While it says "connecting", a list is asked for or on its way. */
  predicate UnderWay(st: State) {
    st.status == Connecting ==> st.refresh || (st.worker.Listing? && st.worker.gen == st.gen)
  }

  lemma StepUnderWay(st: State, e: Event)
    requires Inv(st) && Enabled(st, e) && UnderWay(st)
    ensures UnderWay(Apply(st, e))
  {
    if e.ListComes? {
      assert UnderWay(TakeList(st, e.list, e.garbled));
    } else if e.Confirmed? {
      assert UnderWay(Confirm(st, e.state));
    }
  }

  /** Over every run it never says so with nothing being done about it, from a start that asks for a list. */
  lemma {:induction false} ConnectingIsUnderWay(st: State, events: seq<Event>)
    requires Inv(st) && UnderWay(st) && Possible(st, events)
    ensures UnderWay(Exec(st, events))
    decreases |events|
  {
    if events != [] {
      StepInv(st, events[0]);
      StepUnderWay(st, events[0]);
      ConnectingIsUnderWay(Apply(st, events[0]), events[1..]);
    }
  }

  /** An action waits behind the others as long as there is room, and is about to be shown; otherwise nothing happens. */
  lemma ActionIsQueued(st: State, id: nat, action: nat)
    requires st.patch == None
    ensures var next, job := Apply(st, Enqueue(id, action)), Job(id, action, st.cfg);
            if st.cfg.url != EMPTY && st.cfg.token != EMPTY && |st.jobs| < 16
            then next.jobs == st.jobs + [job] && next.patch == Some(job)
            else next == st
  {
  }

  /** A worker at rest takes the first action there is, and then a refresh; with neither it rests on. */
  lemma WorkIsTaken(st: State)
    requires Inv(st) && st.worker == Resting
    ensures Enabled(st, WorkerTakes) <==> st.jobs != [] || st.refresh
    ensures st.jobs != [] ==>
              var next := Apply(st, WorkerTakes);
              next.worker == Acting(st.gen, st.cfg, st.jobs[0]) && next.jobs == st.jobs[1..] && next.refresh == st.refresh
    ensures st.jobs == [] && st.refresh ==>
              var next := Apply(st, WorkerTakes);
              next.worker == Listing(st.gen, st.cfg) && !next.refresh
  {
  }

  // --- Every run ---

  /** The first entity of that id with another value. */
  function WithValue(ents: seq<Entity>, id: nat, value: Value): seq<Entity> {
    if ents == [] then []
    else if ents[0].id == id then [ents[0].(value := value)] + ents[1..]
    else [ents[0]] + WithValue(ents[1..], id, value)
  }

  function Fetched(list: seq<(nat, nat)>, from: Config): seq<Entity> {
    if list == [] then [] else [Entity(list[0].0, from, Reported(list[0].1))] + Fetched(list[1..], from)
  }

  /** What an event makes of the screen: a list of the configured server's replaces it, an action and a confirmation
      change one entity, another server clears it, and nothing else touches it. */
  function Screen(st: State, e: Event, was: seq<Entity>): seq<Entity>
    requires Enabled(st, e)
  {
    if Apply(st, e).cfg != st.cfg then []
    else if e.ListComes? && e.list.Some? && st.worker.gen == st.gen then Fetched(e.list.value, st.cfg)
    else if e.Patch? then WithValue(was, st.patch.value.id, Expected(st.patch.value))
    else if e.Confirmed? && e.state.Some? && st.worker.gen == st.gen then WithValue(was, e.state.value.0, Reported(e.state.value.1))
    else was
  }

  function ScreenAfter(st: State, events: seq<Event>, was: seq<Entity>): seq<Entity>
    requires Possible(st, events)
    decreases |events|
  {
    if events == [] then was else ScreenAfter(Apply(st, events[0]), events[1..], Screen(st, events[0], was))
  }

  lemma {:induction false} WithValueIs(ents: seq<Entity>, id: nat, value: Value)
    ensures var k := Find(ents, id, 0);
            WithValue(ents, id, value) == if k == |ents| then ents else ents[k := ents[k].(value := value)]
    decreases |ents|
  {
    if ents != [] && ents[0].id != id {
      FindShift(ents, id, 1);
      WithValueIs(ents[1..], id, value);
    }
  }

  lemma {:induction false} FindShift(ents: seq<Entity>, id: nat, i: nat)
    requires 1 <= i <= |ents|
    ensures Find(ents, id, i) == 1 + Find(ents[1..], id, i - 1)
    decreases |ents| - i
  {
    if i < |ents| {
      FindShift(ents, id, i + 1);
    }
  }

  lemma {:induction false} FetchedIs(list: seq<(nat, nat)>, from: Config)
    ensures Fetched(list, from) == Listed(list, from)
  {
    if list != [] {
      FetchedIs(list[1..], from);
      assert Listed(list, from) == [Entity(list[0].0, from, Reported(list[0].1))] + Listed(list[1..], from);
    }
  }

  lemma StepShows(st: State, e: Event)
    requires Inv(st) && Enabled(st, e)
    ensures Apply(st, e).ents == Screen(st, e, st.ents)
  {
    if e.ListComes? && e.list.Some? {
      FetchedIs(e.list.value, st.cfg);
    } else if e.Patch? {
      WithValueIs(st.ents, st.patch.value.id, Expected(st.patch.value));
    } else if e.Confirmed? && e.state.Some? {
      ConfirmShows(st, e.state.value.0, e.state.value.1);
    } else {
      OtherShows(st, e);
    }
  }

  lemma ConfirmShows(st: State, id: nat, v: nat)
    requires Inv(st) && st.worker.Confirming?
    ensures Confirm(st, Some((id, v))).ents == if st.worker.gen == st.gen then WithValue(st.ents, id, Reported(v)) else st.ents
    ensures Confirm(st, Some((id, v))).cfg == st.cfg
  {
    WithValueIs(st.ents, id, Reported(v));
  }

  lemma OtherShows(st: State, e: Event)
    requires Enabled(st, e) && !e.Patch? && !(e.ListComes? && e.list.Some?) && !(e.Confirmed? && e.state.Some?)
    ensures Apply(st, e).ents == if Apply(st, e).cfg != st.cfg then [] else st.ents
  {
  }

  /** Over every run: what is on show is the last list fetched from the configured server, with the actions and the
      confirmations since. */
  lemma {:induction false} ShowsWhatItWasTold(st: State, events: seq<Event>)
    requires Inv(st) && Possible(st, events)
    ensures Exec(st, events).ents == ScreenAfter(st, events, st.ents)
    decreases |events|
  {
    if events != [] {
      StepShows(st, events[0]);
      StepInv(st, events[0]);
      ShowsWhatItWasTold(Apply(st, events[0]), events[1..]);
    }
  }
}

/** The same as it runs: the fields under the lock, and each section of it in place. */
module HomeAssistantClient {
  import opened Wrappers
  import opened HomeAssistant

  class Client {
    var cfg: Config
    var gen: nat
    var status: Status
    var ents: seq<Entity>
    var info: Option<Info>
    var failed: bool
    var refreshPending: bool
    var jobs: seq<Job>
    var version: nat
    var worker: Worker
    ghost var patch: Option<Job>
    ghost var queued: seq<Job>
    ghost var taken: seq<Job>
    ghost var sent: seq<Sent>
    ghost var servers: seq<Config>

    ghost function View(): State
      reads this
    {
      State(cfg, gen, status, ents, info, failed, refreshPending, jobs, version, worker, patch, queued, taken, sent, servers)
    }

    constructor (config: Config)
      ensures IsStart(View()) && cfg == config
    {
      cfg, gen, status, ents, info := config, 0, StartStatus(config), [], None;
      failed, refreshPending, jobs, version, worker := false, false, [], 0, Resting;
      patch, queued, taken, sent, servers := None, [], [], [], [config];
    }

    method DropShown()
      modifies this`gen, this`status, this`ents, this`info, this`version
      ensures gen == old(gen) + 1 && ents == [] && info == None && status == StartStatus(cfg) && version == old(version) + 1
    {
      gen, ents, info := gen + 1, [], None;
      status := if cfg.Complete() then Connecting else Unconfigured;
      version := version + 1;
    }

    method DropJobs()
      modifies this`refreshPending, this`jobs, this`queued, this`taken, this`servers
      ensures jobs == [] && refreshPending == cfg.Complete() && queued == [] && taken == [] && servers == old(servers) + [cfg]
    {
      jobs, refreshPending := [], cfg.Complete();
      queued, taken, servers := [], [], servers + [cfg];
    }

    method ConfigChanged()
      modifies this`gen, this`status, this`ents, this`info, this`refreshPending, this`jobs, this`version,
               this`queued, this`taken, this`servers
      ensures View() == Changed(old(View()), cfg)
    {
      ghost var st := View();
      DropShown();
      DropJobs();
      assert View().cfg == cfg && View() == Changed(st, cfg);
    }

    /** A setting is stored first, and put back if it can not be saved. */
    method StoreConfig(config: Config, saved: bool)
      modifies this`cfg, this`gen, this`status, this`ents, this`info, this`refreshPending, this`jobs, this`version,
               this`queued, this`taken, this`servers
      ensures View() == Configure(old(View()), config, saved)
    {
      var was := cfg;
      cfg := config;
      if !saved {
        cfg := was;
      } else if cfg != was {
        ConfigChanged();
      }
    }

    method SetUrl(url: Text, saved: bool)
      requires patch == None
      modifies this
      ensures View() == Apply(old(View()), Event.SetUrl(url, saved))
    {
      var token := cfg.token;
      if url == EMPTY {
        token := EMPTY;
      }
      StoreConfig(Config(url, token), saved);
    }

    method SetToken(token: Text, saved: bool)
      requires patch == None
      modifies this
      ensures View() == Apply(old(View()), Event.SetToken(token, saved))
    {
      StoreConfig(Config(cfg.url, token), saved);
    }

    method AskRefresh()
      requires patch == None
      modifies this`refreshPending
      ensures View() == Apply(old(View()), Refresh)
    {
      if cfg.Complete() && !refreshPending {
        refreshPending := true;
      }
    }

    method SetStatus(s: Status)
      modifies this`status, this`version
      ensures View() == HomeAssistant.SetStatus(old(View()), s)
    {
      if status != s {
        status, version := s, version + 1;
      }
    }

    method FindEntity(id: nat) returns (k: nat)
      ensures k == Find(ents, id, 0)
    {
      k := 0;
      while k < |ents| && ents[k].id != id
        invariant 0 <= k <= |ents| && Find(ents, id, k) == Find(ents, id, 0)
      {
        k := k + 1;
      }
    }

    method EnqueueJob(id: nat, action: nat) returns (ok: bool)
      requires patch == None
      modifies this`jobs, this`queued, this`patch
      ensures View() == Apply(old(View()), Enqueue(id, action))
      ensures ok == (cfg.Complete() && |old(jobs)| < JOBS_MAX)
    {
      ok := cfg.Complete() && |jobs| < JOBS_MAX;
      if ok {
        var job := Job(id, action, cfg);
        jobs := jobs + [job];
        queued, patch := queued + [job], Some(job);
      }
    }

    method PatchEntity(job: Job)
      requires patch == Some(job)
      modifies this`ents, this`version, this`patch
      ensures View() == Apply(old(View()), Patch)
    {
      var k := FindEntity(job.id);
      if k < |ents| {
        ents := ents[k := ents[k].(value := Expected(job))];
        version := version + 1;
      }
      patch := None;
    }

    /** An action: queued, and what it is expected to bring about shown at once. Between the two the lock is let go, and
        only the worker's sections can come. */
    method Activate(id: nat, action: nat) returns (ok: bool)
      requires patch == None
      modifies this`jobs, this`queued, this`patch, this`ents, this`version
      ensures ok == (cfg.Complete() && |old(jobs)| < JOBS_MAX)
      ensures View() == if ok then Apply(Apply(old(View()), Enqueue(id, action)), Patch) else old(View())
    {
      ok := EnqueueJob(id, action);
      if ok {
        PatchEntity(Job(id, action, cfg));
      }
    }

    /** The worker's choice: whether there was anything to do. */
    method TakeWork() returns (busy: bool)
      requires worker == Resting
      modifies this`jobs, this`taken, this`sent, this`worker, this`refreshPending
      ensures busy == old(Enabled(View(), WorkerTakes))
      ensures View() == if busy then Apply(old(View()), WorkerTakes) else old(View())
    {
      var isJob := |jobs| > 0;
      var isRefresh := !isJob && refreshPending && cfg.Complete();
      busy := isJob || isRefresh;
      if isJob {
        var job := jobs[0];
        jobs := jobs[1..];
        worker := Acting(gen, cfg, job);
        taken, sent := taken + [job], sent + [Sent(job, cfg)];
      } else if isRefresh {
        refreshPending := false;
        worker := Listing(gen, cfg);
      }
    }

    method TakeList(list: Option<seq<(nat, nat)>>, garbled: nat)
      requires worker.Listing?
      modifies this`ents, this`status, this`version, this`worker
      ensures View() == Apply(old(View()), ListComes(list, garbled))
    {
      var from, mine := worker.to_, worker.gen == gen;
      worker := Resting;
      if mine {
        if list.None? {
          SetStatus(Trouble(garbled, from));
        } else {
          ShowEntities(Listed(list.value, from), from);
        }
      }
    }

    method ShowEntities(fetched: seq<Entity>, from: Config)
      modifies this`ents, this`status, this`version, this`worker
      ensures View() == ShowList(old(View()), fetched, from)
    {
      if fetched != ents {
        ents, version := fetched, version + 1;
      }
      SetStatus(Ok(from));
      if info.None? {
        worker := AskingInfo(gen, from);
      }
    }

    method ListFailed(why: nat)
      requires worker.Listing?
      modifies this`status, this`version, this`worker
      ensures View() == Apply(old(View()), ListFails(why))
    {
      var from, mine := worker.to_, worker.gen == gen;
      worker := Resting;
      if mine {
        SetStatus(Trouble(why, from));
      }
    }

    method TakeInfo(name: Option<Text>)
      requires worker.AskingInfo?
      modifies this`info, this`version, this`worker
      ensures View() == Apply(old(View()), InfoComes(name))
    {
      if name.Some? && worker.gen == gen {
        info, version := Some(Info(name.value, worker.to_)), version + 1;
      }
      worker := Resting;
    }

    method ActionFailed()
      requires worker.Acting?
      modifies this`failed, this`refreshPending, this`version, this`worker
      ensures View() == Apply(old(View()), ActionFails)
    {
      if worker.gen == gen {
        failed, refreshPending, version := true, true, version + 1;
      }
      worker := Resting;
    }

    method TakeConfirmation(state: Option<(nat, nat)>)
      requires worker.Confirming?
      modifies this`ents, this`version, this`worker
      ensures View() == Apply(old(View()), Confirmed(state))
    {
      var from, mine := worker.to_, worker.gen == gen;
      worker := Resting;
      if state.Some? && mine {
        var k := FindEntity(state.value.0);
        if k < |ents| {
          var reported := Entity(state.value.0, from, Reported(state.value.1));
          if ents[k] != reported {
            ents, version := ents[k := reported], version + 1;
          }
        }
      }
    }
  }
}
