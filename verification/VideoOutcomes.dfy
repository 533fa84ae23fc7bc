/**
 What the list of conversion jobs tells its readers, over every run of VideoJobs: a job
 shown as done has its video installed and one shown as failed has not, each finished job
 is shown for its time, jobs are taken in the order they were queued, and no file is left
 behind that no job is about.
 */
module VideoOutcomes {
  import opened Wrappers
  import opened VideoNames
  import opened VideoJobs

  // --- What a step does to a job ---

  /** The job that this step finishes: the one whose queueing failed, whose cancelling is done, or that the worker lets
      go of. */
  predicate Finishes(st: State, e: Event, id: nat) {
    || ((e.QueueFailed? || e.CancelDone?) && st.held != Free && st.held.id == id)
    || (e.Finish? && st.worker.FilesGone? && st.worker.id == id)
  }

  /** A job's time in the list is over. */
  predicate TimeOver(j: Job, now: nat) {
    if j.state == Done then now - j.finished > 120
    else j.state == Failed && (j.cancelled || now - j.finished > 1800)
  }

  lemma PruneIs(jobs: map<nat, Job>, now: nat, id: nat)
    ensures id in Prune(jobs, now) <==> id in jobs && !TimeOver(jobs[id], now)
    ensures id in Prune(jobs, now) ==> Prune(jobs, now)[id] == jobs[id]
  {
  }

  lemma ClearIs(jobs: map<nat, Job>, id: nat)
    ensures id in OnlyLive(jobs) <==> id in jobs && jobs[id].Live()
    ensures id in OnlyLive(jobs) ==> OnlyLive(jobs)[id] == jobs[id]
  {
  }

  /** What a step makes of a job that was in the list: nothing, or it is taken, cancelled or finished. */
  predicate SameBut(st: State, e: Event, id: nat, was: Job, is_: Job) {
    && is_.source == was.source && is_.ticket == was.ticket
    && (Finishes(st, e, id) || (is_.finished == was.finished && is_.Live() == was.Live() && (is_.state == Done) == (was.state == Done)))
    && (!was.Live() ==> is_ == was)
  }

  lemma QueueJobs(st: State, e: Event, id: nat)
    requires Inv(st) && Enabled(st, e) && st.up && id in st.jobs
    requires e.QueueRefused? || e.QueueStart? || e.QueueFailed? || e.QueueDone?
    ensures var next := ApplyCall(st, e).jobs;
            && (id in next ==> SameBut(st, e, id, st.jobs[id], next[id]))
            && (id !in next ==> Finishes(st, e, id) || TimeOver(st.jobs[id], st.now))
  {
    PruneIs(st.jobs, st.now, id);
    if e.QueueFailed? {
      PruneIs(st.jobs[st.held.id := st.jobs[st.held.id].(state := Failed, cancelled := true)], st.now, id);
    }
  }

  lemma CallJobs(st: State, e: Event, id: nat)
    requires Inv(st) && Enabled(st, e) && st.up && IsCall(e) && id in st.jobs
    ensures var next := ApplyCall(st, e).jobs;
            && (id in next ==> SameBut(st, e, id, st.jobs[id], next[id]))
            && (id !in next ==> Finishes(st, e, id) || TimeOver(st.jobs[id], st.now) || (e.ClearFinished? && !st.jobs[id].Live()))
  {
    if e.QueueRefused? || e.QueueStart? || e.QueueFailed? || e.QueueDone? {
      QueueJobs(st, e, id);
    } else if e.CancelStart? || e.CancelDone? || e.CancelRunning? {
      CancelJobs(st, e, id);
    } else {
      PruneIs(st.jobs, st.now, id);
      ClearIs(st.jobs, id);
    }
  }

  lemma CancelJobs(st: State, e: Event, id: nat)
    requires Inv(st) && Enabled(st, e) && st.up && id in st.jobs
    requires e.CancelStart? || e.CancelDone? || e.CancelRunning?
    ensures var next := ApplyCall(st, e).jobs;
            && (id in next ==> SameBut(st, e, id, st.jobs[id], next[id]))
            && (id !in next ==> Finishes(st, e, id) || TimeOver(st.jobs[id], st.now))
  {
    if e.CancelDone? {
      PruneIs(st.jobs[st.held.id := st.jobs[st.held.id].(state := Failed)], st.now, id);
    }
  }

  /** A try changes neither the list nor the job files. */
  lemma SettleKeeps(st: State, renamed: bool)
    requires st.worker.Checked? && st.worker.id in st.jobs
    ensures var next := ApplySettle(st, renamed);
            && next.jobs == st.jobs && next.disk.jobFiles == st.disk.jobFiles && next.promised == st.promised
            && next.now == st.now && next.held == st.held && next.nextId == st.nextId
  {
  }

  lemma WorkJobs(st: State, e: Event, id: nat)
    requires Inv(st) && Enabled(st, e) && st.up && !IsCall(e) && !IsRestart(e) && !IsFolder(e) && id in st.jobs
    ensures var next := ApplyWork(st, e).jobs;
            && (id in next ==> SameBut(st, e, id, st.jobs[id], next[id]))
            && (id !in next ==> TimeOver(st.jobs[id], st.now))
  {
    match e {
      case Settle(renamed) => SettleKeeps(st, renamed);
      case PruneAfter => PruneIs(st.jobs, st.now, id);
      case Take(_) =>
      case Finish =>
      case ChildEnds(_) =>
      case Check(_) =>
      case RemoveSource =>
      case RemoveFiles =>
    }
  }

  /** A job that is in the list stays there, and as it is but for being taken, cancelled or finished, until it is cleared,
      its time is over, or its queueing or its cancelling ends; a finished one does not change at all. */
  lemma JobStays(st: State, e: Event, id: nat)
    requires Inv(st) && Enabled(st, e) && st.up && e != Crash && id in st.jobs
    ensures var next := Apply(st, e).jobs;
            && (id in next ==> SameBut(st, e, id, st.jobs[id], next[id]))
            && (id !in next ==> Finishes(st, e, id) || TimeOver(st.jobs[id], st.now) || (e.ClearFinished? && !st.jobs[id].Live()))
  {
    if IsCall(e) {
      CallJobs(st, e, id);
    } else if !IsFolder(e) {
      WorkJobs(st, e, id);
    }
  }

  /** Every look at the list shows exactly the jobs that are waiting or at work, those done in the last two minutes, and
      those that failed in the last half hour without having been cancelled. */
  lemma LookShows(st: State, id: nat)
    requires Inv(st) && Enabled(st, Look)
    ensures id in Apply(st, Look).jobs <==>
              id in st.jobs
              && (var j := st.jobs[id];
                  j.state == Waiting || j.state == Converting || (j.state == Done && st.now <= j.finished + 120)
                  || (j.state == Failed && !j.cancelled && st.now <= j.finished + 1800))
  {
    PruneIs(st.jobs, st.now, id);
  }

  /** Clearing leaves exactly the jobs that are waiting or at work. */
  lemma ClearShows(st: State, id: nat)
    requires Inv(st) && Enabled(st, ClearFinished)
    ensures id in Apply(st, ClearFinished).jobs <==> id in st.jobs && st.jobs[id].state in {Waiting, Converting}
  {
    ClearIs(st.jobs, id);
  }

  /** No job is queued beside 64 others. */
  lemma QueueBounded(st: State, source: nat, ticket: Ticket)
    requires Inv(st) && Enabled(st, QueueStart(source, ticket))
    ensures |Apply(st, QueueStart(source, ticket)).jobs| <= 64
  {
    var jobs := Prune(st.jobs, st.now);
    assert st.nextId !in jobs;
    assert jobs[st.nextId := Job(source, ticket, Waiting, 0, false)].Keys == jobs.Keys + {st.nextId};
  }

  predicate NeitherCrashNorClear(events: seq<Event>) {
    forall i :: 0 <= i < |events| ==> events[i] != Crash && events[i] != ClearFinished
  }

  /** A finished job is shown for its time: it is in the list, unchanged, at the end of every run that has no clearing and
      no crash and is over before that. */
  lemma {:induction false} FinishedShown(st: State, events: seq<Event>, id: nat)
    requires Inv(st) && Possible(st, events) && st.up && NeitherCrashNorClear(events)
    requires id in st.jobs && !st.jobs[id].Live() && !TimeOver(st.jobs[id], Exec(st, events).now)
    ensures var r := Exec(st, events);
            id in r.jobs && r.jobs[id] == st.jobs[id]
    decreases |events|
  {
    if events != [] {
      StepInv(st, events[0]);
      StaysUp(st, events[0]);
      TimeOnwards(Apply(st, events[0]), events[1..]);
      FinishedStays(st, events[0], id, Exec(st, events).now);
      FinishedShown(Apply(st, events[0]), events[1..], id);
    }
  }

  lemma FinishedStays(st: State, e: Event, id: nat, later: nat)
    requires Inv(st) && Enabled(st, e) && st.up && e != Crash && e != ClearFinished && id in st.jobs && !st.jobs[id].Live()
    requires Apply(st, e).now <= later && !TimeOver(st.jobs[id], later)
    ensures id in Apply(st, e).jobs && Apply(st, e).jobs[id] == st.jobs[id]
  {
    OneOnwards(st, e);
    NotFinishing(st, e, id);
    JobStays(st, e, id);
  }

  lemma FinishStamps(st: State)
    requires Inv(st) && Enabled(st, Finish)
    ensures var next := Apply(st, Finish);
            var id := st.worker.id;
            && next.up && next.now == st.now && id in next.jobs && next.jobs[id].finished == st.now
            && next.jobs[id].state == (if st.worker.ok then Done else Failed) && next.jobs[id].cancelled == st.jobs[id].cancelled
  {
  }

  /** So a job that the worker lets go of is shown for two minutes if its video was installed, and for half an hour if it
      was not and nobody had cancelled it. */
  lemma ShownForItsTime(st: State, events: seq<Event>)
    requires Inv(st) && Enabled(st, Finish) && Inv(Apply(st, Finish)) && Possible(Apply(st, Finish), events) && NeitherCrashNorClear(events)
    requires var later := Exec(Apply(st, Finish), events).now;
             if st.worker.ok then later <= st.now + 120 else later <= st.now + 1800 && !st.jobs[st.worker.id].cancelled
    ensures var r := Exec(Apply(st, Finish), events);
            st.worker.id in r.jobs && r.jobs[st.worker.id].state == if st.worker.ok then Done else Failed
  {
    FinishStamps(st);
    FinishedShown(Apply(st, Finish), events, st.worker.id);
  }

  /** Only jobs that are not finished are being finished. */
  lemma NotFinishing(st: State, e: Event, id: nat)
    requires Inv(st) && Enabled(st, e) && st.up && id in st.jobs && !st.jobs[id].Live()
    ensures !Finishes(st, e, id)
  {
  }

  lemma OneOnwards(st: State, e: Event)
    requires Inv(st) && Enabled(st, e)
    ensures st.now <= Apply(st, e).now
  {
    if IsCall(e) {
      CallOnwards(st, e);
    } else if IsRestart(e) {
      RestartOnwards(st, e);
    } else if !IsFolder(e) {
      WorkOnwards(st, e);
    }
  }

  lemma RestartOnwards(st: State, e: Event)
    requires InList(st) && Enabled(st, e) && IsRestart(e)
    ensures st.now == ApplyRestart(st, e).now
  {
  }

  lemma WorkOnwards(st: State, e: Event)
    requires InList(st) && Enabled(st, e) && !IsCall(e) && !IsRestart(e) && !IsFolder(e)
    ensures st.now == ApplyWork(st, e).now
  {
    if e.Settle? {
      SettleKeeps(st, e.renamed);
    }
  }

  lemma CallOnwards(st: State, e: Event)
    requires InList(st) && Enabled(st, e) && IsCall(e)
    ensures st.now <= ApplyCall(st, e).now
  {
  }

  lemma {:induction false} TimeOnwards(st: State, events: seq<Event>)
    requires Inv(st) && Possible(st, events)
    ensures st.now <= Exec(st, events).now
    decreases |events|
  {
    if events != [] {
      StepInv(st, events[0]);
      OneOnwards(st, events[0]);
      TimeOnwards(Apply(st, events[0]), events[1..]);
    }
  }

  // --- What is shown is what happened ---

  /** A job shown as done has its video installed, and one shown as failed has not, nor will it. */
  predicate JobTold(st: State, id: nat)
    requires id in st.jobs
  {
    var j := st.jobs[id];
    && (j.state == Done ==> Ended(st, j.source, Installed))
    && (j.state == Failed ==> !Ended(st, j.source, Installed) && (j.source in st.ended || j.source !in st.promised))
  }

  /** What the worker is to tell of its job is how it ended. */
  predicate WorkerTold(st: State)
    requires InList(st)
  {
    match st.worker
    case Checked(id, go, _) => !go ==> !Ended(st, st.jobs[id].source, Installed)
    case Settled(id, ok) => ok <==> Ended(st, st.jobs[id].source, Installed)
    case SourceGone(id, ok) => ok <==> Ended(st, st.jobs[id].source, Installed)
    case FilesGone(id, ok) => ok <==> Ended(st, st.jobs[id].source, Installed)
    case _ => true
  }

  predicate CancelTold(st: State)
    requires InList(st)
  {
    st.held.Cancelling? ==> Ended(st, st.jobs[st.held.id].source, Cancelled)
  }

  predicate Told(st: State) {
    InList(st) && WorkerTold(st) && CancelTold(st) && forall id :: id in st.jobs ==> JobTold(st, id)
  }

  /** How an end that has come to a job of the list stays. */
  lemma EndedStays(st: State, e: Event, s: nat, end: End)
    requires Inv(st) && st.up && Enabled(st, e) && s in st.ended
    ensures s in Apply(st, e).ended && (Ended(Apply(st, e), s, end) <==> Ended(st, s, end))
  {
    EndStays(st, e, s);
  }

  /** A finished job whose queueing failed is never promised. */
  lemma NeverPromised(st: State, e: Event, id: nat)
    requires Inv(st) && st.up && Enabled(st, e) && e != Crash && id in st.jobs && !st.jobs[id].Live() && st.jobs[id].source !in st.promised
    ensures st.jobs[id].source !in Apply(st, e).promised
  {
    if IsCall(e) {
      CallPromises(st, e);
    } else if !IsFolder(e) {
      WorkPromises(st, e);
    }
  }

  lemma CallPromises(st: State, e: Event)
    requires InList(st) && Enabled(st, e) && IsCall(e)
    ensures ApplyCall(st, e).promised.Keys == st.promised.Keys + if e == QueueDone then {st.jobs[st.held.id].source} else {}
  {
  }

  lemma WorkPromises(st: State, e: Event)
    requires InList(st) && Enabled(st, e) && !IsCall(e) && !IsRestart(e) && !IsFolder(e)
    ensures ApplyWork(st, e).promised == st.promised
  {
    match e {
      case Settle(renamed) => SettleKeeps(st, renamed);
      case _ =>
    }
  }

  lemma FinishedTold(st: State, e: Event, id: nat)
    requires Inv(st) && st.up && Enabled(st, e) && e != Crash && Told(st)
    requires id in st.jobs && id in Apply(st, e).jobs && !st.jobs[id].Live()
    ensures JobTold(Apply(st, e), id)
  {
    var s := st.jobs[id].source;
    NotFinishing(st, e, id);
    JobStays(st, e, id);
    assert JobTold(st, id);
    StepInv(st, e);
    if s in st.ended {
      EndedStays(st, e, s, Installed);
    } else {
      NeverPromised(st, e, id);
    }
  }

  lemma CallAdds(st: State, e: Event, id: nat)
    requires Inv(st) && Enabled(st, e) && st.up && IsCall(e) && id in ApplyCall(st, e).jobs && id !in st.jobs
    ensures e.QueueStart? && ApplyCall(st, e).jobs[id].state == Waiting
  {
    PruneIs(st.jobs, st.now, id);
    ClearIs(st.jobs, id);
  }

  lemma WorkAdds(st: State, e: Event, id: nat)
    requires Inv(st) && Enabled(st, e) && st.up && !IsCall(e) && !IsRestart(e) && !IsFolder(e) && id in ApplyWork(st, e).jobs
    ensures id in st.jobs
  {
    if e.Settle? {
      SettleKeeps(st, e.renamed);
    }
  }

  /** What is new in the list waits. */
  lemma NewWaits(st: State, e: Event, id: nat)
    requires Inv(st) && Enabled(st, e) && st.up && e != Crash && id in Apply(st, e).jobs && id !in st.jobs
    ensures e.QueueStart? && Apply(st, e).jobs[id].state == Waiting
  {
    if IsCall(e) {
      CallAdds(st, e, id);
    } else if !IsFolder(e) {
      WorkAdds(st, e, id);
    }
  }

  /** A job being finished is told as it ended. */
  lemma FinishingTold(st: State, e: Event, id: nat)
    requires Inv(st) && st.up && Enabled(st, e) && Told(st) && Finishes(st, e, id) && id in st.jobs && id in Apply(st, e).jobs
    ensures JobTold(Apply(st, e), id)
  {
    if e.QueueFailed? {
      QueueFailedGone(st);
    } else if e.CancelDone? {
      CancelDoneTold(st, id);
    } else {
      FinishTold(st);
    }
  }

  /** A job whose queueing failed is not shown at all. */
  lemma QueueFailedGone(st: State)
    requires InList(st) && Enabled(st, QueueFailed)
    ensures st.held.id !in ApplyCall(st, QueueFailed).jobs
  {
  }

  lemma CancelDoneTold(st: State, id: nat)
    requires Inv(st) && Enabled(st, CancelDone) && Told(st) && st.held == Cancelling(id) && id in ApplyCall(st, CancelDone).jobs
    ensures JobTold(ApplyCall(st, CancelDone), id)
  {
  }

  lemma FinishTold(st: State)
    requires Inv(st) && Enabled(st, Finish) && Told(st)
    ensures JobTold(ApplyWork(st, Finish), st.worker.id)
  {
  }

  lemma JobsTold(st: State, e: Event, id: nat)
    requires Inv(st) && st.up && Enabled(st, e) && e != Crash && Told(st) && id in Apply(st, e).jobs
    ensures JobTold(Apply(st, e), id)
  {
    if id !in st.jobs {
      NewWaits(st, e, id);
    } else if !st.jobs[id].Live() {
      FinishedTold(st, e, id);
    } else {
      JobStays(st, e, id);
      if Finishes(st, e, id) {
        FinishingTold(st, e, id);
      }
    }
  }

  lemma CallWorker(st: State, e: Event)
    requires InList(st) && Enabled(st, e) && IsCall(e)
    ensures var next := ApplyCall(st, e);
            next.worker == st.worker
            && (next.held.Cancelling? && next.held != st.held ==> e == CancelStart(next.held.id))
  {
  }

  lemma CancelStarts(st: State, id: nat)
    requires InList(st) && Enabled(st, CancelStart(id))
    ensures var next := ApplyCall(st, CancelStart(id));
            id in next.jobs && Ended(next, next.jobs[id].source, Cancelled)
  {
  }

  /** The worker's job outlives a call or a change of the folder. */
  lemma BusyStays(st: State, e: Event)
    requires Inv(st) && st.up && Enabled(st, e) && (IsCall(e) || IsFolder(e)) && Busy(st.worker).Some?
    ensures var id := Busy(st.worker).value;
            id in Apply(st, e).jobs && Apply(st, e).jobs[id].source == st.jobs[id].source
  {
    JobStays(st, e, Busy(st.worker).value);
  }

  /** As long as its job and how that ended are the same. */
  lemma SameWorkerTold(st: State, next: State, id: nat, s: nat)
    requires InList(st) && InList(next) && next.worker == st.worker && WorkerTold(st) && Busy(st.worker) == Some(id)
    requires st.jobs[id].source == next.jobs[id].source == s && (Ended(next, s, Installed) <==> Ended(st, s, Installed))
    ensures WorkerTold(next)
  {
  }

  lemma WorkerKept(st: State, e: Event)
    requires InList(st) && Enabled(st, e) && (IsCall(e) || IsFolder(e))
    ensures Apply(st, e).worker == st.worker
  {
    if IsCall(e) {
      CallWorker(st, e);
    }
  }

  lemma WorkerKeptTold(st: State, e: Event)
    requires Inv(st) && st.up && Enabled(st, e) && (IsCall(e) || IsFolder(e)) && Told(st) && Inv(Apply(st, e))
    ensures InList(Apply(st, e)) && WorkerTold(Apply(st, e))
  {
    StaysUp(st, e);
    WorkerKept(st, e);
    if Busy(st.worker).Some? {
      BusyStays(st, e);
      BusyEnded(st, e, Busy(st.worker).value);
      SameWorkerTold(st, Apply(st, e), Busy(st.worker).value, st.jobs[Busy(st.worker).value].source);
    }
  }

  /** No call and no change of the folder installs the worker's job. */
  lemma BusyEnded(st: State, e: Event, id: nat)
    requires Inv(st) && st.up && Enabled(st, e) && (IsCall(e) || IsFolder(e)) && Busy(st.worker) == Some(id)
    ensures Ended(Apply(st, e), st.jobs[id].source, Installed) <==> Ended(st, st.jobs[id].source, Installed)
  {
    var s := st.jobs[id].source;
    if s in st.ended {
      EndedStays(st, e, s, Installed);
    } else if s in Apply(st, e).ended {
      EndsForAReason(st, e, s);
    }
  }

  lemma SettleTold(st: State, renamed: bool)
    requires Inv(st) && Enabled(st, Settle(renamed)) && Told(st)
    ensures InList(ApplySettle(st, renamed)) && WorkerTold(ApplySettle(st, renamed))
  {
  }

  lemma CheckTold(st: State, synced: bool)
    requires Inv(st) && Enabled(st, Check(synced))
    ensures InList(ApplyWork(st, Check(synced))) && WorkerTold(ApplyWork(st, Check(synced)))
  {
  }

  lemma RemoveTold(st: State, e: Event)
    requires Inv(st) && Enabled(st, e) && Told(st) && (e.RemoveSource? || e.RemoveFiles?)
    ensures InList(ApplyWork(st, e)) && WorkerTold(ApplyWork(st, e))
  {
  }

  lemma IdleTold(st: State)
    requires Inv(st) && Enabled(st, PruneAfter)
    ensures InList(ApplyWork(st, PruneAfter)) && WorkerTold(ApplyWork(st, PruneAfter))
  {
  }

  lemma WorkerMovedTold(st: State, e: Event)
    requires Inv(st) && st.up && Enabled(st, e) && Told(st) && !IsCall(e) && !IsFolder(e) && !IsRestart(e) && Inv(Apply(st, e))
    ensures InList(ApplyWork(st, e)) && WorkerTold(ApplyWork(st, e))
  {
    if e.Settle? {
      SettleTold(st, e.renamed);
    } else if e.PruneAfter? {
      IdleTold(st);
    } else if e.Check? {
      CheckTold(st, e.synced);
    } else if e.RemoveSource? || e.RemoveFiles? {
      RemoveTold(st, e);
    } else {
      PlainTold(st, e);
    }
  }

  /** A worker that has just taken a job, seen its child's end or let go has nothing to tell yet, or any more. */
  lemma PlainTold(st: State, e: Event)
    requires Inv(st) && Enabled(st, e) && (e.Take? || e.ChildEnds? || e.Finish?) && Inv(Apply(st, e))
    ensures InList(ApplyWork(st, e)) && WorkerTold(ApplyWork(st, e))
  {
    var w := ApplyWork(st, e).worker;
    assert w.Child? || w.Exited? || w.Unlocked?;
  }

  lemma CancelKeptTold(st: State, e: Event)
    requires Inv(st) && st.up && Enabled(st, e) && e != Crash && Told(st) && InList(Apply(st, e)) && Apply(st, e).held == st.held
    ensures CancelTold(Apply(st, e))
  {
    if st.held.Cancelling? {
      var id := st.held.id;
      EndedStays(st, e, st.jobs[id].source, Cancelled);
      JobStays(st, e, id);
    }
  }

  lemma WorkHeld(st: State, e: Event)
    requires InList(st) && Enabled(st, e) && !IsCall(e) && !IsRestart(e)
    ensures Apply(st, e).held == st.held
  {
    if e.Settle? {
      SettleKeeps(st, e.renamed);
    }
  }

  lemma CancelStaysTold(st: State, e: Event)
    requires Inv(st) && st.up && Enabled(st, e) && e != Crash && Told(st) && InList(Apply(st, e))
    ensures CancelTold(Apply(st, e))
  {
    if Apply(st, e).held == st.held {
      CancelKeptTold(st, e);
    } else if IsCall(e) {
      CallWorker(st, e);
      if e.CancelStart? {
        CancelStarts(st, e.id);
      }
    } else {
      WorkHeld(st, e);
    }
  }

  lemma RecoveredTold(st: State, order: seq<nat>)
    requires Inv(st) && Enabled(st, Recover(order))
    ensures Told(Apply(st, Recover(order)))
  {
    RecoverInv(st, order);
  }

  /** Every step keeps it. */
  lemma StepTold(st: State, e: Event)
    requires Inv(st) && Enabled(st, e) && Told(st)
    ensures Inv(Apply(st, e)) && Told(Apply(st, e))
  {
    StepInv(st, e);
    if e.Recover? {
      RecoveredTold(st, e.order);
    } else if !st.up || e == Crash {
      DownTold(st, e);
    } else {
      if IsCall(e) || IsFolder(e) {
        WorkerKeptTold(st, e);
      } else {
        WorkerMovedTold(st, e);
      }
      CancelStaysTold(st, e);
      forall id | id in Apply(st, e).jobs ensures JobTold(Apply(st, e), id) {
        JobsTold(st, e, id);
      }
    }
  }

  /** While the process is down there is no list. */
  lemma DownTold(st: State, e: Event)
    requires Inv(st) && Enabled(st, e) && Inv(Apply(st, e)) && !e.Recover? && (!st.up || e == Crash)
    ensures Told(Apply(st, e))
  {
    assert !Apply(st, e).up by {
      if IsCall(e) {
        assert e.Tick?;
      }
    }
  }

  lemma {:induction false} RunTold(st: State, events: seq<Event>)
    requires Inv(st) && Told(st) && Possible(st, events)
    ensures Told(Exec(st, events))
    decreases |events|
  {
    if events != [] {
      StepTold(st, events[0]);
      RunTold(Apply(st, events[0]), events[1..]);
    }
  }

  /** Over every run: a job that the list shows as done has had its video installed, and one that it shows as failed has
      not. */
  lemma ShownAsItEnded(st: State, events: seq<Event>, id: nat)
    requires IsStart(st) && Inv(st) && Possible(st, events)
    ensures var r := Exec(st, events);
            id in r.jobs ==>
              && (r.jobs[id].state == Done ==> Ended(r, r.jobs[id].source, Installed))
              && (r.jobs[id].state == Failed ==> !Ended(r, r.jobs[id].source, Installed))
  {
    assert Told(st);
    RunTold(st, events);
    var r := Exec(st, events);
    assert id in r.jobs ==> JobTold(r, id);
  }

  // --- Nothing is left behind ---

  predicate HoldsConversion(w: Worker, id: nat) {
    (w.Exited? || w.Checked? || w.Settled? || w.SourceGone?) && w.id == id
  }

  /** While the process runs, each job file is of a job that is waiting or at work, and each conversion of the worker's. */
  predicate Clean(st: State) {
    st.up ==>
      && InList(st)
      && (forall s :: s in st.disk.jobFiles ==> LiveFor(st.jobs, s))
      && (forall k :: k in st.disk.converts ==> HoldsConversion(st.worker, k))
      && (st.worker.FilesGone? ==> st.jobs[st.worker.id].source !in st.disk.jobFiles)
  }

  /** What a step adds to the files. */
  lemma CallFiles(st: State, e: Event)
    requires InList(st) && Enabled(st, e) && IsCall(e)
    ensures var next := ApplyCall(st, e);
            && next.worker == st.worker
            && (forall k :: k in next.disk.converts ==> k in st.disk.converts)
            && (forall s :: s in next.disk.jobFiles ==> s in st.disk.jobFiles || (e == QueueDone && s == st.jobs[st.held.id].source))
            && (e == CancelDone ==> st.jobs[st.held.id].source !in next.disk.jobFiles)
  {
  }

  lemma WorkFiles(st: State, e: Event)
    requires InList(st) && Enabled(st, e) && !IsCall(e) && !IsRestart(e) && !IsFolder(e)
    ensures forall s :: s in ApplyWork(st, e).disk.jobFiles ==> s in st.disk.jobFiles
    ensures e == RemoveFiles ==> st.jobs[st.worker.id].source !in ApplyWork(st, e).disk.jobFiles
  {
    if e.Settle? {
      SettleKeeps(st, e.renamed);
    }
  }

  lemma SettleConverts(st: State, renamed: bool, k: nat)
    requires Inv(st) && Enabled(st, Settle(renamed)) && Clean(st) && k in ApplySettle(st, renamed).disk.converts
    ensures HoldsConversion(ApplySettle(st, renamed).worker, k)
  {
    assert HoldsConversion(st.worker, k);
  }

  lemma WorkConverts(st: State, e: Event, k: nat)
    requires Inv(st) && st.up && Enabled(st, e) && Clean(st) && !IsCall(e) && !IsRestart(e) && !IsFolder(e)
    requires k in ApplyWork(st, e).disk.converts
    ensures HoldsConversion(ApplyWork(st, e).worker, k)
  {
    if e.Settle? {
      SettleConverts(st, e.renamed, k);
    } else if k in st.disk.converts {
      assert HoldsConversion(st.worker, k);
    }
  }

  /** Before its job file is written a job has none. */
  lemma QueueingHasNone(st: State)
    requires Inv(st) && st.up && st.held.Queueing?
    ensures st.jobs[st.held.id].source !in st.disk.jobFiles
  {
    assert WaitingOk(st, st.held.id);
  }

  /** No job file is of a job being finished, unless by a cancel. */
  lemma FinishingHasNone(st: State, e: Event, id: nat)
    requires Inv(st) && st.up && Enabled(st, e) && Clean(st) && Finishes(st, e, id) && id in st.jobs && e != CancelDone
    ensures st.jobs[id].source !in st.disk.jobFiles
  {
    if e.QueueFailed? {
      QueueingHasNone(st);
    }
  }

  lemma LiveStays(st: State, e: Event, s: nat)
    requires Inv(st) && st.up && Enabled(st, e) && e != Crash && Clean(st)
    requires s in st.disk.jobFiles && s in Apply(st, e).disk.jobFiles
    ensures LiveFor(Apply(st, e).jobs, s)
  {
    var i :| i in st.jobs && st.jobs[i].Live() && st.jobs[i].source == s;
    JobStays(st, e, i);
    NotFinished(st, e, i);
    assert i in Apply(st, e).jobs && Apply(st, e).jobs[i].Live() && Apply(st, e).jobs[i].source == s;
  }

  /** A job whose file stays is not being finished. */
  lemma NotFinished(st: State, e: Event, i: nat)
    requires Inv(st) && st.up && Enabled(st, e) && e != Crash && Clean(st) && i in st.jobs
    requires st.jobs[i].source in st.disk.jobFiles && st.jobs[i].source in Apply(st, e).disk.jobFiles
    ensures !Finishes(st, e, i)
  {
    if e == CancelDone {
      CallFiles(st, e);
    } else if Finishes(st, e, i) {
      FinishingHasNone(st, e, i);
    }
  }

  lemma QueuedLive(st: State)
    requires Inv(st) && Enabled(st, QueueDone)
    ensures LiveFor(ApplyCall(st, QueueDone).jobs, st.jobs[st.held.id].source)
  {
    assert st.held.id in ApplyCall(st, QueueDone).jobs;
  }

  lemma CallClean(st: State, e: Event)
    requires Inv(st) && st.up && Enabled(st, e) && Clean(st) && IsCall(e) && Inv(Apply(st, e))
    ensures Clean(Apply(st, e))
  {
    var next := Apply(st, e);
    CallFiles(st, e);
    StaysUp(st, e);
    forall s | s in next.disk.jobFiles ensures LiveFor(next.jobs, s) {
      if s in st.disk.jobFiles {
        LiveStays(st, e, s);
      } else {
        QueuedLive(st);
      }
    }
    if st.worker.FilesGone? {
      BusyStays(st, e);
    }
  }

  lemma WorkClean(st: State, e: Event)
    requires Inv(st) && st.up && Enabled(st, e) && Clean(st) && !IsCall(e) && !IsRestart(e) && !IsFolder(e) && Inv(Apply(st, e))
    ensures Clean(Apply(st, e))
  {
    var next := Apply(st, e);
    StaysUp(st, e);
    WorkFiles(st, e);
    forall s | s in next.disk.jobFiles ensures LiveFor(next.jobs, s) {
      LiveStays(st, e, s);
    }
    forall k | k in next.disk.converts ensures HoldsConversion(next.worker, k) {
      WorkConverts(st, e, k);
    }
    if next.worker.FilesGone? {
      GoneBy(st, e);
      JobStays(st, e, st.worker.id);
    }
  }

  lemma GoneBy(st: State, e: Event)
    requires InList(st) && Enabled(st, e) && !IsCall(e) && !IsRestart(e) && !IsFolder(e) && ApplyWork(st, e).worker.FilesGone?
    ensures e == RemoveFiles && ApplyWork(st, e).worker.id == st.worker.id
  {
    SettleNotGone(st);
  }

  lemma SettleNotGone(st: State)
    ensures forall renamed: bool :: st.worker.Checked? && st.worker.id in st.jobs ==> !ApplySettle(st, renamed).worker.FilesGone?
  {
  }

  lemma RecoveredClean(st: State, order: seq<nat>)
    requires Inv(st) && Enabled(st, Recover(order))
    ensures Clean(Apply(st, Recover(order)))
  {
    var next := Apply(st, Recover(order));
    RecoverInv(st, order);
    RecoveredSources(st, order);
    forall s | s in next.disk.jobFiles ensures LiveFor(next.jobs, s) {
      assert s in Kept(st.disk);
    }
  }

  lemma StepClean(st: State, e: Event)
    requires Inv(st) && Enabled(st, e) && Clean(st)
    ensures Inv(Apply(st, e)) && Clean(Apply(st, e))
  {
    StepInv(st, e);
    if e.Recover? {
      RecoveredClean(st, e.order);
    } else if !st.up || e == Crash {
      DownClean(st, e);
    } else if IsCall(e) {
      CallClean(st, e);
    } else if IsFolder(e) {
      FolderClean(st, e);
    } else {
      WorkClean(st, e);
    }
  }

  lemma FolderClean(st: State, e: Event)
    requires Inv(st) && Enabled(st, e) && Clean(st) && IsFolder(e)
    ensures Clean(Apply(st, e))
  {
  }

  lemma DownClean(st: State, e: Event)
    requires Inv(st) && Enabled(st, e) && !e.Recover? && (!st.up || e == Crash)
    ensures Clean(Apply(st, e))
  {
    assert !Apply(st, e).up by {
      if IsCall(e) {
        assert e.Tick?;
      }
    }
  }

  lemma {:induction false} RunClean(st: State, events: seq<Event>)
    requires Inv(st) && Clean(st) && Possible(st, events)
    ensures Clean(Exec(st, events))
    decreases |events|
  {
    if events != [] {
      StepClean(st, events[0]);
      RunClean(Apply(st, events[0]), events[1..]);
    }
  }

  /** Over every run, whenever the process runs: every upload and every job file on disk is of a job that is waiting or at
      work, and a conversion is of the job the worker has. So when no job is, nothing of any is left. */
  lemma NothingLeftBehind(st: State, events: seq<Event>)
    requires IsStart(st) && Inv(st) && Clean(st) && Possible(st, events)
    ensures var r := Exec(st, events);
            r.up ==>
              && (forall s :: s in r.disk.sources || s in r.disk.jobFiles ==> LiveFor(r.jobs, s))
              && (forall k :: k in r.disk.converts ==> Busy(r.worker) == Some(k))
              && ((forall id :: id in r.jobs ==> !r.jobs[id].Live()) ==>
                    r.disk.sources == {} && r.disk.jobFiles == map[] && r.disk.converts == map[])
  {
    RunClean(st, events);
    var r := Exec(st, events);
    if r.up && forall id :: id in r.jobs ==> !r.jobs[id].Live() {
      NoneIsLeft(r);
    }
  }

  lemma NoneIsLeft(r: State)
    requires Inv(r) && r.up && Clean(r) && forall id :: id in r.jobs ==> !r.jobs[id].Live()
    ensures r.disk.sources == {} && r.disk.jobFiles == map[] && r.disk.converts == map[]
  {
    forall s ensures s !in r.disk.sources && s !in r.disk.jobFiles && s !in r.disk.converts {
      assert s in r.disk.sources ==> LiveFor(r.jobs, s);
      assert s in r.disk.jobFiles ==> LiveFor(r.jobs, s);
      assert s in r.disk.converts ==> HoldsConversion(r.worker, s);
    }
    assert r.disk.jobFiles.Keys == {} && r.disk.converts.Keys == {};
  }

  // --- In order ---

  /** Every waiting job was queued after that one. */
  predicate WaitAfter(st: State, last: nat) {
    last < st.nextId && forall id :: id in st.jobs && st.jobs[id].state == Waiting ==> last < id
  }

  predicate NoCrash(events: seq<Event>) {
    forall i :: 0 <= i < |events| ==> events[i] != Crash
  }

  lemma WaitingWas(st: State, e: Event, id: nat)
    requires Inv(st) && st.up && Enabled(st, e) && e != Crash && id in Apply(st, e).jobs && Apply(st, e).jobs[id].state == Waiting
    ensures (id in st.jobs && st.jobs[id].state == Waiting && e != Take(id)) || (e.QueueStart? && id == st.nextId)
  {
    if id in st.jobs {
      StillWaiting(st, e, id);
    } else {
      NewWaits(st, e, id);
      PruneIs(st.jobs, st.now, id);
    }
  }

  lemma StillWaiting(st: State, e: Event, id: nat)
    requires Inv(st) && st.up && Enabled(st, e) && e != Crash && id in st.jobs && id in Apply(st, e).jobs && Apply(st, e).jobs[id].state == Waiting
    ensures st.jobs[id].state == Waiting && e != Take(id)
  {
    if IsCall(e) {
      CallStates(st, e, id);
    } else if !IsFolder(e) {
      WorkStates(st, e, id);
    }
  }

  lemma CallStates(st: State, e: Event, id: nat)
    requires Inv(st) && Enabled(st, e) && st.up && IsCall(e) && id in st.jobs && id in ApplyCall(st, e).jobs
    ensures ApplyCall(st, e).jobs[id].state in {st.jobs[id].state, Failed}
  {
  }

  lemma WorkStates(st: State, e: Event, id: nat)
    requires Inv(st) && Enabled(st, e) && st.up && !IsCall(e) && !IsRestart(e) && !IsFolder(e)
    requires id in st.jobs && id in ApplyWork(st, e).jobs && ApplyWork(st, e).jobs[id].state == Waiting
    ensures st.jobs[id].state == Waiting && e != Take(id)
  {
    if e.Settle? {
      SettleKeeps(st, e.renamed);
    }
  }

  lemma IdsGrow(st: State, e: Event)
    requires InList(st) && Enabled(st, e) && st.up && e != Crash
    ensures Apply(st, e).nextId == if e.QueueStart? then st.nextId + 1 else st.nextId
  {
    if e.Settle? {
      SettleKeeps(st, e.renamed);
    }
  }

  lemma WaitStep(st: State, e: Event, last: nat)
    requires Inv(st) && st.up && Enabled(st, e) && e != Crash && WaitAfter(st, last)
    ensures WaitAfter(Apply(st, e), if e.Take? then e.id else last)
    ensures e.Take? ==> last < e.id
  {
    IdsGrow(st, e);
    forall id | id in Apply(st, e).jobs && Apply(st, e).jobs[id].state == Waiting
      ensures (if e.Take? then e.id else last) < id
    {
      WaitingWas(st, e, id);
    }
  }

  /** The jobs that a run takes, in the order it does. */
  function Takes(events: seq<Event>): seq<nat> {
    if events == [] then [] else (if events[0].Take? then [events[0].id] else []) + Takes(events[1..])
  }

  predicate Rising(last: nat, ids: seq<nat>)
    decreases |ids|
  {
    ids == [] || (last < ids[0] && Rising(ids[0], ids[1..]))
  }

  /** Short of a crash, jobs are taken in the order in which they were queued. */
  lemma {:induction false} TakenInOrder(st: State, events: seq<Event>, last: nat)
    requires Inv(st) && st.up && Possible(st, events) && NoCrash(events) && WaitAfter(st, last)
    ensures Rising(last, Takes(events))
    decreases |events|
  {
    if events != [] {
      var e := events[0];
      StepInv(st, e);
      StaysUp(st, e);
      WaitStep(st, e, last);
      TakenInOrder(Apply(st, e), events[1..], if e.Take? then e.id else last);
      RisingMore(last, e, events[1..]);
      assert [e] + events[1..] == events;
    }
  }

  /** A restarted process takes them in the order it found them in. */
  lemma RecoveredWaitAfter(st: State, order: seq<nat>)
    requires Inv(st) && Enabled(st, Recover(order))
    ensures WaitAfter(Apply(st, Recover(order)), 0)
  {
  }

  lemma RisingMore(last: nat, e: Event, rest: seq<Event>)
    requires Rising(if e.Take? then e.id else last, Takes(rest)) && (e.Take? ==> last < e.id)
    ensures Rising(last, Takes([e] + rest))
  {
    assert ([e] + rest)[1..] == rest;
    if e.Take? {
      assert ([e.id] + Takes(rest))[1..] == Takes(rest);
    } else {
      assert [] + Takes(rest) == Takes(rest);
    }
  }

  /** What the worker goes by when it has the lock: only a conversion that succeeded and is safely written, of a job not
      cancelled until then, is tried for, from the first name on. */
  lemma GoesWhen(st: State, synced: bool)
    requires Inv(st) && Enabled(st, Check(synced))
    ensures var w := Apply(st, Check(synced)).worker;
            w.Checked? && w.id == st.worker.id && w.next == 1
            && (w.go <==> st.worker.success && synced && !st.jobs[st.worker.id].cancelled)
  {
  }
}
