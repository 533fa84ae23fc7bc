/**
 Conversion jobs of web/videos.c as a step relation: what the API's calls, the worker,
 the clock and a crash of the process do to the job list and to the files in the videos
 folder. Each event is one stretch of code between points where something else can come
 in: a section under the lock, or one file operation outside it. The lock is held across
 the file operations of a queueing or a cancelling call, so while `held` says so no other
 locked section runs, but the worker's file operations, the clock and a crash still can.
 Writing and renaming a file are atomic, and pipe and fork succeed.
 */
module VideoJobs {
  import opened Wrappers
  import opened VideoNames
  import Utf8

  type Name = seq<byte>

  /** What a job file says. */
  datatype Ticket = Ticket(target: Name, overwrite: bool)

  datatype JobState = Waiting | Converting | Done | Failed

  /** `source` stands for the number in ".rpod-source-<pid>-<n>". */
  datatype Job = Job(source: nat, ticket: Ticket, state: JobState, finished: nat, cancelled: bool) {
    predicate Live() {
      state == Waiting || state == Converting
    }
  }

  /** Which of the names an installation may try. */
  type Attempt = n: nat | 1 <= n < 100 witness 1

  /** A call that holds the lock across file operations, on the job it is about. */
  datatype Held = Free | Queueing(id: nat) | Cancelling(id: nat)

  /** How far the worker is with a job: its child at work; the child's end seen; the lock taken and the cancelled flag
      read (`go`: install it, under the `next`th name if that is free); the video installed or not (`ok`); its source
      removed; its job file and conversion removed; its state set and the lock let go. */
  datatype Worker =
    | Idle
    | Child(id: nat)
    | Exited(id: nat, success: bool)
    | Checked(id: nat, go: bool, next: Attempt)
    | Settled(id: nat, ok: bool)
    | SourceGone(id: nat, ok: bool)
    | FilesGone(id: nat, ok: bool)
    | Unlocked(id: nat)

  datatype Video = Other(n: nat) | Converted(source: nat)

  datatype Disk = Disk(sources: set<nat>, jobFiles: map<nat, Ticket>, converts: map<nat, nat>, videos: map<Name, Video>) {
    /** An upload and its job file. */
    predicate Stored(source: nat) {
      source in sources && source in jobFiles
    }
  }

  /** How an accepted job came to its end. `Dropped`: recovery found its target's name was not one. */
  datatype End = Installed | Unconverted | Cancelled | Dropped

  /** The process (`up` to `worker`), the disk, and for the proofs: every source name used so far, the job files
      written so far, how jobs ended, and the jobs whose cancelling came before the worker's last look. */
  datatype State = State(
    up: bool, now: nat, jobs: map<nat, Job>, nextId: nat, held: Held, worker: Worker,
    disk: Disk,
    used: set<nat>, promised: map<nat, Ticket>, ended: map<nat, End>, early: set<nat>)

  const DONE_KEEP_S: nat := 120
  const FAILED_KEEP_S: nat := 1800
  const MAX_JOBS: nat := 64

  datatype Event =
    | Tick(seconds: nat)
    | QueueRefused
    | QueueStart(source: nat, ticket: Ticket)
    | QueueFailed
    | QueueDone
    | CancelStart(id: nat)
    | CancelDone
    | CancelRunning(id: nat)
    | ClearFinished
    | Look
    | Take(id: nat)
    | ChildEnds(success: bool)
    | Check(synced: bool)
    | Settle(renamed: bool)
    | RemoveSource
    | RemoveFiles
    | Finish
    | PruneAfter
    | Crash
    | DeleteVideo(name: Name)
    | RenameVideo(from: Name, to_: Name)
    | SweepJobFile(stray: nat)
    | SweepSource(stray: nat)
    | Recover(order: seq<nat>)

  // --- Parts of the steps ---

  predicate Gone(j: Job, now: nat) {
    || (j.state == Done && now - j.finished > DONE_KEEP_S)
    || (j.state == Failed && (j.cancelled || now - j.finished > FAILED_KEEP_S))
  }

  /** `prune`. */
  function Prune(jobs: map<nat, Job>, now: nat): map<nat, Job> {
    jobs - set id | id in jobs && Gone(jobs[id], now)
  }

  function OnlyLive(jobs: map<nat, Job>): map<nat, Job> {
    jobs - set id | id in jobs && !jobs[id].Live()
  }

  /** The list is in the order of the ids, so the worker's first waiting job is the one with the least. */
  predicate FirstWaiting(jobs: map<nat, Job>, id: nat) {
    id in jobs && jobs[id].state == Waiting && forall k :: k in jobs && jobs[k].state == Waiting ==> id <= k
  }

  /** The name `install` tries, and whether it must let it be because there is such a video. */
  function Tried(t: Ticket, n: Attempt): Name {
    if t.overwrite then t.target else Candidate(t.target, n)
  }

  predicate Taken(videos: map<Name, Video>, t: Ticket, n: Attempt) {
    !t.overwrite && Candidate(t.target, n) in videos
  }

  /** The name the tries come to from the `n`th on, if nothing else touches the folder. */
  function InstallName(videos: map<Name, Video>, t: Ticket, n: Attempt): Option<Name> {
    if t.overwrite then Some(t.target) else FirstFree(videos.Keys, t.target, n)
  }

  /** What a restart can take up: uploads with a job file that names a proper target. */
  function Kept(d: Disk): set<nat> {
    set s | s in d.sources && s in d.jobFiles && NameOk(d.jobFiles[s].target)
  }

  /** `recover`, of one job file after another: the directory's order decides the ids. */
  function Requeued(jobFiles: map<nat, Ticket>, order: seq<nat>): (jobs: map<nat, Job>)
    requires forall s :: s in order ==> s in jobFiles
    ensures forall id :: id in jobs <==> 1 <= id <= |order|
    ensures forall id :: 1 <= id <= |order| ==> jobs[id] == Job(order[id - 1], jobFiles[order[id - 1]], Waiting, 0, false)
  {
    if order == [] then map[]
    else
      var n := |order| - 1;
      Requeued(jobFiles, order[..n])[n + 1 := Job(order[n], jobFiles[order[n]], Waiting, 0, false)]
  }

  /** The job the worker is on, while it still owns it. */
  function Busy(w: Worker): Option<nat> {
    if w.Idle? || w.Unlocked? then None else Some(w.id)
  }

  /** Each of the set, once. */
  predicate Lists(order: seq<nat>, kept: set<nat>) {
    && (forall s :: s in order ==> s in kept) && (forall s :: s in kept ==> s in order)
    && (forall i, j :: 0 <= i < j < |order| ==> order[i] != order[j])
  }

  // --- The steps ---

  /** When an event can happen. */
  predicate Enabled(st: State, e: Event) {
    match e
    case Tick(_) => true
    case Crash => st.up
    case DeleteVideo(name) => st.up && name in st.disk.videos
    case RenameVideo(from, to_) => st.up && from in st.disk.videos && to_ !in st.disk.videos
    case SweepJobFile(s) => !st.up && s !in Kept(st.disk)
    case SweepSource(s) => !st.up && s !in st.disk.jobFiles
    case Recover(order) => !st.up && Lists(order, Kept(st.disk))
    case QueueRefused => st.up && st.held == Free
    case QueueStart(source, ticket) =>
      st.up && st.held == Free && source !in st.used && |Prune(st.jobs, st.now)| < MAX_JOBS
    case QueueFailed => st.up && st.held.Queueing?
    case QueueDone => st.up && st.held.Queueing?
    case CancelStart(id) => st.up && st.held == Free && id in st.jobs && st.jobs[id].state == Waiting
    case CancelDone => st.up && st.held.Cancelling?
    case CancelRunning(id) => st.up && st.held == Free && id in st.jobs && st.jobs[id].state == Converting
    case ClearFinished => st.up && st.held == Free
    case Look => st.up && st.held == Free
    case Take(id) => st.up && st.held == Free && st.worker == Idle && FirstWaiting(st.jobs, id)
    case ChildEnds(_) => st.up && st.worker.Child?
    case Check(_) => st.up && st.held == Free && st.worker.Exited?
    case Settle(_) => st.up && st.worker.Checked?
    case RemoveSource => st.up && st.worker.Settled?
    case RemoveFiles => st.up && st.worker.SourceGone?
    case Finish => st.up && st.held == Free && st.worker.FilesGone?
    case PruneAfter => st.up && st.held == Free && st.worker.Unlocked?
  }

  /** The jobs the calls and the worker speak of are in the list. */
  predicate InList(st: State) {
    && (st.held != Free ==> st.held.id in st.jobs)
    && (Busy(st.worker).Some? ==> Busy(st.worker).value in st.jobs)
  }

  /** The calls' steps and the clock. */
  predicate IsCall(e: Event) {
    e.Tick? || e.QueueRefused? || e.QueueStart? || e.QueueFailed? || e.QueueDone? || e.CancelStart? || e.CancelDone? ||
    e.CancelRunning? || e.ClearFinished? || e.Look?
  }

  /** The API's own changes to the videos, which take no lock. */
  predicate IsFolder(e: Event) {
    e.DeleteVideo? || e.RenameVideo?
  }

  /** A crash, and what comes before the process is up again. */
  predicate IsRestart(e: Event) {
    e.Crash? || e.SweepJobFile? || e.SweepSource? || e.Recover?
  }

  function Apply(st: State, e: Event): State
    requires Enabled(st, e) && InList(st)
  {
    if IsCall(e) then ApplyCall(st, e)
    else if IsRestart(e) then ApplyRestart(st, e)
    else if IsFolder(e) then st.(disk := st.disk.(videos := Changed(st.disk.videos, e)))
    else ApplyWork(st, e)
  }

  function Changed(videos: map<Name, Video>, e: Event): map<Name, Video>
    requires (e.DeleteVideo? && e.name in videos) || (e.RenameVideo? && e.from in videos)
  {
    match e
    case DeleteVideo(name) => videos - {name}
    case RenameVideo(from, to_) => (videos - {from})[to_ := videos[from]]
  }

  function ApplyCall(st: State, e: Event): State
    requires Enabled(st, e) && InList(st) && IsCall(e)
  {
    match e
    case Tick(s) => st.(now := st.now + s)
    case QueueRefused => st.(jobs := Prune(st.jobs, st.now))
    case QueueStart(source, ticket) =>
      st.(jobs := Prune(st.jobs, st.now)[st.nextId := Job(source, ticket, Waiting, 0, false)],
          nextId := st.nextId + 1, held := Queueing(st.nextId), used := st.used + {source},
          disk := st.disk.(sources := st.disk.sources + {source}))
    case QueueFailed =>
      var id := st.held.id;
      var j := st.jobs[id];
      st.(jobs := Prune(st.jobs[id := j.(state := Failed, cancelled := true)], st.now), held := Free,
          disk := st.disk.(sources := st.disk.sources - {j.source}))
    case QueueDone =>
      var j := st.jobs[st.held.id];
      st.(held := Free, promised := st.promised[j.source := j.ticket],
          disk := st.disk.(jobFiles := st.disk.jobFiles[j.source := j.ticket]))
    case CancelStart(id) =>
      var j := st.jobs[id];
      st.(jobs := st.jobs[id := j.(cancelled := true)], held := Cancelling(id),
          early := st.early + {j.source}, ended := st.ended[j.source := Cancelled],
          disk := st.disk.(sources := st.disk.sources - {j.source}))
    case CancelDone =>
      var id := st.held.id;
      var j := st.jobs[id];
      st.(jobs := Prune(st.jobs[id := j.(state := Failed)], st.now), held := Free,
          disk := st.disk.(jobFiles := st.disk.jobFiles - {j.source}, converts := st.disk.converts - {id}))
    case CancelRunning(id) =>
      var j := st.jobs[id];
      st.(jobs := st.jobs[id := j.(cancelled := true)],
          early := if st.worker.Child? || st.worker.Exited? then st.early + {j.source} else st.early)
    case ClearFinished => st.(jobs := OnlyLive(st.jobs))
    case Look => st.(jobs := Prune(st.jobs, st.now))
  }

  function ApplyWork(st: State, e: Event): State
    requires Enabled(st, e) && InList(st) && !IsCall(e) && !IsRestart(e) && !IsFolder(e)
  {
    match e
    case Take(id) => st.(jobs := st.jobs[id := st.jobs[id].(state := Converting)], worker := Child(id))
    case ChildEnds(success) =>
      var id := st.worker.id;
      st.(worker := Exited(id, success),
          disk := if success then st.disk.(converts := st.disk.converts[id := st.jobs[id].source]) else st.disk)
    case Check(synced) =>
      var id := st.worker.id;
      var j := st.jobs[id];
      var go := !j.cancelled && st.worker.success && synced;
      st.(worker := Checked(id, go, 1),
          ended := if go then st.ended else st.ended[j.source := if j.cancelled then Cancelled else Unconverted])
    case Settle(renamed) => ApplySettle(st, renamed)
    case RemoveSource =>
      var w := st.worker;
      st.(worker := SourceGone(w.id, w.ok), disk := st.disk.(sources := st.disk.sources - {st.jobs[w.id].source}))
    case RemoveFiles =>
      var w := st.worker;
      st.(worker := FilesGone(w.id, w.ok),
          disk := st.disk.(jobFiles := st.disk.jobFiles - {st.jobs[w.id].source},
                           converts := st.disk.converts - {w.id}))
    case Finish =>
      var w := st.worker;
      st.(worker := Unlocked(w.id),
          jobs := st.jobs[w.id := st.jobs[w.id].(state := if w.ok then Done else Failed, finished := st.now)])
    case PruneAfter => st.(worker := Idle, jobs := Prune(st.jobs, st.now))
  }

  function ApplyRestart(st: State, e: Event): State
    requires Enabled(st, e) && InList(st) && IsRestart(e)
  {
    match e
    case Crash => st.(up := false, jobs := map[], held := Free, worker := Idle, early := {})
    case SweepJobFile(stray) =>
      st.(disk := st.disk.(jobFiles := st.disk.jobFiles - {stray}),
          ended := if stray in st.promised && stray !in st.ended then st.ended[stray := Dropped] else st.ended)
    case SweepSource(stray) => st.(disk := st.disk.(sources := st.disk.sources - {stray}))
    case Recover(order) =>
      st.(up := true, jobs := Requeued(st.disk.jobFiles, order), nextId := |order| + 1,
          ended := Reended(st, Kept(st.disk)),
          disk := st.disk.(sources := Kept(st.disk), converts := map[],
                           jobFiles := st.disk.jobFiles - (st.disk.jobFiles.Keys - Kept(st.disk))))
  }

  /** One of the tries of `install`, or nothing if the worker is not to: the name is taken and the next is to be tried,
      the conversion is renamed to it, or that fails. */
  function ApplySettle(st: State, renamed: bool): State
    requires st.worker.Checked? && st.worker.id in st.jobs
  {
    var id := st.worker.id;
    var j := st.jobs[id];
    var n := st.worker.next;
    var taken := Taken(st.disk.videos, j.ticket, n);
    if !st.worker.go then st.(worker := Settled(id, false))
    else if !renamed || (taken && n == 99) then st.(worker := Settled(id, false), ended := st.ended[j.source := Unconverted])
    else if taken then st.(worker := Checked(id, true, n + 1))
    else
      st.(worker := Settled(id, true), ended := st.ended[j.source := Installed],
          disk := st.disk.(videos := st.disk.videos[Tried(j.ticket, n) := Converted(j.source)],
                           converts := st.disk.converts - {id}))
  }

  /** Recovery starts the jobs it takes up over, and gives up those whose target is no name. */
  function Reended(st: State, kept: set<nat>): map<nat, End> {
    (map s | s in st.promised.Keys - kept :: Dropped) + (st.ended - kept)
  }

  // --- What every run keeps ---

  /** No two jobs of the list are about one upload. */
  predicate OwnSources(jobs: map<nat, Job>) {
    forall i, k :: i in jobs && k in jobs && jobs[i].source == jobs[k].source ==> i == k
  }

  predicate LiveFor(jobs: map<nat, Job>, source: nat) {
    exists id :: id in jobs && jobs[id].Live() && jobs[id].source == source
  }

  /** An upload and its job file are on disk, and its end has not come. */
  predicate Pending(st: State, j: Job) {
    st.disk.Stored(j.source) && st.disk.jobFiles[j.source] == j.ticket && j.source !in st.ended
  }

  /** A waiting job has its files, but for the moments when a call is making or removing them. */
  predicate WaitingOk(st: State, id: nat)
    requires id in st.jobs
  {
    var j := st.jobs[id];
    if st.held == Queueing(id) then j.source in st.disk.sources && j.source !in st.promised
    else if st.held == Cancelling(id) then j.source !in st.disk.sources && j.source in st.ended
    else Pending(st, j)
  }

  /** The files of the worker's job at each point. */
  predicate WorkerOk(st: State)
    requires InList(st)
  {
    match st.worker
    case Idle => true
    case Unlocked(_) => true
    case Child(id) => Pending(st, st.jobs[id])
    case Exited(id, success) =>
      Pending(st, st.jobs[id]) && (success ==> id in st.disk.converts && st.disk.converts[id] == st.jobs[id].source)
    case Checked(id, go, _) =>
      var j := st.jobs[id];
      && st.disk.Stored(j.source) && (go <==> j.source !in st.ended)
      && (go ==> j.source !in st.early && id in st.disk.converts && st.disk.converts[id] == j.source)
    case Settled(id, _) => st.disk.Stored(st.jobs[id].source) && st.jobs[id].source in st.ended
    case SourceGone(id, _) => st.jobs[id].source !in st.disk.sources && st.jobs[id].source in st.ended
    case FilesGone(id, _) => st.jobs[id].source !in st.disk.sources && st.jobs[id].source in st.ended
  }

  /** The worker has still to look whether the job is cancelled. */
  predicate ToBeChecked(st: State, id: nat)
    requires id in st.jobs
  {
    st.jobs[id].state == Waiting || ((st.worker.Child? || st.worker.Exited?) && st.worker.id == id)
  }

  /** The job list while the process runs. */
  predicate ListOk(st: State) {
    && InList(st) && OwnSources(st.jobs)
    && (forall id :: id in st.jobs ==> id < st.nextId && st.jobs[id].source in st.used)
    && (forall id :: id in st.jobs ==> (st.jobs[id].state == Converting <==> Busy(st.worker) == Some(id)))
    && (forall id :: id in st.jobs && st.jobs[id].state == Waiting ==> WaitingOk(st, id))
    && (forall id :: id in st.jobs && st.jobs[id].source in st.early && ToBeChecked(st, id) ==> st.jobs[id].cancelled)
    && (st.held != Free ==> st.jobs[st.held.id].state == Waiting)
    && (forall s :: s in st.disk.sources ==> LiveFor(st.jobs, s))
    && WorkerOk(st)
  }

  /** The promise: an accepted job's upload and job file are on disk until its end has come. */
  predicate PromiseKept(st: State) {
    forall s :: s in st.promised && s !in st.ended ==> st.disk.Stored(s)
  }

  predicate NamesOk(st: State) {
    && st.disk.sources <= st.used && st.promised.Keys <= st.used && st.early <= st.used
    && (forall s :: s in st.disk.jobFiles ==> s in st.promised && st.disk.jobFiles[s] == st.promised[s])
    && (forall s :: s in st.ended ==> s in st.promised)
  }

  /** Of the jobs whose end has come, at most one still has its files. */
  predicate OneFinishing(st: State) {
    forall s, t :: s in st.ended && t in st.ended && st.disk.Stored(s) && st.disk.Stored(t) ==> s == t
  }

  predicate Inv(st: State) {
    && NamesOk(st) && PromiseKept(st) && OneFinishing(st)
    && if st.up then ListOk(st) else st.jobs == map[] && st.held == Free && st.worker == Idle && st.early == {}
  }

  predicate IsStart(st: State) {
    && !st.up && st.jobs == map[] && st.held == Free && st.worker == Idle
    && st.disk.sources == {} && st.disk.jobFiles == map[]
    && st.used == {} && st.promised == map[] && st.ended == map[] && st.early == {}
  }

  lemma StartInv(st: State)
    requires IsStart(st)
    ensures Inv(st)
  {
  }

  /** Of the jobs in the list, only the worker's can have its end behind it and its files still there. */
  lemma ListOneFinishing(st: State)
    requires NamesOk(st) && ListOk(st)
    ensures OneFinishing(st)
  {
    forall s, t | s in st.ended && t in st.ended && st.disk.Stored(s) && st.disk.Stored(t) ensures s == t {
      var i :| i in st.jobs && st.jobs[i].Live() && st.jobs[i].source == s;
      var k :| k in st.jobs && st.jobs[k].Live() && st.jobs[k].source == t;
      assert st.jobs[i].state == Waiting ==> WaitingOk(st, i);
      assert st.jobs[k].state == Waiting ==> WaitingOk(st, k);
    }
  }

  /** Pruning, or any forgetting of jobs that are over, touches nothing the others need. */
  lemma ForgetInv(st: State, jobs: map<nat, Job>)
    requires Inv(st) && st.up
    requires forall id :: id in jobs ==> id in st.jobs && jobs[id] == st.jobs[id]
    requires forall id :: id in st.jobs && st.jobs[id].Live() ==> id in jobs
    ensures Inv(st.(jobs := jobs))
  {
    var next := st.(jobs := jobs);
    forall s | s in st.disk.sources ensures LiveFor(jobs, s) {
      var i :| i in st.jobs && st.jobs[i].Live() && st.jobs[i].source == s;
      assert i in jobs;
    }
    forall id | id in jobs && jobs[id].state == Waiting ensures WaitingOk(next, id) {
      assert WaitingOk(st, id);
    }
  }

  lemma PruneInv(st: State)
    requires Inv(st) && st.up
    ensures Inv(st.(jobs := Prune(st.jobs, st.now)))
  {
    ForgetInv(st, Prune(st.jobs, st.now));
  }

  /** What one event may do when it is about job `own`: to that job, its files and its end, and to nothing else. */
  predicate About(st: State, next: State, own: nat) {
    && st.up && next.up && next.jobs.Keys == st.jobs.Keys + {own} && st.used <= next.used && st.nextId <= next.nextId
    && (forall id :: id in st.jobs && id != own ==> next.jobs[id] == st.jobs[id])
    && (own in st.jobs ==> next.jobs[own].source == st.jobs[own].source)
    && (own !in st.jobs ==> next.jobs[own].source !in st.used)
    && AboutFiles(st, next, next.jobs[own].source)
    && next.disk.converts - {own} == st.disk.converts - {own}
    && (next.held == st.held || (next.held == Free && st.held.id == own) || (st.held == Free && next.held.id == own))
    && (next.worker == st.worker || (Busy(next.worker) in {None, Some(own)} && Busy(st.worker) in {None, Some(own)}))
  }

  predicate AboutFiles(st: State, next: State, s: nat) {
    && next.disk.sources - {s} == st.disk.sources - {s}
    && next.disk.jobFiles - {s} == st.disk.jobFiles - {s}
    && next.promised - {s} == st.promised - {s}
    && next.ended - {s} == st.ended - {s}
    && next.early - {s} == st.early - {s}
  }

  lemma SameElsewhere<V>(a: map<nat, V>, b: map<nat, V>, k: nat, x: nat)
    requires a - {k} == b - {k} && x != k
    ensures x in a <==> x in b
    ensures x in a ==> a[x] == b[x]
  {
    assert x in a - {k} <==> x in a;
    assert x in b - {k} <==> x in b;
    if x in a {
      assert (a - {k})[x] == (b - {k})[x];
    }
  }

  /** The files, the promise and the end of any other upload are as they were. */
  lemma OtherSource(st: State, next: State, own: nat, s: nat)
    requires About(st, next, own) && s != next.jobs[own].source
    ensures s in next.disk.sources <==> s in st.disk.sources
    ensures s in next.disk.jobFiles <==> s in st.disk.jobFiles
    ensures s in st.disk.jobFiles ==> next.disk.jobFiles[s] == st.disk.jobFiles[s]
    ensures s in next.promised <==> s in st.promised
    ensures s in st.promised ==> next.promised[s] == st.promised[s]
    ensures s in next.ended <==> s in st.ended
    ensures s in next.early <==> s in st.early
  {
    var o := next.jobs[own].source;
    assert s in next.disk.sources - {o} <==> s in next.disk.sources;
    assert s in st.disk.sources - {o} <==> s in st.disk.sources;
    assert s in next.early - {o} <==> s in next.early;
    assert s in st.early - {o} <==> s in st.early;
    SameElsewhere(next.disk.jobFiles, st.disk.jobFiles, o, s);
    SameElsewhere(next.promised, st.promised, o, s);
    SameElsewhere(next.ended, st.ended, o, s);
  }

  /** What must hold of the job an event is about. */
  predicate OwnOk(next: State, own: nat) {
    && own in next.jobs && InList(next)
    && JobOk(next, own, next.jobs[own])
  }

  predicate JobOk(next: State, own: nat, j: Job)
    requires own in next.jobs && InList(next)
  {
    && own < next.nextId && j.source in next.used
    && (j.state == Converting <==> Busy(next.worker) == Some(own))
    && (j.state == Waiting ==> WaitingOk(next, own))
    && (j.source in next.early && ToBeChecked(next, own) ==> j.cancelled)
    && (j.source in next.disk.sources ==> j.Live())
    && (next.held != Free && next.held.id == own ==> j.state == Waiting)
    && (Busy(next.worker) == Some(own) ==> WorkerOk(next))
    && (j.source in next.promised && j.source !in next.ended ==> next.disk.Stored(j.source))
    && (j.source in next.disk.jobFiles ==> j.source in next.promised && next.disk.jobFiles[j.source] == next.promised[j.source])
    && (j.source in next.ended ==> j.source in next.promised)
  }

  lemma AboutSources(st: State, next: State, own: nat)
    requires Inv(st) && About(st, next, own)
    ensures OwnSources(next.jobs)
    ensures forall id :: id in next.jobs && id != own ==> next.jobs[id] == st.jobs[id] && next.jobs[id].source != next.jobs[own].source
  {
    forall id | id in next.jobs && id != own ensures next.jobs[id] == st.jobs[id] && next.jobs[id].source != next.jobs[own].source {
      assert id in st.jobs;
    }
  }

  lemma AboutNames(st: State, next: State, own: nat)
    requires Inv(st) && About(st, next, own) && OwnOk(next, own)
    ensures NamesOk(next) && PromiseKept(next)
  {
    var o := next.jobs[own].source;
    forall s
      ensures s in next.disk.sources || s in next.promised || s in next.early ==> s in next.used
      ensures s in next.disk.jobFiles ==> s in next.promised && next.disk.jobFiles[s] == next.promised[s]
      ensures s in next.ended ==> s in next.promised
      ensures s in next.promised && s !in next.ended ==> next.disk.Stored(s)
    {
      if s != o {
        OtherSource(st, next, own, s);
      }
    }
  }

  lemma AboutOthers(st: State, next: State, own: nat, id: nat)
    requires Inv(st) && About(st, next, own) && OwnOk(next, own) && id in next.jobs && id != own
    ensures id < next.nextId && next.jobs[id].source in next.used
    ensures next.jobs[id].state == Converting <==> Busy(next.worker) == Some(id)
    ensures next.jobs[id].state == Waiting ==> WaitingOk(next, id)
    ensures next.jobs[id].source in next.early && ToBeChecked(next, id) ==> next.jobs[id].cancelled
    ensures Busy(next.worker) == Some(id) ==> WorkerOk(next)
  {
    AboutSources(st, next, own);
    OtherSource(st, next, own, st.jobs[id].source);
    assert st.jobs[id].state == Waiting ==> WaitingOk(st, id);
    SameElsewhere(next.disk.converts, st.disk.converts, own, id);
  }

  lemma AboutList(st: State, next: State, own: nat)
    requires Inv(st) && About(st, next, own) && OwnOk(next, own)
    ensures ListOk(next)
  {
    AboutSources(st, next, own);
    forall id | id in next.jobs && id != own
      ensures id < next.nextId && next.jobs[id].source in next.used
      ensures next.jobs[id].state == Converting <==> Busy(next.worker) == Some(id)
      ensures next.jobs[id].state == Waiting ==> WaitingOk(next, id)
      ensures next.jobs[id].source in next.early && ToBeChecked(next, id) ==> next.jobs[id].cancelled
      ensures Busy(next.worker) == Some(id) ==> WorkerOk(next)
    {
      AboutOthers(st, next, own, id);
    }
    forall s | s in next.disk.sources ensures LiveFor(next.jobs, s) {
      AboutLive(st, next, own, s);
    }
  }

  lemma AboutLive(st: State, next: State, own: nat, s: nat)
    requires Inv(st) && About(st, next, own) && OwnOk(next, own) && s in next.disk.sources
    ensures LiveFor(next.jobs, s)
  {
    if s == next.jobs[own].source {
      assert next.jobs[own].Live();
    } else {
      OtherSource(st, next, own, s);
      var i :| i in st.jobs && st.jobs[i].Live() && st.jobs[i].source == s;
      assert next.jobs[i] == st.jobs[i];
    }
  }

  /** An event about one job keeps the invariant if it leaves that job right. */
  lemma AboutInv(st: State, next: State, own: nat)
    requires Inv(st) && About(st, next, own) && OwnOk(next, own)
    ensures Inv(next)
  {
    AboutNames(st, next, own);
    AboutList(st, next, own);
    ListOneFinishing(next);
  }

  lemma QueueStartInv(st: State, source: nat, ticket: Ticket)
    requires Inv(st) && Enabled(st, QueueStart(source, ticket))
    ensures Inv(Apply(st, QueueStart(source, ticket)))
  {
    PruneInv(st);
    var next := Apply(st, QueueStart(source, ticket));
    var pruned := st.(jobs := Prune(st.jobs, st.now));
    QueueStartAbout(pruned, next, source, ticket);
    AboutInv(pruned, next, st.nextId);
  }

  lemma QueueStartAbout(st: State, next: State, source: nat, ticket: Ticket)
    requires Inv(st) && st.up && st.held == Free && source !in st.used
    requires next == st.(jobs := st.jobs[st.nextId := Job(source, ticket, Waiting, 0, false)],
                         nextId := st.nextId + 1, held := Queueing(st.nextId), used := st.used + {source},
                         disk := st.disk.(sources := st.disk.sources + {source}))
    ensures About(st, next, st.nextId) && OwnOk(next, st.nextId)
  {
  }

  lemma QueueDoneInv(st: State)
    requires Inv(st) && Enabled(st, QueueDone)
    ensures Inv(Apply(st, QueueDone))
  {
    IsOwnOk(st, st.held.id);
    QueueDoneAbout(st, Apply(st, QueueDone), st.held.id);
    AboutInv(st, Apply(st, QueueDone), st.held.id);
  }

  /** In a state that is right, every job is. */
  lemma IsOwnOk(st: State, id: nat)
    requires Inv(st) && st.up && id in st.jobs
    ensures OwnOk(st, id)
  {
    var j := st.jobs[id];
    assert j.state == Waiting ==> WaitingOk(st, id);
    if j.source in st.disk.sources {
      var i :| i in st.jobs && st.jobs[i].Live() && st.jobs[i].source == j.source;
      assert i == id;
    }
  }

  lemma QueueDoneAbout(st: State, next: State, id: nat)
    requires OwnOk(st, id) && st.up && st.held == Queueing(id) && st.jobs[id].state == Waiting
    requires var j := st.jobs[id];
             next == st.(held := Free, promised := st.promised[j.source := j.ticket],
                         disk := st.disk.(jobFiles := st.disk.jobFiles[j.source := j.ticket]))
    ensures About(st, next, id) && OwnOk(next, id)
  {
  }

  lemma QueueFailedInv(st: State)
    requires Inv(st) && Enabled(st, QueueFailed)
    ensures Inv(Apply(st, QueueFailed))
  {
    var id := st.held.id;
    assert WaitingOk(st, id);
    var failed := st.jobs[id := st.jobs[id].(state := Failed, cancelled := true)];
    var mid := st.(jobs := failed, held := Free, disk := st.disk.(sources := st.disk.sources - {st.jobs[id].source}));
    AboutInv(st, mid, id);
    PruneInv(mid);
  }

  lemma CancelStartInv(st: State, id: nat)
    requires Inv(st) && Enabled(st, CancelStart(id))
    ensures Inv(Apply(st, CancelStart(id)))
  {
    IsOwnOk(st, id);
    CancelStartAbout(st, id);
    AboutInv(st, Apply(st, CancelStart(id)), id);
  }

  lemma CancelStartAbout(st: State, id: nat)
    requires OwnOk(st, id) && Enabled(st, CancelStart(id))
    ensures var next := Apply(st, CancelStart(id));
            About(st, next, id) && OwnOk(next, id)
  {
  }

  lemma CancelDoneInv(st: State)
    requires Inv(st) && Enabled(st, CancelDone)
    ensures Inv(Apply(st, CancelDone))
  {
    var id := st.held.id;
    assert WaitingOk(st, id);
    var source := st.jobs[id].source;
    var mid := st.(jobs := st.jobs[id := st.jobs[id].(state := Failed)], held := Free,
                   disk := st.disk.(jobFiles := st.disk.jobFiles - {source}, converts := st.disk.converts - {id}));
    AboutInv(st, mid, id);
    PruneInv(mid);
  }

  lemma CancelRunningInv(st: State, id: nat)
    requires Inv(st) && Enabled(st, CancelRunning(id))
    ensures Inv(Apply(st, CancelRunning(id)))
  {
    IsOwnOk(st, id);
    CancelRunningAbout(st, id);
    AboutInv(st, Apply(st, CancelRunning(id)), id);
  }

  lemma CancelRunningAbout(st: State, id: nat)
    requires OwnOk(st, id) && Enabled(st, CancelRunning(id))
    ensures var next := Apply(st, CancelRunning(id));
            About(st, next, id) && OwnOk(next, id)
  {
  }

  lemma TakeInv(st: State, id: nat)
    requires Inv(st) && Enabled(st, Take(id))
    ensures Inv(Apply(st, Take(id)))
  {
    IsOwnOk(st, id);
    TakeAbout(st, id);
    AboutInv(st, Apply(st, Take(id)), id);
  }

  lemma TakeAbout(st: State, id: nat)
    requires OwnOk(st, id) && Enabled(st, Take(id))
    ensures var next := Apply(st, Take(id));
            About(st, next, id) && OwnOk(next, id)
  {
  }

  lemma ChildEndsInv(st: State, success: bool)
    requires Inv(st) && Enabled(st, ChildEnds(success))
    ensures Inv(Apply(st, ChildEnds(success)))
  {
    var id := st.worker.id;
    IsOwnOk(st, id);
    var next := ChildEnded(st, success, id);
    ChildEndsAbout(st, next, id);
    AboutInv(st, next, id);
  }

  lemma ChildEnded(st: State, success: bool, id: nat) returns (next: State)
    requires Enabled(st, ChildEnds(success)) && InList(st) && st.worker == Child(id)
    ensures next == Apply(st, ChildEnds(success)) && next.worker == Exited(id, success)
    ensures next == st.(worker := next.worker, disk := st.disk.(converts := next.disk.converts))
    ensures success ==> id in next.disk.converts && next.disk.converts[id] == st.jobs[id].source
    ensures next.disk.converts - {id} == st.disk.converts - {id}
  {
    next := Apply(st, ChildEnds(success));
  }

  lemma ChildEndsAbout(st: State, next: State, id: nat)
    requires OwnOk(st, id) && st.up && st.worker == Child(id) && next.worker.Exited? && next.worker.id == id
    requires next == st.(worker := next.worker, disk := st.disk.(converts := next.disk.converts))
    requires next.worker.success ==> id in next.disk.converts && next.disk.converts[id] == st.jobs[id].source
    requires next.disk.converts - {id} == st.disk.converts - {id}
    ensures About(st, next, id) && OwnOk(next, id)
  {
    assert st.jobs[id].state == Converting;
  }

  lemma CheckInv(st: State, synced: bool)
    requires Inv(st) && Enabled(st, Check(synced))
    ensures Inv(Apply(st, Check(synced)))
  {
    IsOwnOk(st, st.worker.id);
    CheckAbout(st, synced);
    AboutInv(st, Apply(st, Check(synced)), st.worker.id);
  }

  lemma CheckAbout(st: State, synced: bool)
    requires Enabled(st, Check(synced)) && OwnOk(st, st.worker.id)
    ensures var next := Apply(st, Check(synced));
            About(st, next, st.worker.id) && OwnOk(next, st.worker.id)
  {
  }

  lemma SettleInv(st: State, renamed: bool)
    requires Inv(st) && st.up && st.worker.Checked?
    ensures Inv(ApplySettle(st, renamed))
  {
    var id := st.worker.id;
    IsOwnOk(st, id);
    if ApplySettle(st, renamed).worker.Checked? {
      TriedAbout(st, renamed, id);
    } else {
      SettleAbout(st, renamed, id);
    }
    AboutInv(st, ApplySettle(st, renamed), id);
  }

  lemma SettleStepInv(st: State, renamed: bool)
    requires Inv(st) && Enabled(st, Settle(renamed))
    ensures Inv(Apply(st, Settle(renamed)))
  {
    SettleInv(st, renamed);
  }

  lemma SettleAbout(st: State, renamed: bool, id: nat)
    requires OwnOk(st, id) && st.up && st.worker.Checked? && st.worker.id == id && !ApplySettle(st, renamed).worker.Checked?
    ensures About(st, ApplySettle(st, renamed), id) && OwnOk(ApplySettle(st, renamed), id)
  {
    SettleChanges(st, renamed, id, st.jobs[id].source);
    SettledAbout(st, ApplySettle(st, renamed), id);
  }

  /** A name found taken changes only which is tried next. */
  lemma TriedAbout(st: State, renamed: bool, id: nat)
    requires OwnOk(st, id) && st.up && st.worker.Checked? && st.worker.id == id && ApplySettle(st, renamed).worker.Checked?
    ensures About(st, ApplySettle(st, renamed), id) && OwnOk(ApplySettle(st, renamed), id)
  {
    assert st.jobs[id].state == Converting;
  }

  /** Settling changes the worker, the end of its job, the videos and its conversion, and no more. */
  lemma SettleChanges(st: State, renamed: bool, id: nat, own: nat)
    requires st.worker.Checked? && st.worker.id == id && id in st.jobs && own == st.jobs[id].source
    requires (!st.worker.go ==> own in st.ended) && !ApplySettle(st, renamed).worker.Checked?
    ensures var next := ApplySettle(st, renamed);
            && next == st.(worker := next.worker, ended := next.ended,
                           disk := st.disk.(videos := next.disk.videos, converts := next.disk.converts))
            && next.worker.Settled? && next.worker.id == id
            && own in next.ended && next.ended - {own} == st.ended - {own}
            && next.disk.converts - {id} == st.disk.converts - {id}
  {
    var next := ApplySettle(st, renamed);
    assert next.ended - {own} == st.ended - {own} && next.disk.converts - {id} == st.disk.converts - {id};
  }

  lemma SettledAbout(st: State, next: State, id: nat)
    requires OwnOk(st, id) && st.up && st.worker.Checked? && st.worker.id == id
    requires next == st.(worker := next.worker, ended := next.ended,
                         disk := st.disk.(videos := next.disk.videos, converts := next.disk.converts))
    requires next.worker.Settled? && next.worker.id == id
    requires var own := st.jobs[id].source;
             own in next.ended && next.ended - {own} == st.ended - {own}
    requires next.disk.converts - {id} == st.disk.converts - {id}
    ensures About(st, next, id) && OwnOk(next, id)
  {
    assert st.jobs[id].state == Converting;
  }

  lemma RemoveSourceInv(st: State)
    requires Inv(st) && Enabled(st, RemoveSource)
    ensures Inv(Apply(st, RemoveSource))
  {
    IsOwnOk(st, st.worker.id);
    RemoveSourceAbout(st);
    AboutInv(st, Apply(st, RemoveSource), st.worker.id);
  }

  lemma RemoveSourceAbout(st: State)
    requires Enabled(st, RemoveSource) && OwnOk(st, st.worker.id)
    ensures var next := Apply(st, RemoveSource);
            About(st, next, st.worker.id) && OwnOk(next, st.worker.id)
  {
  }

  lemma RemoveFilesInv(st: State)
    requires Inv(st) && Enabled(st, RemoveFiles)
    ensures Inv(Apply(st, RemoveFiles))
  {
    IsOwnOk(st, st.worker.id);
    RemoveFilesAbout(st);
    AboutInv(st, Apply(st, RemoveFiles), st.worker.id);
  }

  lemma RemoveFilesAbout(st: State)
    requires Enabled(st, RemoveFiles) && OwnOk(st, st.worker.id)
    ensures var next := Apply(st, RemoveFiles);
            About(st, next, st.worker.id) && OwnOk(next, st.worker.id)
  {
  }

  lemma FinishInv(st: State)
    requires Inv(st) && Enabled(st, Finish)
    ensures Inv(Apply(st, Finish))
  {
    IsOwnOk(st, st.worker.id);
    FinishAbout(st);
    AboutInv(st, Apply(st, Finish), st.worker.id);
  }

  lemma FinishAbout(st: State)
    requires Enabled(st, Finish) && OwnOk(st, st.worker.id)
    ensures var next := Apply(st, Finish);
            About(st, next, st.worker.id) && OwnOk(next, st.worker.id)
  {
  }

  lemma PruneAfterInv(st: State)
    requires Inv(st) && Enabled(st, PruneAfter)
    ensures Inv(Apply(st, PruneAfter))
  {
    IdleInv(st);
    PruneInv(st.(worker := Idle));
  }

  lemma IdleInv(st: State)
    requires Inv(st) && st.up && st.worker.Unlocked?
    ensures Inv(st.(worker := Idle))
  {
    forall id | id in st.jobs && st.jobs[id].state == Waiting ensures WaitingOk(st.(worker := Idle), id) {
      assert WaitingOk(st, id);
    }
  }

  lemma SweepInv(st: State, e: Event)
    requires Inv(st) && Enabled(st, e) && (e.SweepJobFile? || e.SweepSource?)
    ensures Inv(Apply(st, e))
  {
  }

  lemma CrashInv(st: State)
    requires Inv(st) && Enabled(st, Crash)
    ensures Inv(Apply(st, Crash))
  {
  }

  lemma RecoverInv(st: State, order: seq<nat>)
    requires Inv(st) && Enabled(st, Recover(order))
    ensures Inv(Apply(st, Recover(order)))
  {
    var next := Apply(st, Recover(order));
    RecoveredList(st, order, next);
    forall s | s in next.promised && s !in next.ended ensures next.disk.Stored(s) {
      assert s in Kept(st.disk);
    }
  }

  lemma RecoveredSources(st: State, order: seq<nat>)
    requires Enabled(st, Recover(order))
    ensures OwnSources(Requeued(st.disk.jobFiles, order))
    ensures forall s :: s in Kept(st.disk) ==> LiveFor(Requeued(st.disk.jobFiles, order), s)
  {
    var jobs := Requeued(st.disk.jobFiles, order);
    forall i, k | i in jobs && k in jobs && jobs[i].source == jobs[k].source ensures i == k {
      assert order[i - 1] == order[k - 1];
    }
    forall s | s in Kept(st.disk) ensures LiveFor(jobs, s) {
      var n :| 0 <= n < |order| && order[n] == s;
      assert n + 1 in jobs;
    }
  }

  lemma RecoveredWaiting(st: State, order: seq<nat>, next: State, id: nat)
    requires Inv(st) && Enabled(st, Recover(order)) && next == Apply(st, Recover(order)) && id in next.jobs
    ensures WaitingOk(next, id) && next.jobs[id].source in next.used && next.jobs[id].source !in next.early
  {
    assert next.jobs[id].source in order;
  }

  lemma RecoveredList(st: State, order: seq<nat>, next: State)
    requires Inv(st) && Enabled(st, Recover(order)) && next == Apply(st, Recover(order))
    ensures ListOk(next)
  {
    RecoveredSources(st, order);
    forall id | id in next.jobs
      ensures WaitingOk(next, id) && next.jobs[id].source in next.used && next.jobs[id].source !in next.early
    {
      RecoveredWaiting(st, order, next, id);
    }
  }

  lemma TickInv(st: State, seconds: nat)
    requires Inv(st)
    ensures Inv(Apply(st, Tick(seconds)))
  {
    var next := st.(now := st.now + seconds);
    forall id | st.up && id in st.jobs && st.jobs[id].state == Waiting ensures WaitingOk(next, id) {
      assert WaitingOk(st, id);
    }
  }

  lemma QueueInv(st: State, e: Event)
    requires Inv(st) && Enabled(st, e) && (e.QueueRefused? || e.QueueStart? || e.QueueFailed? || e.QueueDone?)
    ensures Inv(Apply(st, e))
  {
    match e {
      case QueueRefused => PruneInv(st);
      case QueueStart(source, ticket) => QueueStartInv(st, source, ticket);
      case QueueFailed => QueueFailedInv(st);
      case QueueDone => QueueDoneInv(st);
    }
  }

  lemma ClearInv(st: State)
    requires Inv(st) && Enabled(st, ClearFinished)
    ensures Inv(Apply(st, ClearFinished))
  {
    ForgetInv(st, OnlyLive(st.jobs));
  }

  lemma CancelInv(st: State, e: Event)
    requires Inv(st) && Enabled(st, e) && (e.CancelStart? || e.CancelDone? || e.CancelRunning?)
    ensures Inv(Apply(st, e))
  {
    match e {
      case CancelStart(id) => CancelStartInv(st, id);
      case CancelDone => CancelDoneInv(st);
      case CancelRunning(id) => CancelRunningInv(st, id);
    }
  }

  lemma CallInv(st: State, e: Event)
    requires Inv(st) && Enabled(st, e) && IsCall(e)
    ensures Inv(Apply(st, e))
  {
    if e.QueueRefused? || e.QueueStart? || e.QueueFailed? || e.QueueDone? {
      QueueInv(st, e);
    } else if e.CancelStart? || e.CancelDone? || e.CancelRunning? {
      CancelInv(st, e);
    } else {
      match e {
        case Tick(seconds) => TickInv(st, seconds);
        case ClearFinished => ClearInv(st);
        case Look => LookInv(st);
      }
    }
  }

  lemma LookInv(st: State)
    requires Inv(st) && Enabled(st, Look)
    ensures Inv(Apply(st, Look))
  {
    PruneInv(st);
  }

  lemma FolderInv(st: State, e: Event)
    requires Inv(st) && Enabled(st, e) && IsFolder(e)
    ensures Inv(Apply(st, e))
  {
    VideosDoNotMatter(st, Changed(st.disk.videos, e));
  }

  lemma VideosDoNotMatter(st: State, videos: map<Name, Video>)
    requires Inv(st) && st.up
    ensures Inv(st.(disk := st.disk.(videos := videos)))
  {
    var next := st.(disk := st.disk.(videos := videos));
    forall id | id in st.jobs && st.jobs[id].state == Waiting ensures WaitingOk(next, id) {
      assert WaitingOk(st, id);
    }
  }

  /** The worker's steps, changes to the videos, a crash and what follows it. */
  lemma WorkerInv(st: State, e: Event)
    requires Inv(st) && Enabled(st, e) && !IsCall(e)
    ensures Inv(Apply(st, e))
  {
    match e {
      case Take(id) => TakeInv(st, id);
      case ChildEnds(success) => ChildEndsInv(st, success);
      case Check(synced) => CheckInv(st, synced);
      case Settle(renamed) => SettleStepInv(st, renamed);
      case RemoveSource => RemoveSourceInv(st);
      case RemoveFiles => RemoveFilesInv(st);
      case Finish => FinishInv(st);
      case PruneAfter => PruneAfterInv(st);
      case Crash => CrashInv(st);
      case DeleteVideo(_) => FolderInv(st, e);
      case RenameVideo(_, _) => FolderInv(st, e);
      case SweepJobFile(_) => SweepInv(st, e);
      case SweepSource(_) => SweepInv(st, e);
      case Recover(order) => RecoverInv(st, order);
    }
  }

  /** Every step keeps the invariant. */
  lemma StepInv(st: State, e: Event)
    requires Inv(st) && Enabled(st, e)
    ensures Inv(Apply(st, e))
  {
    if IsCall(e) {
      CallInv(st, e);
    } else {
      WorkerInv(st, e);
    }
  }

  // --- Whole runs ---

  /** A run: each event possible where it happens. */
  predicate Possible(st: State, events: seq<Event>)
    requires Inv(st)
    decreases |events|
  {
    events == [] || (Enabled(st, events[0]) && (StepInv(st, events[0]); Possible(Apply(st, events[0]), events[1..])))
  }

  function Exec(st: State, events: seq<Event>): (r: State)
    requires Inv(st) && Possible(st, events)
    ensures Inv(r)
    decreases |events|
  {
    if events == [] then st
    else
      StepInv(st, events[0]);
      Exec(Apply(st, events[0]), events[1..])
  }

  /** Over every interleaving of calls, worker, clock, crashes and recoveries, an accepted job's upload and its
      job file, saying what was asked, are on disk until the job's end has come. */
  lemma AcceptedStaysOnDisk(st: State, events: seq<Event>, s: nat)
    requires IsStart(st) && Inv(st) && Possible(st, events)
    ensures var r := Exec(st, events);
            s in r.promised && s !in r.ended ==> r.disk.Stored(s) && r.disk.jobFiles[s] == r.promised[s]
  {
    var r := Exec(st, events);
    assert NamesOk(r) && PromiseKept(r);
  }

  /** Accepted, not at its end, and with a target that recovery takes for a name. */
  predicate Unfinished(st: State, s: nat) {
    s in st.promised && s !in st.ended && NameOk(st.promised[s].target)
  }

  /** Recovery makes a waiting job, for what was asked, of every unfinished one, and of at most one other:
      the one that was just being finished. */
  predicate TakesUp(st: State, jobs: map<nat, Job>) {
    && (forall s :: s in st.promised && Unfinished(st, s) ==> LiveFor(jobs, s))
    && (forall id :: id in jobs ==> AsAsked(st, jobs[id]))
    && (forall i, k :: i in jobs && k in jobs ==>
          Unfinished(st, jobs[i].source) || Unfinished(st, jobs[k].source) || i == k)
  }

  predicate AsAsked(st: State, j: Job) {
    j.state == Waiting && !j.cancelled && j.source in st.promised && j.ticket == st.promised[j.source]
  }

  lemma RecoverTakesUp(st: State, order: seq<nat>)
    requires Inv(st) && Enabled(st, Recover(order))
    ensures TakesUp(st, Apply(st, Recover(order)).jobs)
  {
    RecoveredJobs(st, order);
    RequeuedTakesUp(st, order, Requeued(st.disk.jobFiles, order));
  }

  lemma RequeuedTakesUp(st: State, order: seq<nat>, jobs: map<nat, Job>)
    requires NamesOk(st) && PromiseKept(st) && OneFinishing(st)
    requires Lists(order, Kept(st.disk)) && jobs == Requeued(st.disk.jobFiles, order)
    ensures TakesUp(st, jobs)
  {
    forall s | s in st.promised && Unfinished(st, s) ensures LiveFor(jobs, s) {
      UnfinishedKept(st, s);
      RecoveredLive(st.disk, order, s);
    }
    forall id | id in jobs ensures AsAsked(st, jobs[id]) {
      RequeuedAsAsked(st, order, id);
    }
    RequeuedOneOther(st, order, jobs);
  }

  lemma RequeuedOneOther(st: State, order: seq<nat>, jobs: map<nat, Job>)
    requires NamesOk(st) && OneFinishing(st) && Lists(order, Kept(st.disk)) && jobs == Requeued(st.disk.jobFiles, order)
    ensures forall i, k :: i in jobs && k in jobs ==>
              Unfinished(st, jobs[i].source) || Unfinished(st, jobs[k].source) || i == k
  {
    assert forall i :: i in jobs ==> 1 <= i <= |order| && jobs[i].source == order[i - 1];
    forall i, k | i in jobs && k in jobs ensures Unfinished(st, jobs[i].source) || Unfinished(st, jobs[k].source) || i == k {
      OneOther(st, order, i - 1, k - 1);
    }
  }

  lemma UnfinishedKept(st: State, s: nat)
    requires NamesOk(st) && PromiseKept(st) && Unfinished(st, s)
    ensures s in Kept(st.disk)
  {
  }

  lemma RequeuedAsAsked(st: State, order: seq<nat>, id: nat)
    requires NamesOk(st) && Lists(order, Kept(st.disk)) && id in Requeued(st.disk.jobFiles, order)
    ensures AsAsked(st, Requeued(st.disk.jobFiles, order)[id])
  {
    assert order[id - 1] in order;
  }

  lemma EndedButKept(st: State, s: nat)
    requires NamesOk(st) && s in Kept(st.disk) && !Unfinished(st, s)
    ensures s in st.ended && st.disk.Stored(s)
  {
  }

  lemma OneOther(st: State, order: seq<nat>, i: nat, k: nat)
    requires NamesOk(st) && OneFinishing(st) && Lists(order, Kept(st.disk)) && i < |order| && k < |order|
    ensures Unfinished(st, order[i]) || Unfinished(st, order[k]) || i == k
  {
    assert order[i] in order && order[k] in order;
    if !Unfinished(st, order[i]) && !Unfinished(st, order[k]) {
      EndedButKept(st, order[i]);
      EndedButKept(st, order[k]);
    }
  }

  /** ...so it does after any run and a crash. */
  lemma RecoveryTakesUp(st: State, events: seq<Event>, order: seq<nat>)
    requires IsStart(st) && Inv(st) && Possible(st, events) && Enabled(Exec(st, events), Recover(order))
    ensures TakesUp(Exec(st, events), Apply(Exec(st, events), Recover(order)).jobs)
  {
    RecoverTakesUp(Exec(st, events), order);
  }

  /** Why a job's end came. */
  predicate Reason(st: State, e: Event, s: nat, end: End)
    requires InList(st)
  {
    match end
    case Installed => e == Settle(true) && st.worker.Checked? && st.jobs[st.worker.id].source == s && st.worker.go
    case Cancelled =>
      || (e.CancelStart? && e.id in st.jobs && st.jobs[e.id].source == s)
      || (e.Check? && st.worker.Exited? && st.jobs[st.worker.id].source == s && st.jobs[st.worker.id].cancelled)
    case Unconverted =>
      || (e.Check? && st.worker.Exited? && st.jobs[st.worker.id].source == s && !(st.worker.success && e.synced))
      || (e.Settle? && st.worker.Checked? && st.jobs[st.worker.id].source == s
          && (!e.renamed || (st.worker.next == 99 && Taken(st.disk.videos, st.jobs[st.worker.id].ticket, 99))))
    case Dropped => !st.up && s in st.promised && !NameOk(st.promised[s].target)
  }

  /** An end comes only by installing, by the conversion's or the renaming's failure, by a cancel, or by a name
      that recovery refuses. */
  lemma EndsForAReason(st: State, e: Event, s: nat)
    requires Inv(st) && Enabled(st, e) && s in Apply(st, e).ended && s !in st.ended
    ensures Reason(st, e, s, Apply(st, e).ended[s])
  {
    if st.up {
      EndsRunning(st, e, s);
    } else if s in st.promised {
      assert st.disk.Stored(s);
    }
  }

  lemma EndsRunning(st: State, e: Event, s: nat)
    requires Inv(st) && st.up && Enabled(st, e) && s in Apply(st, e).ended && s !in st.ended
    ensures Reason(st, e, s, Apply(st, e).ended[s])
  {
    if e.Settle? {
      SettleEnds(st, e.renamed, s);
    } else if !e.CancelStart? && !e.Check? {
      EndsElsewhere(st, e);
    }
  }

  lemma SettleEnds(st: State, renamed: bool, s: nat)
    requires InList(st) && Enabled(st, Settle(renamed)) && s in ApplySettle(st, renamed).ended && s !in st.ended
    ensures Reason(st, Settle(renamed), s, ApplySettle(st, renamed).ended[s])
  {
  }

  lemma EndsElsewhere(st: State, e: Event)
    requires InList(st) && st.up && Enabled(st, e) && !e.CancelStart? && !e.Check? && !e.Settle?
    ensures Apply(st, e).ended == st.ended
  {
    if IsCall(e) {
      EndsInCall(st, e);
    }
  }

  lemma EndsInCall(st: State, e: Event)
    requires InList(st) && Enabled(st, e) && IsCall(e) && !e.CancelStart?
    ensures ApplyCall(st, e).ended == st.ended
  {
  }

  /** The one event that replaces or takes away the video of that name, or none. */
  predicate Removes(st: State, e: Event, name: Name)
    requires InList(st)
  {
    || e == DeleteVideo(name) || (e.RenameVideo? && e.from == name)
    || (e == Settle(true) && st.worker.Checked? && st.jobs[st.worker.id].ticket == Ticket(name, true))
  }

  /** What comes to be under that name. */
  predicate Brings(st: State, e: Event, name: Name, video: Video)
    requires InList(st)
  {
    || (e.RenameVideo? && e.to_ == name && e.from in st.disk.videos && video == st.disk.videos[e.from] && name !in st.disk.videos)
    || (e == Settle(true) && st.worker.Checked? && st.worker.go && video == Converted(st.jobs[st.worker.id].source)
        && (name !in st.disk.videos || st.jobs[st.worker.id].ticket == Ticket(name, true)))
  }

  /** What is installed is the conversion of the job's own upload, under a name that was free unless it was to
      replace the video of just that name; every other video stays as it is, at every step, but for the one that is
      deleted or renamed. */
  lemma VideosKept(st: State, e: Event, name: Name)
    requires Inv(st) && Enabled(st, e)
    ensures var was, now := st.disk.videos, Apply(st, e).disk.videos;
            && (name in was ==> (name in now && now[name] == was[name]) || Removes(st, e, name))
            && (name in now ==> (name in was && now[name] == was[name]) || Brings(st, e, name, now[name]))
  {
    if IsFolder(e) {
    } else if !e.Settle? {
      VideosElsewhere(st, e);
    } else {
      SettledVideos(st, e.renamed, name);
    }
  }

  lemma SettledVideos(st: State, renamed: bool, name: Name)
    requires InList(st) && Enabled(st, Settle(renamed))
    ensures var was, now := st.disk.videos, ApplySettle(st, renamed).disk.videos;
            && (name in was ==> (name in now && now[name] == was[name]) || Removes(st, Settle(renamed), name))
            && (name in now ==> (name in was && now[name] == was[name]) || Brings(st, Settle(renamed), name, now[name]))
  {
  }

  lemma VideosElsewhere(st: State, e: Event)
    requires InList(st) && Enabled(st, e) && !e.Settle? && !IsFolder(e)
    ensures Apply(st, e).disk.videos == st.disk.videos
  {
    if IsCall(e) {
      VideosInCall(st, e);
    }
  }

  lemma VideosInCall(st: State, e: Event)
    requires InList(st) && Enabled(st, e) && IsCall(e)
    ensures ApplyCall(st, e).disk.videos == st.disk.videos
  {
  }

  // --- What a cancel is worth ---

  predicate Ended(st: State, s: nat, end: End) {
    s in st.ended && st.ended[s] == end
  }

  /** While the process runs, an end that has come stays as it is. */
  lemma EndStays(st: State, e: Event, s: nat)
    requires Inv(st) && st.up && Enabled(st, e) && s in st.ended
    ensures s in Apply(st, e).ended && Apply(st, e).ended[s] == st.ended[s]
  {
    if e.CancelStart? {
      assert WaitingOk(st, e.id);
    } else if !e.Check? && !e.Settle? {
      EndsElsewhere(st, e);
    }
  }

  /** An upload cancelled before the worker's look at the flag comes to no installation. */
  lemma EarlyHolds(st: State, e: Event, s: nat)
    requires Inv(st) && st.up && Enabled(st, e) && e != Crash && s in st.early && s !in st.ended
    ensures s in Apply(st, e).early && !Ended(Apply(st, e), s, Installed)
  {
    EarlyStays(st, e, s);
    if s in Apply(st, e).ended {
      EndsRunning(st, e, s);
    }
  }

  lemma EarlyStays(st: State, e: Event, s: nat)
    requires InList(st) && Enabled(st, e) && e != Crash && s in st.early
    ensures s in Apply(st, e).early
  {
  }

  /** The video can no longer be installed. */
  predicate Lost(st: State, s: nat) {
    st.up && !Ended(st, s, Installed) && (s in st.early || s in st.ended)
  }

  lemma LostStep(st: State, e: Event, s: nat)
    requires Inv(st) && Enabled(st, e) && e != Crash && Lost(st, s)
    ensures Lost(Apply(st, e), s)
  {
    if s in st.ended {
      EndStays(st, e, s);
    } else {
      EarlyHolds(st, e, s);
    }
    StaysUp(st, e);
  }

  lemma StaysUp(st: State, e: Event)
    requires InList(st) && Enabled(st, e) && e != Crash && st.up
    ensures Apply(st, e).up
  {
    if IsCall(e) {
      assert ApplyCall(st, e).up;
    }
  }

  /** Short of a crash. */
  lemma {:induction false} StaysLost(st: State, events: seq<Event>, s: nat)
    requires Inv(st) && Possible(st, events) && Crash !in events && Lost(st, s)
    ensures Lost(Exec(st, events), s)
    decreases |events|
  {
    if events != [] {
      LostStep(st, events[0], s);
      StepInv(st, events[0]);
      StaysLost(Apply(st, events[0]), events[1..], s);
    }
  }

  /** A cancel that comes before the worker's look at the flag holds: short of a crash, that upload's video is
      never installed. */
  lemma CancelHolds(st: State, events: seq<Event>, s: nat)
    requires Inv(st) && Possible(st, events) && st.up && s in st.early && Crash !in events
    requires !Ended(st, s, Installed)
    ensures !Ended(Exec(st, events), s, Installed)
  {
    StaysLost(st, events, s);
  }

  /** Some run without a crash ends with that upload's video installed. */
  ghost predicate CanInstall(st: State, s: nat)
    requires Inv(st)
  {
    exists events :: Crash !in events && Possible(st, events) && Ended(Exec(st, events), s, Installed)
  }

  /** The worker has looked at the flag and is at the tries of the installing. */
  predicate Installing(st: State, id: nat) {
    st.worker.Checked? && st.worker.id == id && st.worker.go
  }

  /** A cancel of a running conversion is always answered as a success. Short of a crash, the video can come to be
      installed all the same exactly if the cancel found the worker between its look and the installing, or was too late
      altogether. */
  lemma LateCancel(st: State, id: nat, cancelled: State)
    requires Inv(st) && Enabled(st, CancelRunning(id)) && cancelled == Apply(st, CancelRunning(id)) && Inv(cancelled)
    ensures var s := st.jobs[id].source;
            CanInstall(cancelled, s) <==> Installing(st, id) || Ended(st, s, Installed)
  {
    var s := st.jobs[id].source;
    assert Busy(st.worker) == Some(id);
    if Installing(st, id) {
      InstallsYet(cancelled, id);
    } else if Ended(st, s, Installed) {
      assert Possible(cancelled, []) && Crash !in [] && Ended(Exec(cancelled, []), s, Installed);
    } else {
      CancelledLost(st, id, cancelled);
      forall events: seq<Event> | Crash !in events && Possible(cancelled, events) ensures !Ended(Exec(cancelled, events), s, Installed) {
        StaysLost(cancelled, events, s);
      }
    }
  }

  /** If its name is taken, someone may yet delete the video that has it. */
  lemma InstallsYet(st: State, id: nat)
    requires Inv(st) && st.up && id in st.jobs && Installing(st, id)
    ensures CanInstall(st, st.jobs[id].source)
  {
    if Taken(st.disk.videos, st.jobs[id].ticket, st.worker.next) {
      var e := DeleteVideo(Tried(st.jobs[id].ticket, st.worker.next));
      var next := NameFreed(st, id, e);
      var events := InstallsNow(next, id);
      Then(st, e, next, events);
      assert Crash !in [e] + events;
    } else {
      var _ := InstallsNow(st, id);
    }
  }

  lemma NameFreed(st: State, id: nat, e: Event) returns (next: State)
    requires Inv(st) && st.up && id in st.jobs && Installing(st, id) && Taken(st.disk.videos, st.jobs[id].ticket, st.worker.next)
    requires e == DeleteVideo(Tried(st.jobs[id].ticket, st.worker.next))
    ensures Enabled(st, e) && next == Apply(st, e) && Inv(next) && next.up && next.jobs == st.jobs && Installing(next, id)
    ensures !Taken(next.disk.videos, next.jobs[id].ticket, next.worker.next)
  {
    FolderInv(st, e);
    next := Apply(st, e);
  }

  lemma InstallsNow(st: State, id: nat) returns (events: seq<Event>)
    requires Inv(st) && st.up && id in st.jobs && Installing(st, id) && !Taken(st.disk.videos, st.jobs[id].ticket, st.worker.next)
    ensures Crash !in events && Possible(st, events) && Ended(Exec(st, events), st.jobs[id].source, Installed)
  {
    var next := Apply(st, Settle(true));
    StepInv(st, Settle(true));
    SettlesInstalled(st, id);
    Then(st, Settle(true), next, []);
    events := [Settle(true)] + [];
  }

  lemma SettlesInstalled(st: State, id: nat)
    requires InList(st) && st.up && id in st.jobs && Installing(st, id) && !Taken(st.disk.videos, st.jobs[id].ticket, st.worker.next)
    ensures Enabled(st, Settle(true)) && Ended(Apply(st, Settle(true)), st.jobs[id].source, Installed)
  {
  }

  lemma CancelledLost(st: State, id: nat, cancelled: State)
    requires Inv(st) && Enabled(st, CancelRunning(id)) && cancelled == Apply(st, CancelRunning(id))
    requires !Installing(st, id) && !Ended(st, st.jobs[id].source, Installed)
    ensures Lost(cancelled, st.jobs[id].source)
  {
    assert Busy(st.worker) == Some(id) && WorkerOk(st);
  }

  // --- The tries, left alone ---

  /** How the tries end: the video under that name and no other change to the folder, or no name was free. */
  predicate TriesEnd(was: map<Name, Video>, source: nat, id: nat, end: State, name: Option<Name>) {
    if name.None? then end.worker == Settled(id, false) && end.disk.videos == was
    else end.worker == Settled(id, true) && end.disk.videos == was[name.value := Converted(source)]
  }

  /** If nothing else touches the folder and no renaming fails, the video is installed under the first free name. */
  lemma {:induction false} QuietTries(st: State, id: nat) returns (tries: seq<Event>)
    requires Inv(st) && st.up && id in st.jobs && Installing(st, id)
    ensures Possible(st, tries) && forall i :: 0 <= i < |tries| ==> tries[i] == Settle(true)
    ensures TriesEnd(st.disk.videos, st.jobs[id].source, id, Exec(st, tries),
                     InstallName(st.disk.videos, st.jobs[id].ticket, st.worker.next))
    decreases 100 - st.worker.next
  {
    var next := AfterTry(st, id);
    tries := [];
    if next.worker.Checked? {
      tries := QuietTries(next, id);
    }
    Then(st, Settle(true), next, tries);
    tries := [Settle(true)] + tries;
  }

  lemma AfterTry(st: State, id: nat) returns (next: State)
    requires Inv(st) && st.up && id in st.jobs && Installing(st, id)
    ensures Enabled(st, Settle(true)) && next == Apply(st, Settle(true)) && Inv(next)
    ensures var name := InstallName(st.disk.videos, st.jobs[id].ticket, st.worker.next);
            if next.worker.Checked?
            then next.up && next.jobs == st.jobs && Installing(next, id) && next.worker.next == st.worker.next + 1
                 && next.disk.videos == st.disk.videos && InstallName(st.disk.videos, st.jobs[id].ticket, next.worker.next) == name
            else TriesEnd(st.disk.videos, st.jobs[id].source, id, next, name)
  {
    next := Apply(st, Settle(true));
    StepInv(st, Settle(true));
    OneTry(st, id, next);
  }

  lemma OneTry(st: State, id: nat, next: State)
    requires InList(st) && st.up && id in st.jobs && Installing(st, id) && next == Apply(st, Settle(true))
    ensures var n, t := st.worker.next, st.jobs[id].ticket;
            if Taken(st.disk.videos, t, n) && n < 99
            then next == st.(worker := Checked(id, true, n + 1)) && InstallName(st.disk.videos, t, n) == InstallName(st.disk.videos, t, n + 1)
            else TriesEnd(st.disk.videos, st.jobs[id].source, id, next, InstallName(st.disk.videos, t, n))
  {
  }

  lemma Then(st: State, e: Event, next: State, rest: seq<Event>)
    requires Inv(st) && Enabled(st, e) && next == Apply(st, e) && Inv(next) && Possible(next, rest)
    ensures Possible(st, [e] + rest) && Exec(st, [e] + rest) == Exec(next, rest)
  {
    assert ([e] + rest)[1..] == rest;
  }

  /** Recovery's list is of just what was kept. */
  lemma RecoveredLive(d: Disk, order: seq<nat>, s: nat)
    requires Lists(order, Kept(d))
    ensures LiveFor(Requeued(d.jobFiles, order), s) <==> s in Kept(d)
  {
    var jobs := Requeued(d.jobFiles, order);
    if s in order {
      var n :| 0 <= n < |order| && order[n] == s;
      assert n + 1 in jobs;
    }
  }

  /** After a crash at any moment, recovery takes a listed job up again exactly if its upload and its job file are still
      there and its target passes as a name: whether it was cancelled plays no part. */
  lemma CrashForgetsCancel(st: State, id: nat, down: State, order: seq<nat>)
    requires InList(st) && st.up && id in st.jobs && down == Apply(st, Crash) && InList(down) && Enabled(down, Recover(order))
    ensures var s := st.jobs[id].source;
            LiveFor(Apply(down, Recover(order)).jobs, s) <==> st.disk.Stored(s) && NameOk(st.disk.jobFiles[s].target)
  {
    var s := st.jobs[id].source;
    RecoveredJobs(down, order);
    RecoveredLive(down.disk, order, s);
    assert down.disk == st.disk;
    assert s in Kept(st.disk) <==> st.disk.Stored(s) && NameOk(st.disk.jobFiles[s].target);
  }

  lemma RecoveredJobs(st: State, order: seq<nat>)
    requires InList(st) && Enabled(st, Recover(order))
    ensures Apply(st, Recover(order)).jobs == Requeued(st.disk.jobFiles, order)
  {
  }

  /** So a crash after the cancel of a running conversion forgets it exactly if the worker has not yet removed the
      upload, and the target passes. */
  lemma CrashAfterCancel(st: State, id: nat, cancelled: State, down: State, order: seq<nat>)
    requires Inv(st) && Enabled(st, CancelRunning(id)) && cancelled == Apply(st, CancelRunning(id))
    requires InList(cancelled) && down == Apply(cancelled, Crash) && InList(down) && Enabled(down, Recover(order))
    ensures var s := st.jobs[id].source;
            LiveFor(Apply(down, Recover(order)).jobs, s) <==>
            (st.worker.Child? || st.worker.Exited? || st.worker.Checked? || st.worker.Settled?)
            && s in st.disk.jobFiles && NameOk(st.disk.jobFiles[s].target)
  {
    assert Busy(st.worker) == Some(id) && WorkerOk(st);
    assert cancelled.disk == st.disk && cancelled.jobs[id].source == st.jobs[id].source;
    CrashForgetsCancel(cancelled, id, down, order);
  }

  // --- That it happens ---

  ghost predicate Reachable(st: State) {
    exists start, events :: IsStart(start) && Inv(start) && Possible(start, events) && Exec(start, events) == st
  }

  lemma {:induction false} OneMore(start: State, events: seq<Event>, e: Event)
    requires Inv(start) && Possible(start, events) && Enabled(Exec(start, events), e)
    ensures Possible(start, events + [e]) && Exec(start, events + [e]) == Apply(Exec(start, events), e)
    decreases |events|
  {
    if events == [] {
      assert [] + [e] == [e] && [e][1..] == [];
      StepInv(start, e);
    } else {
      assert (events + [e])[0] == events[0] && (events + [e])[1..] == events[1..] + [e];
      StepInv(start, events[0]);
      OneMore(Apply(start, events[0]), events[1..], e);
    }
  }

  lemma Reach(st: State, e: Event, next: State)
    requires Reachable(st) && InList(st) && Enabled(st, e) && next == Apply(st, e)
    ensures Reachable(next) && Inv(next)
  {
    var start, events :| IsStart(start) && Inv(start) && Possible(start, events) && Exec(start, events) == st;
    OneMore(start, events, e);
    assert Exec(start, events + [e]) == next;
  }

  const TARGET: Name := ['a' as int, '.' as int, 'm' as int, 'p' as int, '4' as int]
  const TICKET: Ticket := Ticket(TARGET, true)

  /** The process with one accepted job in its list. */
  function OneJob(state: JobState, cancelled: bool, worker: Worker, converts: map<nat, nat>): State {
    State(true, 0, map[1 := Job(1, TICKET, state, 0, cancelled)], 2, Free, worker,
          Disk({1}, map[1 := TICKET], converts, map[]), {1}, map[1 := TICKET], map[], {})
  }

  lemma TicketOk()
    ensures NameOk(TARGET)
  {
    PlainName(TARGET);
  }

  lemma FirstStart() returns (st: State)
    ensures st == State(true, 0, map[], 1, Free, Idle, Disk({}, map[], map[], map[]), {}, map[], map[], {})
    ensures Reachable(st)
  {
    var s0 := State(false, 0, map[], 1, Free, Idle, Disk({}, map[], map[], map[]), {}, map[], map[], {});
    StartInv(s0);
    assert Possible(s0, []) && Exec(s0, []) == s0;
    assert Kept(s0.disk) == {};
    assert Requeued(s0.disk.jobFiles, []) == map[] && Reended(s0, {}) == map[];
    st := Apply(s0, Recover([]));
    Reach(s0, Recover([]), st);
  }

  lemma FirstQueued() returns (st: State)
    ensures st == State(true, 0, map[1 := Job(1, TICKET, Waiting, 0, false)], 2, Queueing(1), Idle,
                        Disk({1}, map[], map[], map[]), {1}, map[], map[], {})
    ensures Reachable(st) && Inv(st)
  {
    var s1 := FirstStart();
    assert Prune(s1.jobs, 0) == map[];
    st := Apply(s1, QueueStart(1, TICKET));
    Reach(s1, QueueStart(1, TICKET), st);
  }

  lemma FirstAccepted()
    ensures Reachable(OneJob(Waiting, false, Idle, map[]))
  {
    var s2 := FirstQueued();
    var s3 := Apply(s2, QueueDone);
    Reach(s2, QueueDone, s3);
    assert s3 == OneJob(Waiting, false, Idle, map[]);
  }

  lemma FirstTaken()
    ensures Reachable(OneJob(Converting, false, Child(1), map[])) && Inv(OneJob(Converting, false, Child(1), map[]))
  {
    FirstAccepted();
    var s3, s4 := OneJob(Waiting, false, Idle, map[]), OneJob(Converting, false, Child(1), map[]);
    assert FirstWaiting(s3.jobs, 1);
    assert Apply(s3, Take(1)) == s4;
    Reach(s3, Take(1), s4);
  }

  lemma FirstExited()
    ensures Reachable(OneJob(Converting, false, Exited(1, true), map[1 := 1]))
  {
    FirstTaken();
    var s4, s5 := OneJob(Converting, false, Child(1), map[]), OneJob(Converting, false, Exited(1, true), map[1 := 1]);
    assert Apply(s4, ChildEnds(true)) == s5;
    Reach(s4, ChildEnds(true), s5);
  }

  lemma FirstConverted()
    ensures Reachable(OneJob(Converting, false, Checked(1, true, 1), map[1 := 1]))
    ensures Inv(OneJob(Converting, false, Checked(1, true, 1), map[1 := 1]))
  {
    FirstExited();
    var s5, s6 := OneJob(Converting, false, Exited(1, true), map[1 := 1]), OneJob(Converting, false, Checked(1, true, 1), map[1 := 1]);
    assert Apply(s5, Check(true)) == s6;
    Reach(s5, Check(true), s6);
  }

  /** It happens that an upload is cancelled, and its video installed all the same. */
  lemma InstalledAllTheSame() returns (st: State, id: nat)
    ensures Reachable(st) && Inv(st) && Enabled(st, CancelRunning(id)) && Inv(Apply(st, CancelRunning(id)))
    ensures CanInstall(Apply(st, CancelRunning(id)), st.jobs[id].source)
  {
    FirstConverted();
    st, id := OneJob(Converting, false, Checked(1, true, 1), map[1 := 1]), 1;
    StepInv(st, CancelRunning(1));
    LateCancel(st, 1, Apply(st, CancelRunning(1)));
  }

  /** It happens that an upload is cancelled, and after a crash converted once more. */
  lemma TakenUpAgain() returns (st: State, id: nat, cancelled: State, down: State, order: seq<nat>)
    ensures Reachable(st) && Inv(st) && Enabled(st, CancelRunning(id)) && cancelled == Apply(st, CancelRunning(id))
    ensures InList(cancelled) && Enabled(cancelled, Crash) && down == Apply(cancelled, Crash)
    ensures InList(down) && Enabled(down, Recover(order)) && LiveFor(Apply(down, Recover(order)).jobs, st.jobs[id].source)
  {
    FirstTaken();
    st, id, order := OneJob(Converting, false, Child(1), map[]), 1, [1];
    OneKept(st.disk);
    cancelled, down := CrashedAfter(st, id, order);
    CrashAfterCancel(st, id, cancelled, down, order);
  }

  lemma CrashedAfter(st: State, id: nat, order: seq<nat>) returns (cancelled: State, down: State)
    requires InList(st) && Enabled(st, CancelRunning(id)) && Lists(order, Kept(st.disk))
    ensures cancelled == Apply(st, CancelRunning(id))
    ensures InList(cancelled) && Enabled(cancelled, Crash) && down == Apply(cancelled, Crash)
    ensures InList(down) && Enabled(down, Recover(order))
  {
    cancelled := Apply(st, CancelRunning(id));
    down := Apply(cancelled, Crash);
  }

  lemma OneKept(d: Disk)
    requires d.sources == {1} && d.jobFiles == map[1 := TICKET]
    ensures Kept(d) == {1}
  {
    TicketOk();
  }
}
