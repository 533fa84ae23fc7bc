/**
 The job list of web/videos.c as it runs: jobs in the order they came, walked, marked and
 pruned in place, and the names an installation tries. Each section is proved to do to the
 list and to the worker what the step of VideoJobs does.
 */
module VideoList {
  import opened Wrappers
  import opened VideoNames
  import opened VideoJobs

  datatype Entry = Entry(id: nat, job: Job)

  /** The list holds just these jobs, in the order of their ids. */
  predicate Holds(list: seq<Entry>, jobs: map<nat, Job>) {
    && (forall i, k :: 0 <= i < k < |list| ==> list[i].id < list[k].id)
    && (forall i :: 0 <= i < |list| ==> list[i].id in jobs && jobs[list[i].id] == list[i].job)
    && (forall id :: id in jobs ==> Has(list, id))
  }

  predicate Has(list: seq<Entry>, id: nat) {
    exists i :: 0 <= i < |list| && list[i].id == id
  }

  /** Where the `k`th entry was before the `i`th went. */
  function Before(i: nat, k: nat): nat {
    if k < i then k else k + 1
  }

  lemma OthersMove(list: seq<Entry>, rest: seq<Entry>, i: nat)
    requires i < |list| && rest == list[..i] + list[i + 1..]
    ensures |rest| == |list| - 1 && forall k :: 0 <= k < |rest| ==> rest[k] == list[Before(i, k)]
    ensures forall id :: Has(list, id) && id != list[i].id ==> Has(rest, id)
  {
    forall id | Has(list, id) && id != list[i].id ensures Has(rest, id) {
      var m :| 0 <= m < |list| && list[m].id == id;
      assert rest[if m < i then m else m - 1].id == id;
    }
  }

  /** Taking an entry out, or changing its job, does the same to the map. */
  lemma DroppedEntry(list: seq<Entry>, jobs: map<nat, Job>, i: nat)
    requires Holds(list, jobs) && i < |list|
    ensures Holds(list[..i] + list[i + 1..], jobs - {list[i].id})
  {
    var rest := list[..i] + list[i + 1..];
    OthersMove(list, rest, i);
    forall k, m | 0 <= k < m < |rest| ensures rest[k].id < rest[m].id {
      assert list[Before(i, k)].id < list[Before(i, m)].id;
    }
    forall k | 0 <= k < |rest|
      ensures rest[k].id in jobs - {list[i].id} && (jobs - {list[i].id})[rest[k].id] == rest[k].job
    {
      var m := Before(i, k);
      assert if m < i then list[m].id < list[i].id else list[i].id < list[m].id;
      assert list[m].id in jobs && jobs[list[m].id] == list[m].job;
    }
    forall id | id in jobs - {list[i].id} ensures Has(rest, id) {
      assert Has(list, id);
    }
  }

  lemma ReplacedEntry(list: seq<Entry>, jobs: map<nat, Job>, i: nat, job: Job)
    requires Holds(list, jobs) && i < |list|
    ensures Holds(list[i := Entry(list[i].id, job)], jobs[list[i].id := job])
  {
    var next := list[i := Entry(list[i].id, job)];
    assert forall k :: 0 <= k < |next| ==> next[k].id == list[k].id;
    forall k | 0 <= k < |next| && k != i ensures next[k].id != list[i].id {
      assert k < i ==> list[k].id < list[i].id;
      assert i < k ==> list[i].id < list[k].id;
    }
    forall id | id in jobs ensures Has(next, id) {
      assert Has(list, id);
      var m :| 0 <= m < |list| && list[m].id == id;
      assert next[m].id == id;
    }
  }

  lemma AppendedEntry(list: seq<Entry>, jobs: map<nat, Job>, id: nat, job: Job)
    requires Holds(list, jobs) && forall k :: k in jobs ==> k < id
    ensures Holds(list + [Entry(id, job)], jobs[id := job])
  {
    var next := list + [Entry(id, job)];
    forall k | k in jobs[id := job] ensures Has(next, k) {
      if k == id {
        assert next[|list|].id == id;
      } else {
        assert Has(list, k);
        var m :| 0 <= m < |list| && list[m].id == k;
        assert next[m].id == k;
      }
    }
  }

  class Jobs {
    var list: seq<Entry>
    var nextId: nat
    var worker: Worker
    var now: nat
    ghost var jobs: map<nat, Job>

    ghost predicate Valid()
      reads this
    {
      Holds(list, jobs) && forall id :: id in jobs ==> id < nextId
    }

    constructor ()
      ensures Valid() && jobs == map[] && nextId == 1 && worker == Idle && now == 0
    {
      list, nextId, worker, now, jobs := [], 1, Idle, 0, map[];
    }

    method Find(id: nat) returns (i: nat)
      requires Valid()
      ensures i <= |list| && (i < |list| ==> list[i].id == id) && (i == |list| <==> id !in jobs)
    {
      i := 0;
      while i < |list| && list[i].id != id
        invariant 0 <= i <= |list| && forall k :: 0 <= k < i ==> list[k].id != id
      {
        i := i + 1;
      }
      assert id in jobs ==> Has(list, id);
    }

    method Drop(i: nat)
      requires Valid() && i < |list|
      modifies this`list, this`jobs
      ensures Valid() && jobs == old(jobs) - {old(list)[i].id} && list == old(list)[..i] + old(list)[i + 1..]
    {
      DroppedEntry(list, jobs, i);
      jobs := jobs - {list[i].id};
      list := list[..i] + list[i + 1..];
    }

    method Replace(i: nat, job: Job)
      requires Valid() && i < |list|
      modifies this`list, this`jobs
      ensures Valid() && jobs == old(jobs)[old(list)[i].id := job] && list == old(list)[i := Entry(old(list)[i].id, job)]
    {
      ReplacedEntry(list, jobs, i, job);
      jobs := jobs[list[i].id := job];
      list := list[i := Entry(list[i].id, job)];
    }

    /** `add_job`. */
    method AddJob(source: nat, ticket: Ticket) returns (id: nat)
      requires Valid()
      modifies this`list, this`jobs, this`nextId
      ensures Valid() && id == old(nextId) && nextId == id + 1 && jobs == old(jobs)[id := Job(source, ticket, Waiting, 0, false)]
    {
      var job := Job(source, ticket, Waiting, 0, false);
      AppendedEntry(list, jobs, nextId, job);
      id := nextId;
      jobs := jobs[id := job];
      list := list + [Entry(id, job)];
      nextId := nextId + 1;
    }

    /** `prune`: the entries gone are unlinked one by one. */
    method PruneList()
      requires Valid()
      modifies this`list, this`jobs
      ensures Valid() && jobs == Prune(old(jobs), now)
    {
      ghost var was := jobs;
      var i := 0;
      while i < |list|
        invariant 0 <= i <= |list| && Valid() && Prune(jobs, now) == Prune(was, now)
        invariant forall k :: 0 <= k < i ==> !Gone(list[k].job, now)
        decreases |list| - i
      {
        if Gone(list[i].job, now) {
          assert list[i].id in jobs && jobs[list[i].id] == list[i].job;
          ghost var before := jobs;
          ghost var id := list[i].id;
          Drop(i);
          assert Prune(jobs, now) == Prune(before, now);
        } else {
          i := i + 1;
        }
      }
      NoneGone();
    }

    lemma NoneGone()
      requires Valid() && forall k :: 0 <= k < |list| ==> !Gone(list[k].job, now)
      ensures Prune(jobs, now) == jobs
    {
      forall id | id in jobs ensures !Gone(jobs[id], now) {
        assert Has(list, id);
        var k :| 0 <= k < |list| && list[k].id == id;
        assert jobs[list[k].id] == list[k].job;
      }
    }

    /** The head of the worker's loop: the first waiting job, if there is one, is being converted. */
    method TakeNext() returns (id: Option<nat>)
      requires Valid() && worker == Idle
      modifies this`list, this`jobs, this`worker
      ensures Valid()
      ensures id.None? ==> jobs == old(jobs) && worker == Idle && forall k :: k in jobs ==> jobs[k].state != Waiting
      ensures id.Some? ==>
                && FirstWaiting(old(jobs), id.value)
                && jobs == old(jobs)[id.value := old(jobs)[id.value].(state := Converting)]
                && worker == Child(id.value)
    {
      var i := 0;
      while i < |list| && list[i].job.state != Waiting
        invariant 0 <= i <= |list| && forall k :: 0 <= k < i ==> list[k].job.state != Waiting
      {
        i := i + 1;
      }
      FirstInList(i);
      if i == |list| {
        return None;
      }
      id := Some(list[i].id);
      worker := Child(list[i].id);
      Replace(i, list[i].job.(state := Converting));
    }

    lemma FirstInList(i: nat)
      requires Valid() && i <= |list| && (i < |list| ==> list[i].job.state == Waiting)
      requires forall k :: 0 <= k < i ==> list[k].job.state != Waiting
      ensures i == |list| ==> forall k :: k in jobs ==> jobs[k].state != Waiting
      ensures i < |list| ==> FirstWaiting(jobs, list[i].id) && jobs[list[i].id] == list[i].job
    {
      forall id | id in jobs && jobs[id].state == Waiting ensures i < |list| && list[i].id <= id {
        assert Has(list, id);
        var k :| 0 <= k < |list| && list[k].id == id;
        assert jobs[list[k].id] == list[k].job;
        if i < k {
          assert list[i].id < list[k].id;
        }
      }
    }

    /** `rpod_videos_cancel`, up to where it removes files: whether there was such a job to cancel. */
    method MarkCancelled(id: nat) returns (found: bool)
      requires Valid()
      modifies this`list, this`jobs
      ensures Valid() && found == (id in old(jobs) && old(jobs)[id].Live())
      ensures jobs == if found then old(jobs)[id := old(jobs)[id].(cancelled := true)] else old(jobs)
    {
      var i := Find(id);
      found := i < |list| && list[i].job.Live();
      if found {
        Replace(i, list[i].job.(cancelled := true));
      }
    }

    method MarkOne(i: nat)
      requires Valid() && i < |list|
      modifies this`list, this`jobs
      ensures Valid() && jobs.Keys == old(jobs).Keys
      ensures list == old(list)[i := Entry(old(list)[i].id, Cleared(old(list)[i].job))]
    {
      var j := list[i].job;
      assert list[i].id in jobs && jobs[list[i].id] == j;
      if j.state == Done || j.state == Failed {
        Replace(i, j.(state := Failed, cancelled := true));
      }
    }

    method MarkFinished()
      requires Valid()
      modifies this`list, this`jobs
      ensures Valid() && jobs.Keys == old(jobs).Keys && forall id :: id in jobs ==> jobs[id] == Cleared(old(jobs)[id])
    {
      ghost var was := jobs;
      var i := 0;
      while i < |list|
        invariant 0 <= i <= |list| && Valid() && jobs.Keys == was.Keys
        invariant forall k :: 0 <= k < |list| ==> list[k].id in was
        invariant forall k :: 0 <= k < |list| ==> list[k].job == if k < i then Cleared(was[list[k].id]) else was[list[k].id]
      {
        MarkOne(i);
        i := i + 1;
      }
      AllCleared(was);
    }

    lemma AllCleared(was: map<nat, Job>)
      requires Valid() && jobs.Keys == was.Keys
      requires forall k :: 0 <= k < |list| ==> list[k].id in was && list[k].job == Cleared(was[list[k].id])
      ensures forall id :: id in jobs ==> jobs[id] == Cleared(was[id])
    {
      forall id | id in jobs ensures jobs[id] == Cleared(was[id]) {
        assert Has(list, id);
        var k :| 0 <= k < |list| && list[k].id == id;
        assert jobs[list[k].id] == list[k].job;
      }
    }

    /** `rpod_videos_clear_finished`: what is finished is marked cancelled, and so pruned; nothing else is. */
    method ClearFinishedJobs()
      requires Valid()
      modifies this`list, this`jobs
      ensures Valid() && jobs == OnlyLive(old(jobs))
    {
      ghost var was := jobs;
      MarkFinished();
      PruneList();
      LiveRemain(was);
    }

    lemma LiveRemain(was: map<nat, Job>)
      requires jobs.Keys <= was.Keys
      requires forall id :: id in was ==> (id in jobs <==> !Gone(Cleared(was[id]), now))
      requires forall id :: id in jobs ==> jobs[id] == Cleared(was[id])
      ensures jobs == OnlyLive(was)
    {
    }

    /** `recover`, of one job file after another in the directory's order. */
    method TakeUp(files: map<nat, Ticket>, order: seq<nat>)
      requires Valid() && list == [] && jobs == map[] && nextId == 1
      requires forall s :: s in order ==> s in files
      modifies this`list, this`jobs, this`nextId
      ensures Valid() && nextId == |order| + 1
      ensures jobs == Requeued(files, order)
    {
      var i := 0;
      while i < |order|
        invariant 0 <= i <= |order| && Valid() && nextId == i + 1
        invariant jobs == Requeued(files, order[..i])
      {
        assert order[i] in order && order[..i + 1][..i] == order[..i];
        var id := AddJob(order[i], files[order[i]]);
        i := i + 1;
      }
      assert order[..i] == order;
    }

    // --- Sections are steps ---

    /** The list, the worker and the clock are those of a state of VideoJobs. */
    ghost predicate Shows(st: State)
      reads this
    {
      jobs == st.jobs && nextId == st.nextId && worker == st.worker && now == st.now
    }

    /** The job of that id. */
    method JobOf(id: nat) returns (i: nat)
      requires Valid() && id in jobs
      ensures i < |list| && list[i].id == id && list[i].job == jobs[id]
    {
      i := Find(id);
    }

    /** A job's failure, when its call gives it up. */
    method FailJob(id: nat, cancelled: bool)
      requires Valid() && id in jobs
      modifies this`list, this`jobs
      ensures Valid()
      ensures jobs == Prune(old(jobs)[id := old(jobs)[id].(state := Failed, cancelled := old(jobs)[id].cancelled || cancelled)], now)
    {
      var i := JobOf(id);
      var j := list[i].job;
      Replace(i, j.(state := Failed, cancelled := j.cancelled || cancelled));
      PruneList();
    }

    /** The calls' sections; `id` is the job of the call that holds the lock, if one does. */
    method HandleCall(e: Event, id: nat, ghost st: State)
      requires Valid() && Shows(st) && InList(st) && Enabled(st, e) && IsCall(e)
      requires st.held != Free ==> st.held.id == id
      modifies this`list, this`jobs, this`nextId, this`now
      ensures Valid() && Shows(Apply(st, e))
    {
      match e {
        case Tick(seconds) => now := now + seconds;
        case QueueRefused => PruneList();
        case Look => PruneList();
        case QueueStart(source, ticket) => QueueJob(source, ticket);
        case QueueFailed => FailJob(id, true);
        case QueueDone =>
        case CancelStart(k) => var _ := MarkCancelled(k);
        case CancelDone => FailJob(id, false);
        case CancelRunning(k) => var _ := MarkCancelled(k);
        case ClearFinished => ClearFinishedJobs();
      }
    }

    method QueueJob(source: nat, ticket: Ticket)
      requires Valid()
      modifies this`list, this`jobs, this`nextId
      ensures Valid() && nextId == old(nextId) + 1
      ensures jobs == Prune(old(jobs), now)[old(nextId) := Job(source, ticket, Waiting, 0, false)]
    {
      PruneList();
      var _ := AddJob(source, ticket);
    }

    /** The worker's sections and file operations. */
    method HandleWork(e: Event, videos: map<Name, Video>, ghost st: State)
      requires Valid() && Shows(st) && InList(st) && Enabled(st, e) && !IsCall(e) && !IsRestart(e) && !IsFolder(e) && videos == st.disk.videos
      modifies this`list, this`jobs, this`worker
      ensures Valid() && Shows(Apply(st, e))
    {
      if e.Settle? {
        InstallIt(e.renamed, videos);
      } else {
        HandleOther(e, st);
      }
    }

    method HandleOther(e: Event, ghost st: State)
      requires Valid() && Shows(st) && InList(st) && Enabled(st, e)
      requires !IsCall(e) && !IsRestart(e) && !IsFolder(e) && !e.Settle?
      modifies this`list, this`jobs, this`worker
      ensures Valid() && Shows(ApplyWork(st, e))
    {
      match e {
        case Take(_) => var _ := TakeNext();
        case ChildEnds(success) => worker := Exited(worker.id, success);
        case Check(synced) => LookAtFlag(synced);
        case RemoveSource => worker := SourceGone(worker.id, worker.ok);
        case RemoveFiles => worker := FilesGone(worker.id, worker.ok);
        case Finish => FinishJob();
        case PruneAfter =>
          worker := Idle;
          PruneList();
      }
    }

    method LookAtFlag(synced: bool)
      requires Valid() && worker.Exited? && worker.id in jobs
      modifies this`worker
      ensures worker == Checked(old(worker).id, !jobs[old(worker).id].cancelled && old(worker).success && synced, 1)
    {
      var i := JobOf(worker.id);
      worker := Checked(worker.id, !list[i].job.cancelled && worker.success && synced, 1);
    }

    /** One of the tries of `install`. */
    method InstallIt(renamed: bool, videos: map<Name, Video>)
      requires Valid() && worker.Checked? && worker.id in jobs
      modifies this`worker
      ensures var w := old(worker);
              var taken := Taken(videos, jobs[w.id].ticket, w.next);
              worker == if w.go && renamed && taken && w.next < 99 then Checked(w.id, true, w.next + 1)
                        else Settled(w.id, w.go && renamed && !taken)
    {
      var i := JobOf(worker.id);
      var taken := Taken(videos, list[i].job.ticket, worker.next);
      if worker.go && renamed && taken && worker.next < 99 {
        worker := Checked(worker.id, true, worker.next + 1);
      } else {
        worker := Settled(worker.id, worker.go && renamed && !taken);
      }
    }

    method FinishJob()
      requires Valid() && worker.FilesGone? && worker.id in jobs
      modifies this`list, this`jobs, this`worker
      ensures Valid() && worker == Unlocked(old(worker).id)
      ensures var id := old(worker).id;
              jobs == old(jobs)[id := old(jobs)[id].(state := if old(worker).ok then Done else Failed, finished := now)]
    {
      var i := JobOf(worker.id);
      Replace(i, list[i].job.(state := if worker.ok then Done else Failed, finished := now));
      worker := Unlocked(worker.id);
    }
  }

  /** A finished job marked for pruning. */
  function Cleared(j: Job): Job {
    if j.Live() then j else j.(state := Failed, cancelled := true)
  }

  /** The names `install` tries, in turn, until one is free, when nothing else touches the folder. */
  method TryNames(videos: map<Name, Video>, t: Ticket) returns (name: Option<Name>)
    ensures name == InstallName(videos, t, 1)
  {
    if t.overwrite {
      return Some(t.target);
    }
    var n := 1;
    while n < 100
      invariant 1 <= n <= 100 && FirstFree(videos.Keys, t.target, n) == FirstFree(videos.Keys, t.target, 1)
    {
      if Candidate(t.target, n) !in videos {
        return Some(Candidate(t.target, n));
      }
      n := n + 1;
    }
    return None;
  }
}
