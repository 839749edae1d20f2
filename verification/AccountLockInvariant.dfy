/** The invariant of the account lock, and that every step keeps it. */
module AccountLockInvariant {
  import opened Prelude
  import opened AccountLock

  /** A live lock object holds its path; every lock object's file, while open, is the one it opened. */
  ghost predicate LockOk(s: Sys, h: Handle)
    requires h in s.locks
  {
    && (Live(s, h) ==> Holds(s, h))
    && h < s.next && s.locks[h].pid in s.alive + s.gone
    && (h in s.files ==> s.files[h] == (s.locks[h].pid, s.locks[h].path))
  }

  ghost predicate FileOk(s: Sys, h: Handle)
    requires h in s.files
  {
    h < s.next && s.files[h].0 in s.alive
  }

  ghost predicate FlockOk(s: Sys, p: Path)
    requires p in s.flock
  {
    s.flock[p] in s.files && s.files[s.flock[p]].1 == p
  }

  ghost predicate RegistryOk(s: Sys, k: (Pid, Path))
    requires k in s.registry
  {
    && k.0 in s.alive
    && s.registry[k] in s.locks && (s.locks[s.registry[k]].pid, s.locks[s.registry[k]].path) == k
  }

  ghost predicate MutexOk(s: Sys, p: Pid)
    requires p in s.mutex
  {
    s.mutex[p] in s.threads && s.threads[s.mutex[p]].pid == p
  }

  predicate InSection(phase: Phase) { phase.Opening? || phase.Locking? || phase.Registering? }

  /** No lock object of this process and path is live. */
  ghost predicate NoneLive(s: Sys, pid: Pid, path: Path) {
    forall h {:trigger Live(s, h)} :: Live(s, h) ==> (s.locks[h].pid, s.locks[h].path) != (pid, path)
  }

  /** What a thread in the critical section knows: its file is its own and not yet a lock object, and
      no lock object of its process and path is live once the registry has been consulted. */
  ghost predicate ThreadOk(s: Sys, t: Tid)
    requires t in s.threads
  {
    var Thread(pid, phase) := s.threads[t];
    && pid in s.alive
    && (phase.HoldsMutex() <==> pid in s.mutex && s.mutex[pid] == t)
    && (InSection(phase) ==> NoneLive(s, pid, phase.path))
    && (phase.Locking? || phase.Registering? ==>
          phase.handle !in s.locks && phase.handle in s.files && s.files[phase.handle] == (pid, phase.path))
    && (phase.Registering? ==> phase.path in s.flock && s.flock[phase.path] == phase.handle)
    && (phase.Releasing() ==>
          phase.lock in s.locks && s.locks[phase.lock].pid == pid && s.locks[phase.lock].released)
  }

  /** The lock a thread is releasing. */
  function ReleaseOf(s: Sys, t: Tid): Option<Handle> {
    if t in s.threads && s.threads[t].phase.Releasing() then Some(s.threads[t].phase.lock) else None
  }

  ghost predicate LocksOk(s: Sys) {
    forall h :: h in s.locks ==> LockOk(s, h)
  }

  ghost predicate FilesOk(s: Sys) {
    && (forall h :: h in s.files ==> FileOk(s, h))
    && (forall p :: p in s.flock ==> FlockOk(s, p))
  }

  ghost predicate RegistriesOk(s: Sys) {
    && (forall k :: k in s.registry ==> RegistryOk(s, k))
    && (forall p :: p in s.mutex ==> MutexOk(s, p))
  }

  ghost predicate ThreadsOk(s: Sys) {
    forall t {:trigger ThreadOk(s, t)} :: t in s.threads ==> ThreadOk(s, t)
  }

  /** No two threads release the same lock. */
  ghost predicate ReleasesDiffer(s: Sys) {
    forall t, u {:trigger ReleaseOf(s, t), ReleaseOf(s, u)} ::
      ReleaseOf(s, t).Some? && ReleaseOf(s, t) == ReleaseOf(s, u) ==> t == u
  }

  ghost predicate Inv(s: Sys) {
    s.alive !! s.gone && LocksOk(s) && FilesOk(s) && RegistriesOk(s) && ThreadsOk(s) && ReleasesDiffer(s)
  }

  /** The invariant at a thread and at the handle it works on. */
  lemma ActorOk(s: Sys, t: Tid)
    requires Inv(s)
    ensures t in s.threads ==> ThreadOk(s, t)
    ensures t in s.threads && s.threads[t].phase.Releasing() ==> LockOk(s, s.threads[t].phase.lock)
    ensures t in s.threads && (s.threads[t].phase.Locking? || s.threads[t].phase.Registering?) ==>
              FileOk(s, s.threads[t].phase.handle)
  {
  }

  /** No lock object comes to life between two states. */
  ghost predicate NoNewLife(s: Sys, s': Sys) {
    forall h {:trigger Live(s', h)} :: Live(s', h) ==> Live(s, h) && s'.locks[h] == s.locks[h]
  }

  lemma NoneLiveStays(s: Sys, s': Sys, pid: Pid, path: Path)
    requires NoneLive(s, pid, path) && NoNewLife(s, s')
    ensures NoneLive(s', pid, path)
  {
  }

  lemma ReleasesStay(s: Sys, s': Sys)
    requires ReleasesDiffer(s)
    requires forall t {:trigger ReleaseOf(s', t)} :: ReleaseOf(s', t).Some? ==> ReleaseOf(s', t) == ReleaseOf(s, t)
    ensures ReleasesDiffer(s')
  {
  }

  lemma LaunchKeepsThreads(s: Sys, pid: Pid)
    requires Inv(s)
    ensures ThreadsOk(Launched(s, pid))
  {
    var s' := Launched(s, pid);
    assert NoNewLife(s, s');
    forall t | t in s'.threads
      ensures ThreadOk(s', t)
    {
      ActorOk(s, t);
      if t in s.threads && InSection(s.threads[t].phase) {
        NoneLiveStays(s, s', s.threads[t].pid, s.threads[t].phase.path);
      }
      hide NoneLive, NoNewLife, Holds, Live;
    }
  }

  lemma LaunchKeepsInv(s: Sys, pid: Pid)
    requires Inv(s)
    ensures Inv(Launched(s, pid))
  {
    LaunchKeepsThreads(s, pid);
    ReleasesStay(s, Launched(s, pid));
    hide ThreadsOk, ReleasesDiffer;
  }

  lemma StartThreadKeepsThreads(s: Sys, tid: Tid, pid: Pid)
    requires Inv(s)
    ensures ThreadsOk(ThreadStarted(s, tid, pid))
  {
    var s' := ThreadStarted(s, tid, pid);
    ActorOk(s, tid);
    assert NoNewLife(s, s');
    forall t | t in s'.threads
      ensures ThreadOk(s', t)
    {
      ActorOk(s, t);
      if t in s.threads && InSection(s.threads[t].phase) {
        NoneLiveStays(s, s', s.threads[t].pid, s.threads[t].phase.path);
      }
      hide NoneLive, NoNewLife, Holds, Live;
    }
  }

  lemma StartThreadKeepsInv(s: Sys, tid: Tid, pid: Pid)
    requires Inv(s)
    ensures Inv(ThreadStarted(s, tid, pid))
  {
    StartThreadKeepsThreads(s, tid, pid);
    ActorOk(s, tid);
    ReleasesStay(s, ThreadStarted(s, tid, pid));
    hide ThreadsOk, ReleasesDiffer;
  }

  lemma BeginAcquireKeepsThreads(s: Sys, tid: Tid, path: Path, service: string)
    requires Inv(s)
    ensures ThreadsOk(AcquireBegun(s, tid, path, service))
  {
    var s' := AcquireBegun(s, tid, path, service);
    ActorOk(s, tid);
    assert NoNewLife(s, s');
    forall t | t in s'.threads
      ensures ThreadOk(s', t)
    {
      ActorOk(s, t);
      if t in s.threads && InSection(s.threads[t].phase) {
        NoneLiveStays(s, s', s.threads[t].pid, s.threads[t].phase.path);
      }
      hide NoneLive, NoNewLife, Holds, Live;
    }
  }

  lemma BeginAcquireKeepsInv(s: Sys, tid: Tid, path: Path, service: string)
    requires Inv(s)
    ensures Inv(AcquireBegun(s, tid, path, service))
  {
    BeginAcquireKeepsThreads(s, tid, path, service);
    ActorOk(s, tid);
    ReleasesStay(s, AcquireBegun(s, tid, path, service));
    hide ThreadsOk, ReleasesDiffer;
  }

  /** A registry with no live entry for a path means no live lock object of the process on it. */
  lemma RegistryShowsNone(s: Sys, pid: Pid, path: Path)
    requires Inv(s)
    requires (pid, path) in s.registry ==> !Live(s, s.registry[(pid, path)])
    ensures NoneLive(s, pid, path)
  {
  }

  lemma CheckRegistryActs(s: Sys, tid: Tid)
    requires Inv(s) && tid in s.threads
    ensures ThreadOk(RegistryChecked(s, tid), tid)
  {
    var s' := RegistryChecked(s, tid);
    ActorOk(s, tid);
    if s.threads[tid].phase.Checking? && s'.threads[tid].phase.Opening? {
      RegistryShowsNone(s, s.threads[tid].pid, s.threads[tid].phase.path);
      NoneLiveStays(s, s', s.threads[tid].pid, s.threads[tid].phase.path);
    }
    hide NoneLive, NoNewLife, Holds, Live;
  }

  lemma CheckRegistrySparesOthers(s: Sys, tid: Tid, t: Tid)
    requires Inv(s) && RegistryChecked(s, tid) != s && t in s.threads && t != tid
    ensures ThreadOk(RegistryChecked(s, tid), t)
  {
    ActorOk(s, tid);
    ActorOk(s, t);
    hide Inv;
    var s' := RegistryChecked(s, tid);
    assert NoNewLife(s, s');
    if InSection(s.threads[t].phase) {
      NoneLiveStays(s, s', s.threads[t].pid, s.threads[t].phase.path);
    }
    hide NoneLive, NoNewLife, Holds, Live;
  }

  lemma CheckRegistryKeepsThreads(s: Sys, tid: Tid)
    requires Inv(s)
    ensures ThreadsOk(RegistryChecked(s, tid))
  {
    var s' := RegistryChecked(s, tid);
    if s' == s {
      return;
    }
    CheckRegistryActs(s, tid);
    forall t | t in s'.threads && t != tid
      ensures ThreadOk(s', t)
    {
      CheckRegistrySparesOthers(s, tid, t);
    }
    hide ThreadOk, Inv;
  }

  lemma CheckRegistryKeepsLocks(s: Sys, tid: Tid)
    requires Inv(s)
    ensures LocksOk(RegistryChecked(s, tid))
  {
  }

  lemma CheckRegistryKeepsTables(s: Sys, tid: Tid)
    requires Inv(s)
    ensures FilesOk(RegistryChecked(s, tid)) && RegistriesOk(RegistryChecked(s, tid))
  {
    ActorOk(s, tid);
    hide LocksOk, ThreadsOk, ReleasesDiffer;
  }

  lemma CheckRegistryKeepsInv(s: Sys, tid: Tid)
    requires Inv(s)
    ensures Inv(RegistryChecked(s, tid))
  {
    CheckRegistryKeepsThreads(s, tid);
    CheckRegistryKeepsLocks(s, tid);
    CheckRegistryKeepsTables(s, tid);
    ReleasesStay(s, RegistryChecked(s, tid));
    hide LocksOk, ThreadsOk, ReleasesDiffer, RegistriesOk, FilesOk;
  }

  lemma OpenFileKeepsThreads(s: Sys, tid: Tid)
    requires Inv(s)
    ensures ThreadsOk(FileOpened(s, tid))
  {
    var s' := FileOpened(s, tid);
    ActorOk(s, tid);
    assert NoNewLife(s, s');
    forall t | t in s'.threads
      ensures ThreadOk(s', t)
    {
      ActorOk(s, t);
      if t in s.threads && InSection(s.threads[t].phase) {
        NoneLiveStays(s, s', s.threads[t].pid, s.threads[t].phase.path);
      }
      hide NoneLive, NoNewLife, Holds, Live;
    }
  }

  lemma OpenFileKeepsInv(s: Sys, tid: Tid)
    requires Inv(s)
    ensures Inv(FileOpened(s, tid))
  {
    OpenFileKeepsThreads(s, tid);
    ActorOk(s, tid);
    ReleasesStay(s, FileOpened(s, tid));
    hide ThreadsOk, ReleasesDiffer;
  }

  lemma TryFlockSparesOthers(s: Sys, tid: Tid, t: Tid)
    requires Inv(s) && FlockTried(s, tid) != s && t in s.threads && t != tid
    ensures ThreadOk(FlockTried(s, tid), t)
  {
    ActorOk(s, tid);
    ActorOk(s, t);
    hide Inv;
    var s' := FlockTried(s, tid);
    assert NoNewLife(s, s');
    if InSection(s.threads[t].phase) {
      NoneLiveStays(s, s', s.threads[t].pid, s.threads[t].phase.path);
    }
    hide NoneLive, NoNewLife, Holds, Live;
  }

  lemma TryFlockKeepsThreads(s: Sys, tid: Tid)
    requires Inv(s)
    ensures ThreadsOk(FlockTried(s, tid))
  {
    var s' := FlockTried(s, tid);
    if s' == s {
      return;
    }
    ActorOk(s, tid);
    assert NoNewLife(s, s');
    NoneLiveStays(s, s', s.threads[tid].pid, s.threads[tid].phase.path);
    forall t | t in s'.threads && t != tid
      ensures ThreadOk(s', t)
    {
      TryFlockSparesOthers(s, tid, t);
    }
    hide Inv, NoneLive, NoNewLife, Holds, Live;
  }

  lemma TryFlockKeepsLocks(s: Sys, tid: Tid)
    requires Inv(s)
    ensures LocksOk(FlockTried(s, tid))
  {
    ActorOk(s, tid);
    hide ThreadsOk, ReleasesDiffer, RegistriesOk;
  }

  lemma TryFlockKeepsInv(s: Sys, tid: Tid)
    requires Inv(s)
    ensures Inv(FlockTried(s, tid))
  {
    TryFlockKeepsThreads(s, tid);
    TryFlockKeepsLocks(s, tid);
    ActorOk(s, tid);
    ReleasesStay(s, FlockTried(s, tid));
    hide LocksOk, ThreadsOk, ReleasesDiffer;
  }

  /** A new lock object belongs to the process that registers it. */
  lemma RegisterSparesOthers(s: Sys, tid: Tid, pid: Pid, path: Path)
    requires NoneLive(s, pid, path)
    requires tid in s.threads ==> s.threads[tid].pid != pid
    ensures NoneLive(Registered(s, tid), pid, path)
  {
    var s' := Registered(s, tid);
    forall h | Live(s', h)
      ensures (s'.locks[h].pid, s'.locks[h].path) != (pid, path)
    {
      assert h in s.locks && s.locks[h] == s'.locks[h] ==> Live(s, h);
    }
  }

  lemma RegisterKeepsThreads(s: Sys, tid: Tid)
    requires Inv(s)
    ensures ThreadsOk(Registered(s, tid))
  {
    var s' := Registered(s, tid);
    if s' == s {
      return;
    }
    ActorOk(s, tid);
    forall t | t in s'.threads
      ensures ThreadOk(s', t)
    {
      ActorOk(s, t);
      if t != tid && t in s.threads && InSection(s.threads[t].phase) {
        RegisterSparesOthers(s, tid, s.threads[t].pid, s.threads[t].phase.path);
      }
      hide NoneLive, NoNewLife, Holds, Live;
    }
  }

  lemma RegisterKeepsInv(s: Sys, tid: Tid)
    requires Inv(s)
    ensures Inv(Registered(s, tid))
  {
    RegisterKeepsThreads(s, tid);
    ActorOk(s, tid);
    ReleasesStay(s, Registered(s, tid));
    hide ThreadsOk, ReleasesDiffer;
  }

  lemma BeginReleaseKeepsThreads(s: Sys, tid: Tid, h: Handle)
    requires Inv(s)
    ensures ThreadsOk(ReleaseBegun(s, tid, h))
  {
    var s' := ReleaseBegun(s, tid, h);
    ActorOk(s, tid);
    assert NoNewLife(s, s');
    forall t | t in s'.threads
      ensures ThreadOk(s', t)
    {
      ActorOk(s, t);
      if t in s.threads && InSection(s.threads[t].phase) {
        NoneLiveStays(s, s', s.threads[t].pid, s.threads[t].phase.path);
      }
      hide NoneLive, NoNewLife, Holds, Live;
    }
  }

  lemma BeginReleaseKeepsInv(s: Sys, tid: Tid, h: Handle)
    requires Inv(s)
    ensures Inv(ReleaseBegun(s, tid, h))
  {
    BeginReleaseKeepsThreads(s, tid, h);
    ActorOk(s, tid);
    var s' := ReleaseBegun(s, tid, h);
    forall t, u | ReleaseOf(s', t).Some? && ReleaseOf(s', t) == ReleaseOf(s', u)
      ensures t == u
    {
      ActorOk(s, t);
      ActorOk(s, u);
      assert t != tid && u != tid ==> ReleaseOf(s, t) == ReleaseOf(s, u);
    }
    hide ThreadsOk;
  }

  lemma UnlockKeepsThreads(s: Sys, tid: Tid)
    requires Inv(s)
    ensures ThreadsOk(Unlocked(s, tid))
  {
    var s' := Unlocked(s, tid);
    ActorOk(s, tid);
    assert NoNewLife(s, s');
    forall t | t in s'.threads
      ensures ThreadOk(s', t)
    {
      ActorOk(s, t);
      if t in s.threads && InSection(s.threads[t].phase) {
        NoneLiveStays(s, s', s.threads[t].pid, s.threads[t].phase.path);
      }
      hide NoneLive, NoNewLife, Holds, Live;
    }
  }

  lemma UnlockKeepsInv(s: Sys, tid: Tid)
    requires Inv(s)
    ensures Inv(Unlocked(s, tid))
  {
    UnlockKeepsThreads(s, tid);
    ActorOk(s, tid);
    ReleasesStay(s, Unlocked(s, tid));
    hide ThreadsOk, ReleasesDiffer;
  }

  lemma CloseHandleKeepsThreads(s: Sys, tid: Tid)
    requires Inv(s)
    ensures ThreadsOk(HandleClosed(s, tid))
  {
    var s' := HandleClosed(s, tid);
    ActorOk(s, tid);
    assert NoNewLife(s, s');
    forall t | t in s'.threads
      ensures ThreadOk(s', t)
    {
      ActorOk(s, t);
      if t in s.threads && InSection(s.threads[t].phase) {
        NoneLiveStays(s, s', s.threads[t].pid, s.threads[t].phase.path);
      }
      hide NoneLive, NoNewLife, Holds, Live;
    }
  }

  lemma CloseHandleKeepsInv(s: Sys, tid: Tid)
    requires Inv(s)
    ensures Inv(HandleClosed(s, tid))
  {
    CloseHandleKeepsThreads(s, tid);
    ActorOk(s, tid);
    ReleasesStay(s, HandleClosed(s, tid));
    hide ThreadsOk, ReleasesDiffer;
  }

  lemma EvictKeepsThreads(s: Sys, tid: Tid)
    requires Inv(s)
    ensures ThreadsOk(Evicted(s, tid))
  {
    var s' := Evicted(s, tid);
    ActorOk(s, tid);
    assert NoNewLife(s, s');
    forall t | t in s'.threads
      ensures ThreadOk(s', t)
    {
      ActorOk(s, t);
      if t in s.threads && InSection(s.threads[t].phase) {
        NoneLiveStays(s, s', s.threads[t].pid, s.threads[t].phase.path);
      }
      hide NoneLive, NoNewLife, Holds, Live;
    }
  }

  lemma EvictKeepsInv(s: Sys, tid: Tid)
    requires Inv(s)
    ensures Inv(Evicted(s, tid))
  {
    EvictKeepsThreads(s, tid);
    ActorOk(s, tid);
    ReleasesStay(s, Evicted(s, tid));
    hide ThreadsOk, ReleasesDiffer;
  }

  lemma CrashKeepsThreads(s: Sys, pid: Pid)
    requires Inv(s)
    ensures ThreadsOk(Crashed(s, pid))
  {
    var s' := Crashed(s, pid);
    assert NoNewLife(s, s');
    forall t | t in s'.threads
      ensures ThreadOk(s', t)
    {
      ActorOk(s, t);
      if t in s.threads && InSection(s.threads[t].phase) {
        NoneLiveStays(s, s', s.threads[t].pid, s.threads[t].phase.path);
      }
      hide NoneLive, NoNewLife, Holds, Live;
    }
  }

  lemma CrashKeepsInv(s: Sys, pid: Pid)
    requires Inv(s)
    ensures Inv(Crashed(s, pid))
  {
    CrashKeepsThreads(s, pid);
    ReleasesStay(s, Crashed(s, pid));
    hide ThreadsOk, ReleasesDiffer;
  }

  // ---------------------------------------------------------------- every interleaving

  lemma StepKeepsInv(s: Sys, step: Step)
    requires Inv(s)
    ensures Inv(Do(s, step))
  {
    hide Inv;
    match step {
      case Launch(pid) => LaunchKeepsInv(s, pid);
      case StartThread(tid, pid) => StartThreadKeepsInv(s, tid, pid);
      case BeginAcquire(tid, path, service) => BeginAcquireKeepsInv(s, tid, path, service);
      case CheckRegistry(tid) => CheckRegistryKeepsInv(s, tid);
      case OpenFile(tid) => OpenFileKeepsInv(s, tid);
      case TryFlock(tid) => TryFlockKeepsInv(s, tid);
      case Register(tid) => RegisterKeepsInv(s, tid);
      case BeginRelease(tid, h) => BeginReleaseKeepsInv(s, tid, h);
      case Unlock(tid) => UnlockKeepsInv(s, tid);
      case CloseHandle(tid) => CloseHandleKeepsInv(s, tid);
      case Evict(tid) => EvictKeepsInv(s, tid);
      case Crash(pid) => CrashKeepsInv(s, pid);
    }
  }

  lemma {:induction false} RunKeepsInv(steps: seq<Step>)
    ensures Inv(Run(INIT, steps))
  {
    if steps == [] {
    } else {
      RunKeepsInv(steps[..|steps| - 1]);
      StepKeepsInv(Run(INIT, steps[..|steps| - 1]), steps[|steps| - 1]);
    }
  }
}
