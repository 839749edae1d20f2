/** The single-writer account lock as interleaved steps of any number of processes and threads: an
    in-process registry behind a mutex, an operating-system lock owned by an open file description, a
    release in four separate steps, and crashes that drop whatever a process held. */
module AccountLock {
  import opened Prelude

  type Pid = nat
  type Tid = nat
  type Handle = nat
  type Path = string

  /** A lock object, identified by its own open file handle. */
  datatype Lock = Lock(pid: Pid, path: Path, service: string, released: bool)

  datatype Outcome = NoCall | Acquired(handle: Handle) | Refused

  /** Where a thread stands. The four acquire phases run with the process mutex held. A release needs the
      mutex only for its first and its last step, each of them atomic, and not in between. */
  datatype Phase =
    | Idle(last: Outcome)
    | Checking(path: Path, service: string)
    | Opening(path: Path, service: string)
    | Locking(path: Path, service: string, handle: Handle)
    | Registering(path: Path, service: string, handle: Handle)
    | Unlocking(lock: Handle)
    | Closing(lock: Handle)
    | Evicting(lock: Handle)
  {
    predicate HoldsMutex() { Checking? || Opening? || Locking? || Registering? }

    predicate Releasing() { Unlocking? || Closing? || Evicting? }
  }

  datatype Thread = Thread(pid: Pid, phase: Phase)

  datatype Sys = Sys(
    alive: set<Pid>,
    gone: set<Pid>,
    threads: map<Tid, Thread>,
    mutex: map<Pid, Tid>,
    registry: map<(Pid, Path), Handle>,
    locks: map<Handle, Lock>,
    files: map<Handle, (Pid, Path)>,
    flock: map<Path, Handle>,
    next: Handle)

  datatype Step =
    | Launch(pid: Pid)
    | StartThread(tid: Tid, pid: Pid)
    | BeginAcquire(tid: Tid, path: Path, service: string)
    | CheckRegistry(tid: Tid)
    | OpenFile(tid: Tid)
    | TryFlock(tid: Tid)
    | Register(tid: Tid)
    | BeginRelease(tid: Tid, lock: Handle)
    | Unlock(tid: Tid)
    | CloseHandle(tid: Tid)
    | Evict(tid: Tid)
    | Crash(pid: Pid)

  const INIT := Sys({}, {}, map[], map[], map[], map[], map[], map[], 0)

  function Drop<K, V>(m: map<K, V>, k: K): map<K, V> { m - {k} }

  /** The file-description owner lets go of its path. */
  function Unflock(flock: map<Path, Handle>, path: Path, h: Handle): map<Path, Handle> {
    if path in flock && flock[path] == h then Drop(flock, path) else flock
  }

  function At(s: Sys, tid: Tid, phase: Phase): Sys
    requires tid in s.threads
  {
    s.(threads := s.threads[tid := s.threads[tid].(phase := phase)])
  }

  /** Leaves the critical section with an outcome. */
  function Leave(s: Sys, tid: Tid, o: Outcome): Sys
    requires tid in s.threads
  {
    At(s, tid, Idle(o)).(mutex := Drop(s.mutex, s.threads[tid].pid))
  }

  // Each step below is atomic; a step that is not enabled changes nothing.

  function Launched(s: Sys, pid: Pid): Sys {
    if pid in s.alive || pid in s.gone then s else s.(alive := s.alive + {pid})
  }

  function ThreadStarted(s: Sys, tid: Tid, pid: Pid): Sys {
    if tid in s.threads || pid !in s.alive then s
    else s.(threads := s.threads[tid := Thread(pid, Idle(NoCall))])
  }

  /** Enters the critical section, which is one mutex per process. */
  function AcquireBegun(s: Sys, tid: Tid, path: Path, service: string): Sys {
    if tid in s.threads && s.threads[tid].phase.Idle? && s.threads[tid].pid !in s.mutex then
      At(s, tid, Checking(path, service)).(mutex := s.mutex[s.threads[tid].pid := tid])
    else s
  }

  /** A live lock of this process and path is returned to the same service and refused to another; a
      released one is forgotten. */
  function RegistryChecked(s: Sys, tid: Tid): Sys {
    if tid in s.threads && s.threads[tid].phase.Checking? then
      var Checking(path, service) := s.threads[tid].phase;
      var key := (s.threads[tid].pid, path);
      if key !in s.registry then At(s, tid, Opening(path, service))
      else
        var h := s.registry[key];
        if h !in s.locks || s.locks[h].released then
          At(s, tid, Opening(path, service)).(registry := Drop(s.registry, key))
        else Leave(s, tid, if s.locks[h].service == service then Acquired(h) else Refused)
    else s
  }

  function FileOpened(s: Sys, tid: Tid): Sys {
    if tid in s.threads && s.threads[tid].phase.Opening? then
      var Opening(path, service) := s.threads[tid].phase;
      At(s, tid, Locking(path, service, s.next))
      .(files := s.files[s.next := (s.threads[tid].pid, path)], next := s.next + 1)
    else s
  }

  /** The non-blocking exclusive lock: refused, and the file closed, when another handle owns the path. */
  function FlockTried(s: Sys, tid: Tid): Sys {
    if tid in s.threads && s.threads[tid].phase.Locking? then
      var Locking(path, service, h) := s.threads[tid].phase;
      if path in s.flock && s.flock[path] != h then Leave(s, tid, Refused).(files := Drop(s.files, h))
      else At(s, tid, Registering(path, service, h)).(flock := s.flock[path := h])
    else s
  }

  function Registered(s: Sys, tid: Tid): Sys {
    if tid in s.threads && s.threads[tid].phase.Registering? then
      var Registering(path, service, h) := s.threads[tid].phase;
      var pid := s.threads[tid].pid;
      Leave(s, tid, Acquired(h))
      .(locks := s.locks[h := Lock(pid, path, service, false)], registry := s.registry[(pid, path) := h])
    else s
  }

  /** Tests and sets the released flag in one critical section; unlocking and closing run outside it. */
  function ReleaseBegun(s: Sys, tid: Tid, h: Handle): Sys {
    if tid in s.threads && s.threads[tid].phase.Idle? && s.threads[tid].pid !in s.mutex
       && h in s.locks && s.locks[h].pid == s.threads[tid].pid && !s.locks[h].released
    then At(s, tid, Unlocking(h)).(locks := s.locks[h := s.locks[h].(released := true)])
    else s
  }

  function Unlocked(s: Sys, tid: Tid): Sys {
    if tid in s.threads && s.threads[tid].phase.Unlocking? && s.threads[tid].phase.lock in s.locks then
      var h := s.threads[tid].phase.lock;
      At(s, tid, Closing(h)).(flock := Unflock(s.flock, s.locks[h].path, h))
    else s
  }

  function HandleClosed(s: Sys, tid: Tid): Sys {
    if tid in s.threads && s.threads[tid].phase.Closing? && s.threads[tid].phase.lock in s.locks then
      var h := s.threads[tid].phase.lock;
      At(s, tid, Evicting(h)).(files := Drop(s.files, h), flock := Unflock(s.flock, s.locks[h].path, h))
    else s
  }

  /** Takes the registry entry out only if it is still this lock's own. */
  function Evicted(s: Sys, tid: Tid): Sys {
    if tid in s.threads && s.threads[tid].phase.Evicting? && s.threads[tid].phase.lock in s.locks
       && s.threads[tid].pid !in s.mutex
    then
      var h := s.threads[tid].phase.lock;
      var key := (s.locks[h].pid, s.locks[h].path);
      At(s, tid, Idle(NoCall))
      .(registry := if key in s.registry && s.registry[key] == h then Drop(s.registry, key) else s.registry)
    else s
  }

  /** A crash takes the process's threads, its registry and mutex, and closes its files, which frees
      whatever they had locked. */
  function Crashed(s: Sys, pid: Pid): Sys {
    if pid !in s.alive then s
    else Sys(s.alive - {pid}, s.gone + {pid},
        map t | t in s.threads && s.threads[t].pid != pid :: s.threads[t],
        Drop(s.mutex, pid),
        map k | k in s.registry && k.0 != pid :: s.registry[k],
        s.locks,
        map h | h in s.files && s.files[h].0 != pid :: s.files[h],
        map p | p in s.flock && (s.flock[p] in s.files ==> s.files[s.flock[p]].0 != pid) :: s.flock[p],
        s.next)
  }

  function Do(s: Sys, step: Step): Sys {
    match step
    case Launch(pid) => Launched(s, pid)
    case StartThread(tid, pid) => ThreadStarted(s, tid, pid)
    case BeginAcquire(tid, path, service) => AcquireBegun(s, tid, path, service)
    case CheckRegistry(tid) => RegistryChecked(s, tid)
    case OpenFile(tid) => FileOpened(s, tid)
    case TryFlock(tid) => FlockTried(s, tid)
    case Register(tid) => Registered(s, tid)
    case BeginRelease(tid, h) => ReleaseBegun(s, tid, h)
    case Unlock(tid) => Unlocked(s, tid)
    case CloseHandle(tid) => HandleClosed(s, tid)
    case Evict(tid) => Evicted(s, tid)
    case Crash(pid) => Crashed(s, pid)
  }

  function Run(s: Sys, steps: seq<Step>): Sys {
    if steps == [] then s else Do(Run(s, steps[..|steps| - 1]), steps[|steps| - 1])
  }

  /** A lock object that its process still believes it holds. */
  predicate Live(s: Sys, h: Handle) {
    h in s.locks && s.locks[h].pid in s.alive && !s.locks[h].released
  }

  /** The operating system and the process registry both know the lock as the holder of its path. */
  predicate Holds(s: Sys, h: Handle)
    requires h in s.locks
  {
    var l := s.locks[h];
    && l.path in s.flock && s.flock[l.path] == h
    && h in s.files && s.files[h] == (l.pid, l.path)
    && (l.pid, l.path) in s.registry && s.registry[(l.pid, l.path)] == h
  }

  /** One acquire from start to finish with nobody else moving. */
  function Acquire(s: Sys, tid: Tid, path: Path, service: string): Sys {
    Registered(FlockTried(FileOpened(RegistryChecked(AcquireBegun(s, tid, path, service), tid), tid), tid), tid)
  }

  predicate MayAcquire(s: Sys, tid: Tid) {
    tid in s.threads && s.threads[tid].phase.Idle? && s.threads[tid].pid !in s.mutex
  }
}
