/** What the account lock guarantees in every interleaving: one live writer per path, locks that end only
    by their owner, honest answers, and no path lost. */
module SingleWriter {
  import opened Prelude
  import opened AccountLock
  import opened AccountLockInvariant

  /** Every unreleased lock object of a living process owns its path's operating-system lock. */
  lemma LiveLocksHold(steps: seq<Step>, h: Handle)
    ensures var s := Run(INIT, steps);
            Live(s, h) ==> Holds(s, h)
  {
    RunKeepsInv(steps);
    var s := Run(INIT, steps);
    if Live(s, h) {
      assert LockOk(s, h);
    }
  }

  /** At most one writer per account path in the whole system. */
  lemma OneWriterPerPath(steps: seq<Step>, h: Handle, k: Handle)
    ensures var s := Run(INIT, steps);
            Live(s, h) && Live(s, k) && s.locks[h].path == s.locks[k].path ==> h == k
  {
    LiveLocksHold(steps, h);
    LiveLocksHold(steps, k);
  }

  predicate Ends(s: Sys, step: Step, h: Handle)
    requires h in s.locks
  {
    (step.BeginRelease? && step.lock == h && Do(s, step) != s) || step == Step.Crash(s.locks[h].pid)
  }

  lemma OnlyItsOwnerEnds(s: Sys, step: Step, h: Handle)
    requires Inv(s) && Live(s, h)
    ensures var s' := Do(s, step);
            if Ends(s, step, h) then !Live(s', h) else Live(s', h) && s'.locks[h] == s.locks[h]
  {
    if step.Register? {
      ActorOk(s, step.tid);
    }
    hide Inv;
  }

  /** A live lock ends only by its own release or by the crash of its process: no other acquire, and no
      phase of another lock's release however late it runs, takes away its file, path or registration. */
  lemma OnlyItsOwnerEndsALock(steps: seq<Step>, step: Step, h: Handle)
    requires Live(Run(INIT, steps), h)
    ensures var s := Run(INIT, steps);
            var s' := Do(s, step);
            if Ends(s, step, h) then !Live(s', h) else Live(s', h) && Holds(s', h) && s'.locks[h] == s.locks[h]
  {
    RunKeepsInv(steps);
    OnlyItsOwnerEnds(Run(INIT, steps), step, h);
    assert (steps + [step])[..|steps|] == steps;
    LiveLocksHold(steps + [step], h);
    hide Do;
  }

  /** The thread that takes a step, if a thread does. */
  function Actor(step: Step): Option<Tid> {
    match step
    case Launch(_) => None
    case StartThread(_, _) => None
    case Crash(_) => None
    case _ => Some(step.tid)
  }

  lemma OthersStandStill(s: Sys, step: Step, t: Tid)
    requires t in s.threads && Actor(step) != Some(t)
    ensures t in Do(s, step).threads ==> Do(s, step).threads[t] == s.threads[t]
    ensures !step.Crash? ==> t in Do(s, step).threads
  {
    hide Drop, Unflock;
    match step {
      case Crash(_) =>
      case CheckRegistry(_) =>
      case TryFlock(_) =>
      case _ =>
    }
  }

  /** An acquire ends in success only at the registry or on registering. */
  lemma AcquireEndsWhere(s: Sys, step: Step, tid: Tid, h: Handle)
    requires tid in s.threads && s.threads[tid].phase.HoldsMutex()
    requires var s' := Do(s, step); tid in s'.threads && s'.threads[tid].phase == Idle(Acquired(h))
    ensures step == Step.CheckRegistry(tid) || step == Step.Register(tid)
  {
    if Actor(step) != Some(tid) {
      OthersStandStill(s, step, tid);
      hide Do;
    }
  }

  lemma AcquiredIsLive(s: Sys, step: Step, tid: Tid, h: Handle)
    requires Inv(s) && tid in s.threads && s.threads[tid].phase.HoldsMutex()
    requires var s' := Do(s, step); tid in s'.threads && s'.threads[tid].phase == Idle(Acquired(h))
    ensures var Thread(pid, phase) := s.threads[tid];
            Live(Do(s, step), h) && Do(s, step).locks[h] == Lock(pid, phase.path, phase.service, false)
  {
    ActorOk(s, tid);
    AcquireEndsWhere(s, step, tid, h);
    if step == Step.CheckRegistry(tid) {
      var key := (s.threads[tid].pid, s.threads[tid].phase.path);
      assert key in s.registry ==> RegistryOk(s, key);
      assert Do(s, step) == RegistryChecked(s, tid);
    } else {
      assert Do(s, step) == Registered(s, tid);
    }
    hide Inv, Do;
  }

  /** The step that ends an acquire: its caller's process holds the path it asked for, for the service
      it named, and no other lock object anywhere is live on that path. */
  lemma AcquiredMeansSoleWriter(steps: seq<Step>, step: Step, tid: Tid, h: Handle, k: Handle)
    requires var s := Run(INIT, steps);
             var s' := Do(s, step);
             && tid in s.threads && s.threads[tid].phase.HoldsMutex()
             && tid in s'.threads && s'.threads[tid].phase == Idle(Acquired(h))
    ensures var s := Run(INIT, steps);
            var s' := Do(s, step);
            var Thread(pid, phase) := s.threads[tid];
            && Live(s', h) && Holds(s', h) && s'.locks[h] == Lock(pid, phase.path, phase.service, false)
            && (Live(s', k) && s'.locks[k].path == phase.path ==> k == h)
  {
    RunKeepsInv(steps);
    AcquiredIsLive(Run(INIT, steps), step, tid, h);
    assert (steps + [step])[..|steps|] == steps;
    LiveLocksHold(steps + [step], h);
    OneWriterPerPath(steps + [step], h, k);
    hide Do, Inv;
  }

  // ---------------------------------------------------------------- no lock is lost

  /** A thread that owns an operating-system lock for which there is no live lock object: one about to
      register it, or one about to unlock it. */
  predicate OwnsBriefly(phase: Phase, h: Handle) {
    (phase.Registering? && phase.handle == h) || (phase.Unlocking? && phase.lock == h)
  }

  ghost predicate Explained(s: Sys, p: Path)
    requires p in s.flock
  {
    Live(s, s.flock[p]) || exists t :: t in s.threads && OwnsBriefly(s.threads[t].phase, s.flock[p])
  }

  /** The process of whoever owns a path briefly is the one whose file is locked. */
  lemma BriefOwnersFile(s: Sys, p: Path, t: Tid)
    requires Inv(s) && p in s.flock && t in s.threads && OwnsBriefly(s.threads[t].phase, s.flock[p])
    ensures s.flock[p] in s.files && s.files[s.flock[p]].0 == s.threads[t].pid
  {
    ActorOk(s, t);
    assert FlockOk(s, p);
  }

  lemma NewOwnerIsExplained(s: Sys, step: Step, p: Path)
    requires Inv(s) && p in Do(s, step).flock && (p !in s.flock || Do(s, step).flock[p] != s.flock[p])
    ensures Explained(Do(s, step), p)
  {
    hide Inv;
    var s' := Do(s, step);
    assert step.TryFlock?;
    assert OwnsBriefly(s'.threads[step.tid].phase, s'.flock[p]);
  }

  lemma LiveOwnerStaysExplained(s: Sys, step: Step, p: Path)
    requires Inv(s) && p in s.flock && Live(s, s.flock[p])
    requires p in Do(s, step).flock && Do(s, step).flock[p] == s.flock[p]
    ensures Explained(Do(s, step), p)
  {
    var h := s.flock[p];
    OnlyItsOwnerEnds(s, step, h);
    assert LockOk(s, h);
    hide Inv;
    if step.BeginRelease? && step.lock == h && Do(s, step) != s {
      assert OwnsBriefly(Do(s, step).threads[step.tid].phase, h);
    }
  }

  /** Only a crash, its own registration or its own unlock moves a thread that owns a path briefly. */
  lemma BriefOwnerWaits(s: Sys, step: Step, t: Tid, h: Handle)
    requires t in s.threads && OwnsBriefly(s.threads[t].phase, h)
    requires !step.Crash? && step != Step.Register(t) && step != Step.Unlock(t)
    ensures t in Do(s, step).threads && Do(s, step).threads[t] == s.threads[t]
  {
    if Actor(step) != Some(t) {
      OthersStandStill(s, step, t);
    }
  }

  lemma BriefOwnerStaysExplained(s: Sys, step: Step, p: Path, t: Tid)
    requires Inv(s) && p in s.flock && t in s.threads && OwnsBriefly(s.threads[t].phase, s.flock[p])
    requires p in Do(s, step).flock && Do(s, step).flock[p] == s.flock[p]
    ensures Explained(Do(s, step), p)
  {
    var h := s.flock[p];
    BriefOwnersFile(s, p, t);
    ActorOk(s, t);
    assert FlockOk(s, p);
    hide Inv;
    if step == Step.Register(t) {
      assert s.threads[t].phase.Registering? ==> Live(Registered(s, t), h);
      assert s.threads[t].phase.Unlocking? ==> Registered(s, t) == s;
    } else if step == Step.Unlock(t) {
      assert s.threads[t].phase.Registering? ==> Unlocked(s, t) == s;
    } else if step.Crash? {
      assert OwnsBriefly(Crashed(s, step.pid).threads[t].phase, h);
    } else {
      BriefOwnerWaits(s, step, t, h);
      assert OwnsBriefly(Do(s, step).threads[t].phase, h);
    }
  }

  lemma StepKeepsExplained(s: Sys, step: Step, p: Path)
    requires Inv(s) && (p in s.flock ==> Explained(s, p)) && p in Do(s, step).flock
    ensures Explained(Do(s, step), p)
  {
    hide Inv, Do;
    if p !in s.flock || Do(s, step).flock[p] != s.flock[p] {
      NewOwnerIsExplained(s, step, p);
    } else if Live(s, s.flock[p]) {
      LiveOwnerStaysExplained(s, step, p);
    } else {
      var t :| t in s.threads && OwnsBriefly(s.threads[t].phase, s.flock[p]);
      BriefOwnerStaysExplained(s, step, p, t);
    }
  }

  lemma {:induction false} RunKeepsExplained(steps: seq<Step>, p: Path)
    requires p in Run(INIT, steps).flock
    ensures Explained(Run(INIT, steps), p)
  {
    if steps == [] {
    } else {
      var before := steps[..|steps| - 1];
      if p in Run(INIT, before).flock {
        RunKeepsExplained(before, p);
      }
      RunKeepsInv(before);
      StepKeepsExplained(Run(INIT, before), steps[|steps| - 1], p);
    }
  }

  /** A process that already holds the path gets the same lock back, for the same service only, and
      nothing else changes. */
  lemma AcquireIsIdempotent(s: Sys, tid: Tid, path: Path, service: string, h: Handle)
    requires Inv(s) && MayAcquire(s, tid)
    requires Live(s, h) && s.locks[h].pid == s.threads[tid].pid && s.locks[h].path == path
    ensures var s' := Acquire(s, tid, path, service);
            var answer := if s.locks[h].service == service then Acquired(h) else Refused;
            s' == s.(threads := s.threads[tid := Thread(s.threads[tid].pid, Idle(answer))])
  {
    assert LockOk(s, h);
    hide Inv;
  }

  /** The first two steps of an acquire by a process with no live lock on the path. */
  lemma ReachesOpening(s: Sys, tid: Tid, path: Path, service: string)
    requires Inv(s) && MayAcquire(s, tid) && NoneLive(s, s.threads[tid].pid, path)
    ensures var s' := RegistryChecked(AcquireBegun(s, tid, path, service), tid);
            var pid := s.threads[tid].pid;
            s' == s.(threads := s.threads[tid := Thread(pid, Opening(path, service))],
              mutex := s.mutex[pid := tid], registry := Drop(s.registry, (pid, path)))
  {
    var key := (s.threads[tid].pid, path);
    ActorOk(s, tid);
    if key in s.registry {
      assert RegistryOk(s, key);
      assert !Live(s, s.registry[key]);
    } else {
      assert Drop(s.registry, key) == s.registry;
    }
    hide Inv, NoneLive;
  }

  lemma LockIsRefused(s: Sys, tid: Tid)
    requires tid in s.threads && s.threads[tid].phase.Opening? && s.next !in s.files
    requires s.threads[tid].phase.path in s.flock && s.flock[s.threads[tid].phase.path] != s.next
    ensures var s' := FlockTried(FileOpened(s, tid), tid);
            s' == s.(threads := s.threads[tid := Thread(s.threads[tid].pid, Idle(Refused))],
              mutex := Drop(s.mutex, s.threads[tid].pid), next := s.next + 1)
  {
  }

  /** A process that does not hold the path is refused when anyone owns it, and leaves no file behind. */
  lemma AcquireIsRefused(s: Sys, tid: Tid, path: Path, service: string)
    requires Inv(s) && MayAcquire(s, tid)
    requires NoneLive(s, s.threads[tid].pid, path) && path in s.flock
    ensures var s' := Acquire(s, tid, path, service);
            && s'.threads == s.threads[tid := Thread(s.threads[tid].pid, Idle(Refused))]
            && (s'.locks, s'.files, s'.flock, s'.mutex) == (s.locks, s.files, s.flock, s.mutex)
  {
    assert FlockOk(s, path);
    assert s.next in s.files ==> FileOk(s, s.next);
    ActorOk(s, tid);
    ReachesOpening(s, tid, path, service);
    LockIsRefused(RegistryChecked(AcquireBegun(s, tid, path, service), tid), tid);
    assert Drop(s.mutex[s.threads[tid].pid := tid], s.threads[tid].pid) == s.mutex;
    hide Inv, NoneLive, RegistryChecked, AcquireBegun, FileOpened, FlockTried;
  }

  /** The first four, when the path is free as well. */
  lemma ReachesRegistering(s: Sys, tid: Tid, path: Path, service: string)
    requires Inv(s) && MayAcquire(s, tid) && NoneLive(s, s.threads[tid].pid, path) && path !in s.flock
    ensures var s' := FlockTried(FileOpened(RegistryChecked(AcquireBegun(s, tid, path, service), tid), tid), tid);
            var pid := s.threads[tid].pid;
            s' == s.(threads := s.threads[tid := Thread(pid, Registering(path, service, s.next))],
              mutex := s.mutex[pid := tid], registry := Drop(s.registry, (pid, path)),
              files := s.files[s.next := (pid, path)], flock := s.flock[path := s.next], next := s.next + 1)
  {
    ReachesOpening(s, tid, path, service);
    hide Inv, NoneLive, RegistryChecked, AcquireBegun;
  }

  lemma RegisterPublishes(s: Sys, tid: Tid)
    requires tid in s.threads && s.threads[tid].phase.Registering? && s.threads[tid].pid in s.alive
    requires var Thread(pid, Registering(path, service, h)) := s.threads[tid];
             && h in s.files && s.files[h] == (pid, path) && path in s.flock && s.flock[path] == h
    ensures var s' := Registered(s, tid);
            var Thread(pid, Registering(path, service, h)) := s.threads[tid];
            && s'.threads == s.threads[tid := Thread(pid, Idle(Acquired(h)))]
            && Live(s', h) && Holds(s', h)
            && s'.locks == s.locks[h := Lock(pid, path, service, false)] && s'.flock == s.flock
  {
  }

  /** Otherwise it gets a new lock object that owns the path. */
  lemma AcquireSucceeds(s: Sys, tid: Tid, path: Path, service: string)
    requires Inv(s) && MayAcquire(s, tid)
    requires NoneLive(s, s.threads[tid].pid, path) && path !in s.flock
    ensures var s' := Acquire(s, tid, path, service);
            var pid := s.threads[tid].pid;
            && s'.threads == s.threads[tid := Thread(pid, Idle(Acquired(s.next)))]
            && Live(s', s.next) && Holds(s', s.next)
            && s'.locks == s.locks[s.next := Lock(pid, path, service, false)]
            && s'.flock == s.flock[path := s.next]
  {
    ActorOk(s, tid);
    ReachesRegistering(s, tid, path, service);
    RegisterPublishes(FlockTried(FileOpened(RegistryChecked(AcquireBegun(s, tid, path, service), tid), tid), tid), tid);
    hide Inv, NoneLive, RegistryChecked, AcquireBegun, FileOpened, FlockTried, Registered, Live, Holds;
  }

  /** A thread is about to register the owner of a path, or about to unlock it. */
  ghost predicate BrieflyOwned(s: Sys, p: Path) {
    p in s.flock && exists t :: t in s.threads && OwnsBriefly(s.threads[t].phase, s.flock[p])
  }

  /** A lock that a path's owner stands for is on that path; the next handle stands for none yet. */
  lemma OwnersPath(s: Sys, path: Path)
    requires Inv(s)
    ensures s.next !in s.locks
    ensures path in s.flock && Live(s, s.flock[path]) ==> s.locks[s.flock[path]].path == path
  {
    assert s.next in s.locks ==> LockOk(s, s.next);
    if path in s.flock && Live(s, s.flock[path]) {
      assert FlockOk(s, path) && LockOk(s, s.flock[path]);
    }
  }

  /** A path is never lost: once no lock object on it is live anywhere — released, crashed, or never taken —
      the next acquire succeeds exactly when no thread owns the path in passing; else it is refused. Threads
      busy with other paths do not matter. */
  lemma FreePathIsAcquired(steps: seq<Step>, tid: Tid, path: Path, service: string)
    requires var s := Run(INIT, steps);
             && MayAcquire(s, tid)
             && (forall h :: Live(s, h) ==> s.locks[h].path != path)
    ensures var s := Run(INIT, steps);
            var s' := Acquire(s, tid, path, service);
            && tid in s'.threads
            && s'.threads[tid].phase == Idle(if BrieflyOwned(s, path) then Refused else Acquired(s.next))
            && (Live(s', s.next) <==> !BrieflyOwned(s, path))
  {
    hide Acquire, Inv, Live;
    var s := Run(INIT, steps);
    RunKeepsInv(steps);
    OwnersPath(s, path);
    assert NoneLive(s, s.threads[tid].pid, path);
    if path in s.flock {
      RunKeepsExplained(steps, path);
      AcquireIsRefused(s, tid, path, service);
      NoLockIsLive(Acquire(s, tid, path, service), s.next);
    } else {
      AcquireSucceeds(s, tid, path, service);
    }
  }

  lemma NoLockIsLive(s: Sys, h: Handle)
    requires h !in s.locks
    ensures !Live(s, h)
  {
  }
}
