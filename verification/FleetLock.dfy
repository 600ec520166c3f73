/** The fleet operation lock: a reentrant thread lock, then an flock on $FLEET_HOME/.lock, stepped one
    statement at a time over any number of threads and processes. */
module FleetLock {

  import opened Prelude

  /** A thread and the process it runs in. */
  datatype Tid = Tid(proc: nat, id: nat)

  /** An open file description of the lock file. */
  datatype Handle = Handle(proc: nat, id: nat)

  /** Where a thread is inside acquire_fleet_op_lock or release_fleet_op_lock; `Outside` elsewhere. */
  datatype Place =
    | Outside
    | Counting               // the thread lock is taken, the depth is about to be read
    | Opening                // depth 0: about to open the lock file
    | Locking(h: Handle)     // about to flock
    | Locked(h: Handle)      // the flock is ours, not yet published
    | Published              // _FLEET_LOCK_FH is set, the depth is not
    | Failing                // in the except clause
    | Unnesting              // depth was lowered, the thread lock not yet released
    | Clearing               // depth is 0, _FLEET_LOCK_FH still set
    | Unlocking(h: Handle)
    | Closing(h: Handle)
    | Freeing                // about to release the thread lock

  datatype Thread = Thread(place: Place, depth: nat)

  /** threading.RLock and the module global _FLEET_LOCK_FH. `leaked` records an acquire of this process that was
      interrupted after it published the handle and before it set the depth. */
  datatype Process = Process(owner: Option<Tid>, count: nat, fh: Option<Handle>, leaked: bool)

  const FREE: Process := Process(None, 0, None, false)

  datatype World = World(threads: map<Tid, Thread>, procs: map<nat, Process>, flock: Option<Handle>, nextHandle: nat)

  datatype Act =
    | Acquire(t: Tid)           // enter acquire_fleet_op_lock and get the thread lock
    | Refused(t: Tid)           // ... or time out on it
    | Release(t: Tid)           // enter release_fleet_op_lock
    | Go(t: Tid, ok: bool)      // the next statement; `ok` is false when it raises or times out
    | Interrupt(t: Tid)         // an interrupt between publishing the handle and setting the depth
    | Crash(proc: nat)          // the process ends; the system drops its handles

  /** The thread lock is released; `None` is RuntimeError (not the owner). */
  function Unlocked(p: Process, t: Tid): Option<Process> {
    if p.owner != Some(t) || p.count == 0 then None
    else Some(p.(count := p.count - 1, owner := if p.count == 1 then None else p.owner))
  }

  function OrSame(p: Option<Process>, same: Process): Process {
    if p.Some? then p.value else same
  }

  predicate Known(w: World, t: Tid) {
    t in w.threads && t.proc in w.procs
  }

  predicate Enabled(w: World, a: Act) {
    match a
    case Acquire(t) =>
      Known(w, t) && w.threads[t].place.Outside? && (w.procs[t.proc].owner == None || w.procs[t.proc].owner == Some(t))
    case Refused(t) => Known(w, t) && w.threads[t].place.Outside?
    case Release(t) => Known(w, t) && w.threads[t].place.Outside?
    case Go(t, ok) =>
      && Known(w, t) && !w.threads[t].place.Outside?
      && (w.threads[t].place.Locking? && ok ==> w.flock == None)
    case Interrupt(t) => Known(w, t) && w.threads[t].place.Published?
    case Crash(proc) => proc in w.procs
  }

  function At(w: World, t: Tid, th: Thread, pr: Process, flock: Option<Handle>): World
    requires Known(w, t)
  {
    w.(threads := w.threads[t := th], procs := w.procs[t.proc := pr], flock := flock)
  }

  function Dropped(flock: Option<Handle>, h: Handle): Option<Handle> {
    if flock == Some(h) then None else flock
  }

  function Statement(w: World, t: Tid, ok: bool): World
    requires Known(w, t)
  {
    var th, pr := w.threads[t], w.procs[t.proc];
    match th.place
    case Outside => w
    case Counting =>
      if th.depth > 0 then At(w, t, Thread(Outside, th.depth + 1), pr, w.flock)
      else At(w, t, th.(place := Opening), pr, w.flock)
    case Opening =>
      if !ok then At(w, t, th.(place := Failing), pr, w.flock)
      else At(w, t, th.(place := Locking(Handle(t.proc, w.nextHandle))), pr, w.flock).(nextHandle := w.nextHandle + 1)
    case Locking(h) =>
      if !ok then At(w, t, th.(place := Failing), pr, w.flock) else At(w, t, th.(place := Locked(h)), pr, Some(h))
    case Locked(h) => At(w, t, th.(place := Published), pr.(fh := Some(h)), w.flock)
    case Published => At(w, t, Thread(Outside, 1), pr, w.flock)
    case Failing =>
      At(w, t, th.(place := Outside), if th.depth == 0 then OrSame(Unlocked(pr, t), pr) else pr, w.flock)
    case Unnesting => At(w, t, th.(place := Outside), OrSame(Unlocked(pr, t), pr), w.flock)
    case Clearing =>
      At(w, t, th.(place := if pr.fh.Some? then Unlocking(pr.fh.value) else Freeing), pr.(fh := None), w.flock)
    case Unlocking(h) => At(w, t, th.(place := Closing(h)), pr, if ok then Dropped(w.flock, h) else w.flock)
    case Closing(h) => At(w, t, th.(place := Freeing), pr, Dropped(w.flock, h))
    case Freeing => At(w, t, th.(place := Outside), OrSame(Unlocked(pr, t), pr), w.flock)
  }

  function Next(w: World, a: Act): World
    requires Enabled(w, a)
  {
    match a
    case Acquire(t) =>
      var pr := w.procs[t.proc];
      At(w, t, w.threads[t].(place := Counting), pr.(owner := Some(t), count := pr.count + 1), w.flock)
    case Refused(_) => w
    case Release(t) =>
      var th := w.threads[t];
      if th.depth == 0 then w
      else At(w, t, Thread(if th.depth > 1 then Unnesting else Clearing, th.depth - 1), w.procs[t.proc], w.flock)
    case Go(t, ok) => Statement(w, t, ok)
    case Interrupt(t) => At(w, t, w.threads[t].(place := Failing), w.procs[t.proc].(leaked := true), w.flock)
    case Crash(proc) =>
      w.(threads := map t | t in w.threads :: if t.proc == proc then Thread(Outside, 0) else w.threads[t],
         procs := w.procs[proc := FREE],
         flock := if w.flock.Some? && w.flock.value.proc == proc then None else w.flock)
  }

  /* ---------- the invariant ---------- */

  /** How many times a thread holds the thread lock: its depth, plus one in the middle of a call. */
  function Claims(th: Thread): nat {
    th.depth + if th.place.Outside? then 0 else 1
  }

  /** The flock handle is published in the process's global. */
  predicate Shows(th: Thread) {
    (th.depth > 0 && !th.place.Clearing?) || th.place.Published? || th.place.Clearing?
  }

  /** The flock is this thread's own, outside the global. */
  predicate Carries(th: Thread, h: Handle) {
    th.place == Locked(h) || th.place == Unlocking(h) || th.place == Closing(h)
  }

  predicate ThreadOk(w: World, t: Tid)
    requires Known(w, t)
  {
    var th, pr := w.threads[t], w.procs[t.proc];
    && (Claims(th) > 0 <==> pr.owner == Some(t))
    && (pr.owner == Some(t) ==> pr.count == Claims(th) && (pr.fh.Some? <==> Shows(th) || pr.leaked))
    && (pr.owner == Some(t) && pr.leaked ==>
          th.depth == 0 && !Shows(th) && !th.place.Locked? && !th.place.Unlocking? && !th.place.Closing?)
    && (th.depth > 0 ==> th.place.Outside? || th.place.Counting? || th.place.Unnesting?)
    && (th.place.Unnesting? ==> th.depth > 0)
    && (th.place.Locking? ==> th.place.h.proc == t.proc && th.place.h.id < w.nextHandle && w.flock != Some(th.place.h))
    && (th.place.Locked? || th.place.Unlocking? ==> w.flock == Some(th.place.h) && th.place.h.proc == t.proc)
    && (th.place.Closing? ==> th.place.h.proc == t.proc)
  }

  predicate ProcessOk(w: World, p: nat)
    requires p in w.procs
  {
    var pr := w.procs[p];
    && (pr.owner == None <==> pr.count == 0)
    && (pr.owner == None ==> (pr.fh.Some? <==> pr.leaked)) && (pr.leaked ==> pr.fh.Some?)
    && (pr.owner.Some? ==> pr.owner.value.proc == p && pr.owner.value in w.threads)
    && (pr.fh.Some? ==> w.flock == pr.fh && pr.fh.value.proc == p)
  }

  /** A held flock belongs to a thread that is in the middle of a call, or is published by its process. */
  predicate FlockOk(w: World) {
    w.flock.Some? ==>
      var h := w.flock.value;
      && h.id < w.nextHandle && h.proc in w.procs
      && var pr := w.procs[h.proc];
         pr.fh == Some(h) || (pr.owner.Some? && pr.owner.value in w.threads && Carries(w.threads[pr.owner.value], h))
  }

  ghost predicate WorldOk(w: World) {
    && (forall t :: t in w.threads ==> Known(w, t) && ThreadOk(w, t))
    && (forall p :: p in w.procs ==> ProcessOk(w, p))
    && FlockOk(w)
  }

  /** Threads outside any lock call, in processes that never took it. */
  ghost predicate Fresh(w: World) {
    && (forall t :: t in w.threads ==> t.proc in w.procs && w.threads[t] == Thread(Outside, 0))
    && (forall p :: p in w.procs ==> w.procs[p] == FREE)
    && w.flock == None
  }

  lemma FreshIsOk(w: World)
    requires Fresh(w)
    ensures WorldOk(w)
  {}

  /** The acting thread stands alone: its process's lock is free or its own. */
  lemma OthersIdle(w: World, t: Tid, other: Tid)
    requires WorldOk(w) && t in w.threads && other in w.threads && other != t && other.proc == t.proc
    requires w.procs[t.proc].owner == None || w.procs[t.proc].owner == Some(t)
    ensures w.threads[other] == Thread(Outside, 0)
  {
    assert ThreadOk(w, other);
  }

  lemma ActorOwns(w: World, t: Tid)
    requires WorldOk(w) && t in w.threads && (w.threads[t].depth > 0 || !w.threads[t].place.Outside?)
    ensures w.procs[t.proc].owner == Some(t)
  {
    assert ThreadOk(w, t);
  }

  /** What a single statement of t may change. */
  ghost predicate StepOf(w: World, w': World, t: Tid) {
    && Known(w, t) && Known(w', t)
    && w'.threads == w.threads[t := w'.threads[t]] && w'.procs == w.procs[t.proc := w'.procs[t.proc]]
    && w.nextHandle <= w'.nextHandle
    && (w'.flock == w.flock
        || (w.flock == None && w'.flock.Some? && w'.flock.value.proc == t.proc)
        || (w'.flock == None && w.flock.Some? && w.flock.value.proc == t.proc))
  }

  /** Everything but the acting thread and its process is untouched and stays in order. */
  lemma StepKeeps(w: World, w': World, t: Tid)
    requires WorldOk(w) && StepOf(w, w', t)
    requires w.procs[t.proc].owner == None || w.procs[t.proc].owner == Some(t)
    requires w'.procs[t.proc].owner == None || w'.procs[t.proc].owner == Some(t)
    requires ThreadOk(w', t) && ProcessOk(w', t.proc)
    requires w'.flock.Some? && w'.flock.value.proc == t.proc ==> FlockOk(w')
    ensures WorldOk(w')
  {
    forall u | u in w'.threads ensures Known(w', u) && ThreadOk(w', u) {
      if u != t {
        assert Known(w, u) && ThreadOk(w, u);
        if u.proc == t.proc { OthersIdle(w, t, u); }
      }
    }
    forall p | p in w'.procs ensures ProcessOk(w', p) {
      if p != t.proc { assert ProcessOk(w, p); }
    }
    if w'.flock.Some? && w'.flock.value.proc != t.proc { FlockElsewhere(w, w', t); }
  }

  lemma FlockElsewhere(w: World, w': World, t: Tid)
    requires WorldOk(w) && StepOf(w, w', t) && w'.flock.Some? && w'.flock.value.proc != t.proc
    ensures FlockOk(w')
  {}

  /** The acting thread in the middle of a call, with its own part of the invariant. */
  ghost predicate Acting(w: World, t: Tid, ok: bool) {
    && Enabled(w, Go(t, ok)) && ThreadOk(w, t) && ProcessOk(w, t.proc) && FlockOk(w)
    && w.procs[t.proc].owner == Some(t)
  }

  lemma EnteringOk(w: World, t: Tid, ok: bool)
    requires Acting(w, t, ok)
    requires var p := w.threads[t].place; p.Counting? || p.Opening? || p.Locking? || p.Locked? || p.Published?
    ensures var w' := Statement(w, t, ok);
            StepOf(w, w', t) && ThreadOk(w', t) && ProcessOk(w', t.proc) && w'.procs[t.proc].owner == Some(t)
    ensures var w' := Statement(w, t, ok); w'.flock.Some? && w'.flock.value.proc == t.proc ==> FlockOk(w')
  {}

  lemma LeavingOk(w: World, t: Tid, ok: bool)
    requires Acting(w, t, ok)
    requires var p := w.threads[t].place;
             p.Failing? || p.Unnesting? || p.Clearing? || p.Unlocking? || p.Closing? || p.Freeing?
    ensures var w' := Statement(w, t, ok);
            && StepOf(w, w', t) && ThreadOk(w', t) && ProcessOk(w', t.proc)
            && (w'.procs[t.proc].owner == None || w'.procs[t.proc].owner == Some(t))
    ensures var w' := Statement(w, t, ok); w'.flock.Some? && w'.flock.value.proc == t.proc ==> FlockOk(w')
  {}

  lemma StatementOk(w: World, t: Tid, ok: bool)
    requires WorldOk(w) && Enabled(w, Go(t, ok))
    ensures WorldOk(Statement(w, t, ok))
  {
    ActorOwns(w, t);
    assert ThreadOk(w, t) && ProcessOk(w, t.proc);
    hide WorldOk, Statement, ThreadOk, ProcessOk, FlockOk, StepOf;
    assert FlockOk(w) by { FlockOf(w); }
    var p := w.threads[t].place;
    if p.Counting? || p.Opening? || p.Locking? || p.Locked? || p.Published? {
      EnteringOk(w, t, ok);
    } else {
      LeavingOk(w, t, ok);
    }
    StepKeeps(w, Statement(w, t, ok), t);
  }

  lemma FlockOf(w: World)
    requires WorldOk(w)
    ensures FlockOk(w)
  {}

  lemma CrashOk(w: World, proc: nat)
    requires WorldOk(w) && proc in w.procs
    ensures WorldOk(Next(w, Crash(proc)))
  {
    var w' := Next(w, Crash(proc));
    forall t | t in w'.threads ensures Known(w', t) && ThreadOk(w', t) {
      assert Known(w, t) && ThreadOk(w, t);
    }
    forall p | p in w'.procs ensures ProcessOk(w', p) {
      assert ProcessOk(w, p);
    }
    if w'.flock.Some? {
      var pr := w.procs[w.flock.value.proc];
      assert ProcessOk(w, w.flock.value.proc);
    }
  }

  lemma InterruptOk(w: World, t: Tid)
    requires WorldOk(w) && Enabled(w, Interrupt(t))
    ensures WorldOk(Next(w, Interrupt(t)))
  {
    ActorOwns(w, t);
    assert ThreadOk(w, t) && ProcessOk(w, t.proc);
    var w' := Next(w, Interrupt(t));
    assert StepOf(w, w', t) && ThreadOk(w', t) && ProcessOk(w', t.proc);
    StepKeeps(w, w', t);
  }

  lemma NextOk(w: World, a: Act)
    requires WorldOk(w) && Enabled(w, a)
    ensures WorldOk(Next(w, a))
  {
    match a
    case Acquire(t) =>
      assert ThreadOk(w, t) && ProcessOk(w, t.proc);
      StepKeeps(w, Next(w, a), t);
    case Refused(_) =>
    case Release(t) =>
      assert ThreadOk(w, t) && ProcessOk(w, t.proc);
      if w.threads[t].depth > 0 { StepKeeps(w, Next(w, a), t); }
    case Go(t, ok) => StatementOk(w, t, ok);
    case Interrupt(t) => InterruptOk(w, t);
    case Crash(proc) => CrashOk(w, proc);
  }

  /* ---------- runs ---------- */

  ghost predicate Run(w: World, acts: seq<Act>)
    decreases |acts|
  {
    acts == [] || (Enabled(w, acts[0]) && Run(Next(w, acts[0]), acts[1..]))
  }

  ghost function After(w: World, acts: seq<Act>): World
    requires Run(w, acts)
    decreases |acts|
  {
    if acts == [] then w else After(Next(w, acts[0]), acts[1..])
  }

  lemma {:induction false} RunOk(w: World, acts: seq<Act>)
    requires WorldOk(w) && Run(w, acts)
    ensures WorldOk(After(w, acts))
    decreases |acts|
  {
    hide WorldOk, Next, Enabled;
    if acts != [] {
      NextOk(w, acts[0]);
      RunOk(Next(w, acts[0]), acts[1..]);
    }
  }

  /** The body of `with fleet_op_lock()` runs, at any nesting depth. */
  predicate Inside(w: World, t: Tid) {
    t in w.threads && w.threads[t].depth > 0
  }

  /** Mutual exclusion over every interleaving: one thread anywhere, in any process. */
  lemma MutualExclusion(start: World, acts: seq<Act>, t: Tid, u: Tid)
    requires Fresh(start) && Run(start, acts)
    requires Inside(After(start, acts), t) && Inside(After(start, acts), u)
    ensures t == u
  {
    FreshIsOk(start);
    RunOk(start, acts);
    OneInside(After(start, acts), t, u);
  }

  lemma OneInside(w: World, t: Tid, u: Tid)
    requires WorldOk(w) && Inside(w, t) && Inside(w, u)
    ensures t == u
  {}

  ghost predicate AtRest(w: World, p: nat) {
    p in w.procs && forall t :: t in w.threads && t.proc == p ==> w.threads[t].place.Outside?
  }

  /** Whether an acquire of process p was interrupted in that window since p started. */
  ghost function Interrupted(acts: seq<Act>, p: nat, before: bool): bool {
    if acts == [] then before else
      Interrupted(acts[1..], p,
        match acts[0]
        case Interrupt(t) => before || t.proc == p
        case Crash(proc) => before && proc != p
        case _ => before)
  }

  lemma {:induction false} LeakIsInterrupt(w: World, acts: seq<Act>, p: nat)
    requires Run(w, acts) && p in w.procs
    ensures p in After(w, acts).procs && After(w, acts).procs[p].leaked == Interrupted(acts, p, w.procs[p].leaked)
    decreases |acts|
  {
    if acts != [] {
      LeakStep(w, acts[0], p);
      hide Next, Enabled;
      LeakIsInterrupt(Next(w, acts[0]), acts[1..], p);
    }
  }

  lemma LeakStep(w: World, a: Act, p: nat)
    requires Enabled(w, a) && p in w.procs
    ensures p in Next(w, a).procs
    ensures Next(w, a).procs[p].leaked ==
              match a
              case Interrupt(t) => w.procs[p].leaked || t.proc == p
              case Crash(proc) => w.procs[p].leaked && proc != p
              case _ => w.procs[p].leaked
  {}

  /** In a process with no call in progress: a thread's depth is its thread-lock count, the handle is set exactly
      while some thread is inside or an acquire was interrupted in its window, and with nobody inside the thread
      lock is free, and the file lock is if and only if there was no such interrupt. */
  lemma RestingProcess(start: World, acts: seq<Act>, p: nat)
    requires Fresh(start) && Run(start, acts) && p in start.procs && AtRest(After(start, acts), p)
    ensures var w := After(start, acts);
            && (forall t :: t in w.threads && t.proc == p && w.threads[t].depth > 0 ==>
                  w.procs[p].owner == Some(t) && w.procs[p].count == w.threads[t].depth)
            && (w.procs[p].fh.Some? <==> (exists t: Tid :: t.proc == p && Inside(w, t)) || Interrupted(acts, p, false))
            && ((forall t :: t in w.threads && t.proc == p ==> w.threads[t].depth == 0) ==>
                  && w.procs[p].owner == None && w.procs[p].count == 0
                  && (w.procs[p].fh == None && (w.flock.Some? ==> w.flock.value.proc != p) <==> !Interrupted(acts, p, false)))
  {
    FreshIsOk(start);
    RunOk(start, acts);
    LeakIsInterrupt(start, acts, p);
    RestIsBalanced(After(start, acts), p);
  }

  lemma RestIsBalanced(w: World, p: nat)
    requires WorldOk(w) && AtRest(w, p)
    ensures forall t :: t in w.threads && t.proc == p && w.threads[t].depth > 0 ==>
              w.procs[p].owner == Some(t) && w.procs[p].count == w.threads[t].depth
    ensures w.procs[p].fh.Some? <==> (exists t: Tid :: t.proc == p && Inside(w, t)) || w.procs[p].leaked
    ensures (forall t :: t in w.threads && t.proc == p ==> w.threads[t].depth == 0) ==>
              && w.procs[p].owner == None && w.procs[p].count == 0
              && (w.procs[p].fh == None && (w.flock.Some? ==> w.flock.value.proc != p) <==> !w.procs[p].leaked)
  {
    assert ProcessOk(w, p);
    forall t | t in w.threads && t.proc == p && w.threads[t].depth > 0
      ensures w.procs[p].owner == Some(t) && w.procs[p].count == w.threads[t].depth && w.procs[p].fh.Some?
    {
      assert ThreadOk(w, t);
    }
    if w.procs[p].owner.Some? {
      var t := w.procs[p].owner.value;
      assert ThreadOk(w, t) && Inside(w, t);
    }
  }

  const SOLO: Tid := Tid(0, 0)
  const SOLO_START: World := World(map[SOLO := Thread(Outside, 0)], map[0 := FREE], None, 0)

  /** Acquire, open, flock, publish; the interrupt; the except clause. */
  function SoloAct(i: nat): Act {
    if i == 0 then Acquire(SOLO) else if i == 5 then Interrupt(SOLO) else Go(SOLO, true)
  }

  const SOLO_ACTS: seq<Act> := seq(7, i requires 0 <= i < 7 => SoloAct(i))

  /** Worlds one act apart are a run. */
  lemma {:induction false} Path(worlds: seq<World>, acts: seq<Act>)
    requires |worlds| == |acts| + 1
    requires forall i :: 0 <= i < |acts| ==> Enabled(worlds[i], acts[i]) && worlds[i + 1] == Next(worlds[i], acts[i])
    ensures Run(worlds[0], acts) && After(worlds[0], acts) == worlds[|acts|]
    decreases |acts|
  {
    hide Enabled, Next;
    if acts != [] {
      var rest := worlds[1..];
      assert forall i :: 0 <= i < |acts| - 1 ==> rest[i] == worlds[i + 1] && acts[1..][i] == acts[i + 1];
      Path(rest, acts[1..]);
    }
  }

  const SOLO_HANDLE: Handle := Handle(0, 0)
  const SOLO_HELD: Process := Process(Some(SOLO), 1, None, false)

  function Solo(place: Place, pr: Process, flock: Option<Handle>, next: nat): World {
    World(map[SOLO := Thread(place, 0)], map[0 := pr], flock, next)
  }

  /** The eight worlds of the run. */
  function SoloWorld(i: nat): World {
    if i == 0 then SOLO_START
    else if i == 1 then Solo(Counting, SOLO_HELD, None, 0)
    else if i == 2 then Solo(Opening, SOLO_HELD, None, 0)
    else if i == 3 then Solo(Locking(SOLO_HANDLE), SOLO_HELD, None, 1)
    else if i == 4 then Solo(Locked(SOLO_HANDLE), SOLO_HELD, Some(SOLO_HANDLE), 1)
    else if i == 5 then Solo(Published, SOLO_HELD.(fh := Some(SOLO_HANDLE)), Some(SOLO_HANDLE), 1)
    else if i == 6 then Solo(Failing, SOLO_HELD.(fh := Some(SOLO_HANDLE), leaked := true), Some(SOLO_HANDLE), 1)
    else Solo(Outside, Process(None, 0, Some(SOLO_HANDLE), true), Some(SOLO_HANDLE), 1)
  }

  lemma SoloStep(i: nat)
    requires i < 7
    ensures Enabled(SoloWorld(i), SoloAct(i)) && SoloWorld(i + 1) == Next(SoloWorld(i), SoloAct(i))
  {
    if i == 0 || i == 5 {
    } else if i < 4 {
      SoloEnters(i);
    } else {
      SoloLeaves(i);
    }
  }

  lemma SoloEnters(i: nat)
    requires 1 <= i < 4
    ensures Enabled(SoloWorld(i), Go(SOLO, true)) && SoloWorld(i + 1) == Next(SoloWorld(i), Go(SOLO, true))
  {}

  lemma SoloLeaves(i: nat)
    requires i == 4 || i == 6
    ensures Enabled(SoloWorld(i), Go(SOLO, true)) && SoloWorld(i + 1) == Next(SoloWorld(i), Go(SOLO, true))
  {}

  /** One such run: a thread acquires alone, is interrupted in the window, and its failed acquire leaves the file
      lock held by a process in which nobody is inside. */
  lemma InterruptLeaves()
    ensures Fresh(SOLO_START) && Run(SOLO_START, SOLO_ACTS)
    ensures var w := After(SOLO_START, SOLO_ACTS);
            w.threads == map[SOLO := Thread(Outside, 0)] && w.flock == Some(SOLO_HANDLE)
  {
    hide Enabled, Next, SoloAct;
    var worlds := seq(8, i requires 0 <= i < 8 => SoloWorld(i));
    assert worlds[0] == SOLO_START && worlds[7].threads == map[SOLO := Thread(Outside, 0)];
    assert worlds[7].flock == Some(SOLO_HANDLE);
    hide SoloWorld;
    forall i | 0 <= i < 7 ensures Enabled(worlds[i], SOLO_ACTS[i]) && worlds[i + 1] == Next(worlds[i], SOLO_ACTS[i]) {
      SoloStep(i);
    }
    Path(worlds, SOLO_ACTS);
  }

  /** The thread lock is only ever released by its owner: RuntimeError is never raised. */
  lemma ReleaseNeverRaises(start: World, acts: seq<Act>, t: Tid)
    requires Fresh(start) && Run(start, acts) && t in After(start, acts).threads
    ensures var w := After(start, acts);
            var place := w.threads[t].place;
            t.proc in w.procs &&
            (place.Unnesting? || place.Freeing? || place.Failing? ==> Unlocked(w.procs[t.proc], t).Some?)
  {
    FreshIsOk(start);
    RunOk(start, acts);
    var w := After(start, acts);
    assert Known(w, t) && ThreadOk(w, t) && ProcessOk(w, t.proc);
  }

  /* ---------- what one call does when nobody is in the way ---------- */

  /** Thread t is outside any call, and the thread lock is free or its own. */
  predicate Ready(w: World, t: Tid) {
    Known(w, t) && w.threads[t].place.Outside?
    && (w.procs[t.proc].owner == (if w.threads[t].depth == 0 then None else Some(t)))
    && w.procs[t.proc].count == w.threads[t].depth
  }

  /** A first acquire: the thread lock, the open, the flock, the two assignments. */
  function EnterWorld(w: World, t: Tid, i: nat): World
    requires Known(w, t)
  {
    var pr := w.procs[t.proc].(owner := Some(t), count := 1);
    var h := Handle(t.proc, w.nextHandle);
    if i == 0 then w
    else if i == 1 then At(w, t, Thread(Counting, 0), pr, None)
    else if i == 2 then At(w, t, Thread(Opening, 0), pr, None)
    else if i == 3 then At(w, t, Thread(Locking(h), 0), pr, None).(nextHandle := w.nextHandle + 1)
    else if i == 4 then At(w, t, Thread(Locked(h), 0), pr, Some(h)).(nextHandle := w.nextHandle + 1)
    else if i == 5 then At(w, t, Thread(Published, 0), pr.(fh := Some(h)), Some(h)).(nextHandle := w.nextHandle + 1)
    else At(w, t, Thread(Outside, 1), pr.(fh := Some(h)), Some(h)).(nextHandle := w.nextHandle + 1)
  }

  function EnterActs(t: Tid): seq<Act> {
    [Acquire(t), Go(t, true), Go(t, true), Go(t, true), Go(t, true), Go(t, true)]
  }

  lemma EnterStep(w: World, t: Tid, i: nat)
    requires Ready(w, t) && w.threads[t].depth == 0 && w.flock == None && i < 6
    ensures Enabled(EnterWorld(w, t, i), EnterActs(t)[i]) && EnterWorld(w, t, i + 1) == Next(EnterWorld(w, t, i), EnterActs(t)[i])
  {}

  /** Nobody in the way: the acquire goes through, and the thread holds the thread lock once and the file lock. */
  lemma FirstAcquire(w: World, t: Tid)
    requires Ready(w, t) && w.threads[t].depth == 0 && w.flock == None
    ensures Run(w, EnterActs(t))
    ensures var w' := After(w, EnterActs(t));
            && Known(w', t) && w'.threads[t] == Thread(Outside, 1) && w'.flock.Some? && w'.flock.value.proc == t.proc
            && w'.procs[t.proc].owner == Some(t) && w'.procs[t.proc].count == 1 && w'.procs[t.proc].fh == w'.flock
            && w'.nextHandle == w.nextHandle + 1
            && (forall u :: u in w.threads && u != t ==> u in w'.threads && w'.threads[u] == w.threads[u])
            && (forall p :: p in w.procs && p != t.proc ==> p in w'.procs && w'.procs[p] == w.procs[p])
  {
    EnterEnds(w, t);
    hide Run, After, Next, Enabled;
  }

  lemma SixActs(t: Tid)
    ensures |EnterActs(t)| == 6 && |LeaveActs(t)| == 5
  {}

  /** The last release: depth 0, unlock, close, the thread lock. */
  function LeaveWorld(w: World, t: Tid, i: nat): World
    requires Known(w, t) && w.flock.Some?
  {
    var pr, h := w.procs[t.proc], w.flock.value;
    if i == 0 then w
    else if i == 1 then At(w, t, Thread(Clearing, 0), pr, w.flock)
    else if i == 2 then At(w, t, Thread(Unlocking(h), 0), pr.(fh := None), w.flock)
    else if i == 3 then At(w, t, Thread(Closing(h), 0), pr.(fh := None), None)
    else if i == 4 then At(w, t, Thread(Freeing, 0), pr.(fh := None), None)
    else At(w, t, Thread(Outside, 0), pr.(fh := None, owner := None, count := 0), None)
  }

  function LeaveActs(t: Tid): seq<Act> {
    [Release(t), Go(t, true), Go(t, true), Go(t, true), Go(t, true)]
  }

  lemma LeaveStep(w: World, t: Tid, i: nat)
    requires Ready(w, t) && w.threads[t].depth == 1 && w.flock.Some? && w.procs[t.proc].fh == w.flock && i < 5
    ensures Enabled(LeaveWorld(w, t, i), LeaveActs(t)[i]) && LeaveWorld(w, t, i + 1) == Next(LeaveWorld(w, t, i), LeaveActs(t)[i])
  {}

  lemma LastRelease(w: World, t: Tid)
    requires Ready(w, t) && w.threads[t].depth == 1 && w.flock.Some? && w.procs[t.proc].fh == w.flock
    ensures Run(w, LeaveActs(t)) && After(w, LeaveActs(t)) == LeaveWorld(w, t, 5)
  {
    assert Known(w, t);
    hide Enabled, Next, LeaveActs, Ready;
    var worlds, acts := seq(6, i requires 0 <= i < 6 => LeaveWorld(w, t, i)), LeaveActs(t);
    assert |acts| == 5 by { SixActs(t); }
    assert worlds[0] == w && worlds[5] == LeaveWorld(w, t, 5);
    forall i | 0 <= i < 5 ensures Enabled(worlds[i], acts[i]) && worlds[i + 1] == Next(worlds[i], acts[i]) {
      LeaveStep(w, t, i);
    }
    Path(worlds, acts);
  }

  /** Acquire and release undo each other: only the handle counter moved. */
  lemma AcquireThenRelease(w: World, t: Tid)
    requires Ready(w, t) && w.threads[t].depth == 0 && w.flock == None && w.procs[t.proc].fh == None
    ensures Run(w, EnterActs(t)) && Run(After(w, EnterActs(t)), LeaveActs(t))
    ensures After(After(w, EnterActs(t)), LeaveActs(t)) == w.(nextHandle := w.nextHandle + 1)
  {
    hide Enabled, Next, Run, After, EnterActs, LeaveActs;
    FirstAcquire(w, t);
    EnterEnds(w, t);
    LastRelease(EnterWorld(w, t, 6), t);
    var back := LeaveWorld(EnterWorld(w, t, 6), t, 5);
    assert back.threads == w.threads && back.procs == w.procs;
  }

  lemma EnterEnds(w: World, t: Tid)
    requires Ready(w, t) && w.threads[t].depth == 0 && w.flock == None
    ensures Run(w, EnterActs(t)) && After(w, EnterActs(t)) == EnterWorld(w, t, 6)
  {
    assert Known(w, t);
    hide Enabled, Next, EnterActs, Ready;
    var worlds, acts := seq(7, i requires 0 <= i < 7 => EnterWorld(w, t, i)), EnterActs(t);
    assert |acts| == 6 by { SixActs(t); }
    assert worlds[0] == w && worlds[6] == EnterWorld(w, t, 6);
    forall i | 0 <= i < 6 ensures Enabled(worlds[i], acts[i]) && worlds[i + 1] == Next(worlds[i], acts[i]) {
      EnterStep(w, t, i);
    }
    Path(worlds, acts);
  }

  lemma TwoActs(w: World, a: Act, b: Act)
    requires Enabled(w, a) && Enabled(Next(w, a), b)
    ensures Run(w, [a, b]) && After(w, [a, b]) == Next(Next(w, a), b)
  {
    hide Enabled, Next;
    var worlds := [w, Next(w, a), Next(Next(w, a), b)];
    Path(worlds, [a, b]);
  }

  function Deeper(w: World, t: Tid): World
    requires Known(w, t)
  {
    At(w, t, Thread(Outside, w.threads[t].depth + 1), w.procs[t.proc].(count := w.procs[t.proc].count + 1), w.flock)
  }

  lemma NestedAcquire(w: World, t: Tid)
    requires Ready(w, t) && w.threads[t].depth > 0
    ensures Enabled(w, Acquire(t)) && Enabled(Next(w, Acquire(t)), Go(t, true))
    ensures Next(Next(w, Acquire(t)), Go(t, true)) == Deeper(w, t)
  {}

  lemma NestedRelease(w: World, t: Tid)
    requires Ready(w, t) && w.threads[t].depth > 0
    ensures Enabled(Deeper(w, t), Release(t)) && Enabled(Next(Deeper(w, t), Release(t)), Go(t, true))
    ensures Next(Next(Deeper(w, t), Release(t)), Go(t, true)) == w
  {
    var back := Next(Next(Deeper(w, t), Release(t)), Go(t, true));
    assert back.threads == w.threads && back.procs == w.procs;
  }

  /** A thread that is inside acquires again at once, and its release takes exactly that back. */
  lemma NestedAcquireAndRelease(w: World, t: Tid)
    requires Ready(w, t) && w.threads[t].depth > 0
    ensures Run(w, [Acquire(t), Go(t, true)])
    ensures var w' := After(w, [Acquire(t), Go(t, true)]);
            && w' == Deeper(w, t) && Run(w', [Release(t), Go(t, true)]) && After(w', [Release(t), Go(t, true)]) == w
  {
    NestedAcquire(w, t);
    NestedRelease(w, t);
    hide Enabled, Next, Deeper, Run, After;
    TwoActs(w, Acquire(t), Go(t, true));
    TwoActs(Deeper(w, t), Release(t), Go(t, true));
  }

  function Waiting(w: World, t: Tid, place: Place): World
    requires Known(w, t)
  {
    At(w, t, Thread(place, 0), w.procs[t.proc].(owner := Some(t), count := 1), w.flock)
  }

  lemma Opens(w: World, t: Tid)
    requires Ready(w, t) && w.threads[t].depth == 0
    ensures Enabled(w, Acquire(t)) && Enabled(Next(w, Acquire(t)), Go(t, true))
    ensures Next(Next(w, Acquire(t)), Go(t, true)) == Waiting(w, t, Opening)
  {}

  lemma OpenFails(w: World, t: Tid)
    requires Ready(w, t) && w.threads[t].depth == 0
    ensures var mid := Waiting(w, t, Opening);
            && Enabled(mid, Go(t, false)) && Enabled(Next(mid, Go(t, false)), Go(t, true))
            && Next(Next(mid, Go(t, false)), Go(t, true)) == w
  {
    var back := Next(Next(Waiting(w, t, Opening), Go(t, false)), Go(t, true));
    assert back.threads == w.threads && back.procs == w.procs;
  }

  lemma FlockFails(w: World, t: Tid)
    requires Ready(w, t) && w.threads[t].depth == 0
    ensures var mid := Waiting(w, t, Opening);
            && Enabled(mid, Go(t, true)) && Enabled(Next(mid, Go(t, true)), Go(t, false))
            && Enabled(Next(Next(mid, Go(t, true)), Go(t, false)), Go(t, true))
            && Next(Next(Next(mid, Go(t, true)), Go(t, false)), Go(t, true)) == w.(nextHandle := w.nextHandle + 1)
  {
    var next := Next(Waiting(w, t, Opening), Go(t, true));
    assert next == Waiting(w, t, Locking(Handle(t.proc, w.nextHandle))).(nextHandle := w.nextHandle + 1);
    var back := Next(Next(next, Go(t, false)), Go(t, true));
    assert back.threads == w.threads && back.procs == w.procs;
  }

  /** The open fails: both levels are as they were. */
  lemma OpenFailure(w: World, t: Tid)
    requires Ready(w, t) && w.threads[t].depth == 0
    ensures Run(w, [Acquire(t), Go(t, true)])
    ensures Run(After(w, [Acquire(t), Go(t, true)]), [Go(t, false), Go(t, true)])
    ensures After(After(w, [Acquire(t), Go(t, true)]), [Go(t, false), Go(t, true)]) == w
  {
    Opens(w, t);
    OpenFails(w, t);
    hide Enabled, Next, Waiting, Run, After;
    TwoActs(w, Acquire(t), Go(t, true));
    TwoActs(Waiting(w, t, Opening), Go(t, false), Go(t, true));
  }

  /** The flock fails, or times out: both levels are as they were; one handle number is used up. */
  lemma FlockFailure(w: World, t: Tid)
    requires Ready(w, t) && w.threads[t].depth == 0
    ensures Run(w, [Acquire(t), Go(t, true)])
    ensures var acts := [Go(t, true), Go(t, false), Go(t, true)];
            && Run(After(w, [Acquire(t), Go(t, true)]), acts)
            && After(After(w, [Acquire(t), Go(t, true)]), acts) == w.(nextHandle := w.nextHandle + 1)
  {
    Opens(w, t);
    FlockFails(w, t);
    hide Enabled, Next, Waiting, Run, After;
    TwoActs(w, Acquire(t), Go(t, true));
    var mid := Waiting(w, t, Opening);
    TwoActs(Next(mid, Go(t, true)), Go(t, false), Go(t, true));
    OneMoreAct(mid, Go(t, true), [Go(t, false), Go(t, true)]);
  }

  lemma OneMoreAct(w: World, a: Act, acts: seq<Act>)
    requires |acts| == 2 && Enabled(w, a) && Run(Next(w, a), acts)
    ensures Run(w, [a, acts[0], acts[1]]) && After(w, [a, acts[0], acts[1]]) == After(Next(w, a), acts)
  {
    hide Enabled, Next;
    assert [a, acts[0], acts[1]][1..] == acts;
  }
}
