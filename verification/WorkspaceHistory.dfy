/** The compare-and-swap workspace protocol over any number of controllers and workspace copies. */
module WorkspaceHistory {

  import opened Prelude
  import opened StateDigest

  type FleetId = string
  type WriteId = string

  /** workspace.json without its digest; `rest` is every field the protocol does not look at. */
  datatype Manifest = Manifest(
    fleetId: FleetId, revision: nat, writeId: WriteId, parent: Option<(nat, WriteId)>, rest: string)

  /** The portable files with the digest field zeroed. */
  datatype Contents = Contents(
    fleet: Option<string>, manifest: Option<Manifest>, hosts: Option<string>, history: Option<string>)

  /** SHA-256 without collisions: two digests are equal exactly when the hashed states are. */
  datatype Digest = Zeroed | Sha256(state: Contents)

  /** One workspace directory; `digest` is the manifest's state_digest field. */
  datatype Home = Home(contents: Contents, digest: Digest)

  /** workspace-view.json, one per controller and fleet. */
  datatype View = View(revision: nat, writeId: WriteId, digest: Digest)

  datatype Who = Who(controller: nat, fleetId: FleetId)

  /** A workspace_mutation whose mutator is running. */
  datatype Job = Job(controller: nat, home: nat, fleetId: FleetId, revision: nat, writeId: WriteId)

  /** What remember_workspace_view recorded, in order. */
  datatype Seen = Seen(revision: nat, writeId: WriteId)

  type Views = map<Who, View>
  type Memory = map<Who, seq<Seen>>

  datatype World = World(homes: map<nat, Home>, views: Views, jobs: map<nat, Job>, memory: Memory)

  datatype Conflict = Fine | Rollback | Diverged | Inconsistent

  function DetectConflict(h: Home, m: Manifest, view: Option<View>): Conflict {
    if h.digest != Sha256(h.contents) then Inconsistent
    else if view.None? then Fine
    else if m.revision < view.value.revision then Rollback
    else if m.revision == view.value.revision && m.writeId != view.value.writeId then Diverged
    else Fine
  }

  datatype Act =
    | Create(controller: nat, home: nat, fleetId: FleetId, writeId: WriteId, rest: string)
    | Begin(job: nat, controller: nat, home: nat)
    | Finish(job: nat, writeId: WriteId, rest: string)
    | Abandon(job: nat)
    | Edit(home: nat, to: Home)     // a mutator's write, an outside edit, a copy, a rollback or a fork

  function ViewOf(views: Views, who: Who): Option<View> {
    if who in views then Some(views[who]) else None
  }

  function MemoryOf(memory: Memory, who: Who): seq<Seen> {
    if who in memory then memory[who] else []
  }

  function Recorded(memory: Memory, who: Who, s: Seen): Memory {
    memory[who := MemoryOf(memory, who) + [s]]
  }

  /** remember_workspace_view. */
  function Remember(w: World, who: Who, m: Manifest, digest: Digest): World {
    w.(views := w.views[who := View(m.revision, m.writeId, digest)],
       memory := Recorded(w.memory, who, Seen(m.revision, m.writeId)))
  }

  /** The genesis manifest: revision 1, no parent. */
  function Created(w: World, a: Act): World
    requires a.Create?
  {
    var contents := if a.home in w.homes then w.homes[a.home].contents else Contents(None, None, None, None);
    if contents.manifest.Some? then w else
      var m := Manifest(a.fleetId, 1, a.writeId, None, a.rest);
      var contents' := contents.(manifest := Some(m));
      Remember(w.(homes := w.homes[a.home := Home(contents', Sha256(contents'))]), Who(a.controller, a.fleetId), m, Sha256(contents'))
  }

  /** Up to the call of the mutator: `Fine` starts a job, anything else refuses. */
  function Begun(w: World, a: Act): World
    requires a.Begin?
  {
    if a.home !in w.homes || w.homes[a.home].contents.manifest.None? then w else
      var h := w.homes[a.home];
      var m := h.contents.manifest.value;
      var who := Who(a.controller, m.fleetId);
      if DetectConflict(h, m, ViewOf(w.views, who)) != Fine then w else
        Remember(w, who, m, h.digest).(jobs := w.jobs[a.job := Job(a.controller, a.home, m.fleetId, m.revision, m.writeId)])
  }

  /** A genesis column by column: revision 1 without a parent, sealed, and remembered; nothing where there already is
      a workspace. */
  lemma GenesisInColumns(w: World, a: Act)
    requires a.Create?
    ensures a.home in w.homes && w.homes[a.home].contents.manifest.Some? ==> Created(w, a) == w
    ensures !(a.home in w.homes && w.homes[a.home].contents.manifest.Some?) ==>
              var w' := Created(w, a);
              a.home in w'.homes &&
              var h, who := w'.homes[a.home], Who(a.controller, a.fleetId);
              && h.contents.manifest == Some(Manifest(a.fleetId, 1, a.writeId, None, a.rest)) && h.digest == Sha256(h.contents)
              && (a.home in w.homes ==> h.contents.fleet == w.homes[a.home].contents.fleet
                                        && h.contents.hosts == w.homes[a.home].contents.hosts
                                        && h.contents.history == w.homes[a.home].contents.history)
              && (a.home !in w.homes ==> h.contents.fleet.None? && h.contents.hosts.None? && h.contents.history.None?)
              && who in w'.views && w'.views[who] == View(1, a.writeId, h.digest) && w'.jobs == w.jobs
              && (forall other :: other != who ==> (other in w'.views <==> other in w.views) && (other in w.views ==> w'.views[other] == w.views[other]))
              && (forall other :: other != a.home ==> (other in w'.homes <==> other in w.homes) && (other in w.homes ==> w'.homes[other] == w.homes[other]))
  {}

  predicate CasHolds(w: World, j: Job) {
    && j.home in w.homes && w.homes[j.home].contents.manifest.Some?
    && w.homes[j.home].contents.manifest.value.revision == j.revision
    && w.homes[j.home].contents.manifest.value.writeId == j.writeId
  }

  function Committed(m: Manifest, writeId: WriteId, rest: string): Manifest {
    Manifest(m.fleetId, m.revision + 1, writeId, Some((m.revision, m.writeId)), rest)
  }

  /** From the re-read to the end. */
  function Finished(w: World, a: Act): World
    requires a.Finish?
  {
    if a.job !in w.jobs then w else
      var j := w.jobs[a.job];
      var w' := w.(jobs := w.jobs - {a.job});
      if !CasHolds(w, j) then w' else
        var h := w.homes[j.home];
        var m := Committed(h.contents.manifest.value, a.writeId, a.rest);
        var contents := h.contents.(manifest := Some(m));
        Remember(w'.(homes := w.homes[j.home := Home(contents, Sha256(contents))]), Who(j.controller, m.fleetId), m, Sha256(contents))
  }

  function Next(w: World, a: Act): World {
    match a
    case Create(_, _, _, _, _) => Created(w, a)
    case Begin(_, _, _) => Begun(w, a)
    case Finish(_, _, _) => Finished(w, a)
    case Abandon(job) => w.(jobs := w.jobs - {job})
    case Edit(home, to) => w.(homes := w.homes[home := to])
  }

  /* ---------- what one controller remembers ---------- */

  /** Revisions never decrease, and one revision never has two write ids. */
  ghost predicate Monotone(log: seq<Seen>) {
    forall i, j :: 0 <= i < j < |log| ==>
      log[i].revision <= log[j].revision && (log[i].revision == log[j].revision ==> log[i].writeId == log[j].writeId)
  }

  /** Remembering one more view keeps that exactly when it is not older than, nor a rival of, the last one. */
  lemma RememberKeepsIff(log: seq<Seen>, s: Seen)
    requires Monotone(log)
    ensures Monotone(log + [s]) <==>
              log == [] || log[|log| - 1].revision < s.revision || log[|log| - 1] == s
  {
    var log' := log + [s];
    if Monotone(log') && log != [] {
      assert log'[|log| - 1] == log[|log| - 1] && log'[|log|] == s;
    }
    if log == [] || log[|log| - 1].revision < s.revision || log[|log| - 1] == s {
      forall i, j | 0 <= i < j < |log'|
        ensures log'[i].revision <= log'[j].revision && (log'[i].revision == log'[j].revision ==> log'[i].writeId == log'[j].writeId)
      {
        if j == |log| && i < |log| - 1 { assert log[i].revision <= log[|log| - 1].revision; }
      }
    }
  }

  function LastSeen(log: seq<Seen>): Seen
    requires log != []
  {
    log[|log| - 1]
  }

  /** The stored view of one controller and fleet is the last thing remembered, and the memory is monotone. */
  ghost predicate MemoryFits(views: Views, memory: Memory, who: Who) {
    var log := MemoryOf(memory, who);
    && Monotone(log)
    && (if who in views then log != [] && LastSeen(log) == Seen(views[who].revision, views[who].writeId) else log == [])
  }

  ghost predicate Remembered(views: Views, memory: Memory) {
    forall who :: MemoryFits(views, memory, who)
  }

  /** Each job still agrees with what its controller remembers of its fleet, and is that controller's only one. */
  ghost predicate JobsFit(w: World) {
    && (forall i :: i in w.jobs ==> JobFits(w, w.jobs[i]))
    && (forall i, j :: i in w.jobs && j in w.jobs && w.jobs[i].controller == w.jobs[j].controller ==> i == j)
  }

  predicate JobFits(w: World, j: Job) {
    var who := Who(j.controller, j.fleetId);
    who in w.views && w.views[who].revision == j.revision && w.views[who].writeId == j.writeId
  }

  ghost predicate WorldOk(w: World) {
    Remembered(w.views, w.memory) && JobsFit(w)
  }

  /** A controller runs one mutation at a time, a fleet id is minted once per controller, and nobody swaps the
      fleet id of a workspace while a mutation of it is running. */
  predicate Orderly(w: World, a: Act) {
    match a
    case Create(c, _, fleetId, _, _) => Who(c, fleetId) !in w.views
    case Begin(job, c, _) => job !in w.jobs && NoJobOf(w, c)
    case Finish(job, _, _) =>
      job in w.jobs && CasHolds(w, w.jobs[job]) ==>
        w.homes[w.jobs[job].home].contents.manifest.value.fleetId == w.jobs[job].fleetId
    case Abandon(_) => true
    case Edit(_, _) => true
  }

  predicate NoJobOf(w: World, c: nat) {
    forall i :: i in w.jobs ==> w.jobs[i].controller != c
  }

  /** A manifest that is not older than, nor a rival of, the stored view. */
  predicate Admissible(views: Views, who: Who, m: Manifest) {
    who in views ==> views[who].revision < m.revision
                     || (views[who].revision == m.revision && views[who].writeId == m.writeId)
  }

  lemma RememberFits(w: World, who: Who, m: Manifest, digest: Digest)
    requires Remembered(w.views, w.memory) && Admissible(w.views, who, m)
    ensures var w' := Remember(w, who, m, digest); Remembered(w'.views, w'.memory)
  {
    hide Monotone;
    var w' := Remember(w, who, m, digest);
    forall u ensures MemoryFits(w'.views, w'.memory, u) {
      assert MemoryFits(w.views, w.memory, u);
      if u == who { RememberKeepsIff(MemoryOf(w.memory, who), Seen(m.revision, m.writeId)); }
    }
  }

  lemma BeginOk(w: World, a: Act)
    requires WorldOk(w) && a.Begin? && Orderly(w, a)
    ensures WorldOk(Begun(w, a))
  {
    hide Remembered;
    if Begun(w, a) != w {
      var h := w.homes[a.home];
      var m := h.contents.manifest.value;
      RememberFits(w, Who(a.controller, m.fleetId), m, h.digest);
      BegunJobs(w, a);
    }
  }

  lemma BegunJobs(w: World, a: Act)
    requires JobsFit(w) && a.Begin? && Orderly(w, a)
    ensures JobsFit(Begun(w, a))
  {}

  lemma FinishOk(w: World, a: Act)
    requires WorldOk(w) && a.Finish? && Orderly(w, a)
    ensures WorldOk(Finished(w, a))
  {
    hide Remembered;
    if a.job in w.jobs && CasHolds(w, w.jobs[a.job]) {
      var j := w.jobs[a.job];
      assert JobFits(w, j);
      var m := Committed(w.homes[j.home].contents.manifest.value, a.writeId, a.rest);
      var contents := w.homes[j.home].contents.(manifest := Some(m));
      RememberFits(w, Who(j.controller, m.fleetId), m, Sha256(contents));
      FinishedJobs(w, a);
    }
  }

  lemma FinishedJobs(w: World, a: Act)
    requires JobsFit(w) && a.Finish? && a.job in w.jobs && CasHolds(w, w.jobs[a.job])
    ensures JobsFit(Finished(w, a))
  {}

  lemma CreateOk(w: World, a: Act)
    requires WorldOk(w) && a.Create? && Orderly(w, a)
    ensures WorldOk(Created(w, a))
  {
    hide Remembered;
    if Created(w, a) != w {
      var h := Created(w, a).homes[a.home];
      RememberFits(w, Who(a.controller, a.fleetId), h.contents.manifest.value, h.digest);
      CreatedJobs(w, a);
    }
  }

  lemma CreatedJobs(w: World, a: Act)
    requires JobsFit(w) && a.Create? && Orderly(w, a)
    ensures JobsFit(Created(w, a))
  {}

  lemma NextOk(w: World, a: Act)
    requires WorldOk(w) && Orderly(w, a)
    ensures WorldOk(Next(w, a))
  {
    match a
    case Create(_, _, _, _, _) => CreateOk(w, a);
    case Begin(_, _, _) => BeginOk(w, a);
    case Finish(_, _, _) => FinishOk(w, a);
    case Abandon(_) =>
      hide Remembered;
      forall i | i in Next(w, a).jobs ensures JobFits(Next(w, a), w.jobs[i]) { assert JobFits(w, w.jobs[i]); }
    case Edit(_, _) =>
      hide Remembered;
      forall i | i in w.jobs ensures JobFits(Next(w, a), w.jobs[i]) { assert JobFits(w, w.jobs[i]); }
  }

  ghost function After(w: World, acts: seq<Act>): World
    decreases |acts|
  {
    if acts == [] then w else After(Next(w, acts[0]), acts[1..])
  }

  ghost predicate OrderlyRun(w: World, acts: seq<Act>)
    decreases |acts|
  {
    acts == [] || (Orderly(w, acts[0]) && OrderlyRun(Next(w, acts[0]), acts[1..]))
  }

  /** What one act makes a controller remember: a genesis, a view taken before a mutator, a commit. */
  datatype Memo = Nothing | Memo(who: Who, seen: Seen)

  function MemoOf(w: World, a: Act): Memo {
    match a
    case Create(c, home, fleetId, writeId, _) =>
      if home in w.homes && w.homes[home].contents.manifest.Some? then Nothing
      else Memo(Who(c, fleetId), Seen(1, writeId))
    case Begin(_, c, home) =>
      if home !in w.homes || w.homes[home].contents.manifest.None? then Nothing else
        var m := w.homes[home].contents.manifest.value;
        if DetectConflict(w.homes[home], m, ViewOf(w.views, Who(c, m.fleetId))) != Fine then Nothing
        else Memo(Who(c, m.fleetId), Seen(m.revision, m.writeId))
    case Finish(job, writeId, _) =>
      if job !in w.jobs || !CasHolds(w, w.jobs[job]) then Nothing else
        var j := w.jobs[job];
        Memo(Who(j.controller, w.homes[j.home].contents.manifest.value.fleetId), Seen(j.revision + 1, writeId))
    case Abandon(_) => Nothing
    case Edit(_, _) => Nothing
  }

  /** The condition, act by act: a commit finds the stored view of its fleet not past the revision it replaces,
      and a genesis finds no view past revision 0. */
  predicate NotBehind(w: World, a: Act) {
    match MemoOf(w, a)
    case Nothing => true
    case Memo(who, seen) => a.Begin? || (who in w.views ==> w.views[who].revision < seen.revision)
  }

  /** A minted write id is not the one last seen. */
  predicate FreshId(w: World, a: Act) {
    match MemoOf(w, a)
    case Nothing => true
    case Memo(who, seen) => a.Begin? || (who in w.views ==> w.views[who].writeId != seen.writeId)
  }

  ghost predicate NeverBehind(w: World, acts: seq<Act>)
    decreases |acts|
  {
    acts == [] || (NotBehind(w, acts[0]) && NeverBehind(Next(w, acts[0]), acts[1..]))
  }

  ghost predicate FreshIds(w: World, acts: seq<Act>)
    decreases |acts|
  {
    acts == [] || (FreshId(w, acts[0]) && FreshIds(Next(w, acts[0]), acts[1..]))
  }

  ghost predicate AllMonotone(memory: Memory) {
    forall who :: Monotone(MemoryOf(memory, who))
  }

  /** An act writes the view and the memory together, or neither. */
  lemma MemoIsRecorded(w: World, a: Act)
    ensures var w' := Next(w, a);
            match MemoOf(w, a)
            case Nothing => w'.views == w.views && w'.memory == w.memory
            case Memo(who, seen) =>
              && w'.memory == Recorded(w.memory, who, seen)
              && who in w'.views && w'.views == w.views[who := w'.views[who]]
              && Seen(w'.views[who].revision, w'.views[who].writeId) == seen
  {
    hide Recorded;
  }

  /** Begin never breaks a memory, in any world: the conflict check lets through only what is not older than,
      nor a rival of, the stored view. */
  lemma BeginIsAdmitted(w: World, a: Act)
    requires a.Begin? && MemoOf(w, a).Memo?
    ensures var memo := MemoOf(w, a);
            memo.who in w.views ==> w.views[memo.who].revision < memo.seen.revision
                                    || Seen(w.views[memo.who].revision, w.views[memo.who].writeId) == memo.seen
  {}

  /** One act keeps every memory monotone exactly when it is not behind. */
  lemma ActKeepsIff(w: World, a: Act)
    requires Remembered(w.views, w.memory) && FreshId(w, a)
    ensures NotBehind(w, a) ==> Remembered(Next(w, a).views, Next(w, a).memory)
    ensures !NotBehind(w, a) ==> !AllMonotone(Next(w, a).memory)
  {
    MemoIsRecorded(w, a);
    hide Next, Monotone;
    var memo, w' := MemoOf(w, a), Next(w, a);
    if memo.Memo? {
      var who := memo.who;
      assert MemoryFits(w.views, w.memory, who);
      RememberKeepsIff(MemoryOf(w.memory, who), memo.seen);
      assert MemoryOf(w'.memory, who) == MemoryOf(w.memory, who) + [memo.seen];
      if a.Begin? { BeginIsAdmitted(w, a); }
      hide MemoOf;
      if NotBehind(w, a) {
        forall u ensures MemoryFits(w'.views, w'.memory, u) { assert MemoryFits(w.views, w.memory, u); }
      }
    }
  }

  lemma LogGrows(w: World, a: Act, who: Who)
    ensures MemoryOf(w.memory, who) <= MemoryOf(Next(w, a).memory, who)
  {
    MemoIsRecorded(w, a);
    hide Next, MemoOf;
  }

  /** A broken memory stays broken. */
  lemma {:induction false} BrokenStaysBroken(w: World, acts: seq<Act>, who: Who)
    requires !Monotone(MemoryOf(w.memory, who))
    ensures !Monotone(MemoryOf(After(w, acts).memory, who))
    decreases |acts|
  {
    hide Next;
    if acts != [] {
      LogGrows(w, acts[0], who);
      PrefixIsMonotone(MemoryOf(w.memory, who), MemoryOf(Next(w, acts[0]).memory, who));
      BrokenStaysBroken(Next(w, acts[0]), acts[1..], who);
    }
  }

  lemma PrefixIsMonotone(a: seq<Seen>, b: seq<Seen>)
    requires a <= b
    ensures Monotone(b) ==> Monotone(a)
  {}

  lemma MonotoneOf(w: World)
    requires Remembered(w.views, w.memory)
    ensures AllMonotone(w.memory)
  {
    hide Monotone;
    forall who ensures Monotone(MemoryOf(w.memory, who)) { assert MemoryFits(w.views, w.memory, who); }
  }

  /** Over every run with fresh write ids, with any edits, copies, rollbacks, forks and open mutations in between:
      what every controller remembers of every fleet never goes back and never has two write ids at one
      revision, if and only if no commit and no genesis of the run was behind the stored view. */
  lemma {:induction false} MemoryIsMonotoneIff(w: World, acts: seq<Act>)
    requires Remembered(w.views, w.memory) && FreshIds(w, acts)
    ensures AllMonotone(After(w, acts).memory) <==> NeverBehind(w, acts)
    decreases |acts|
  {
    hide Remembered, Monotone, Next, NotBehind, FreshId;
    if acts == [] {
      MonotoneOf(w);
    } else {
      ActKeepsIff(w, acts[0]);
      if NotBehind(w, acts[0]) {
        MemoryIsMonotoneIff(Next(w, acts[0]), acts[1..]);
      } else {
        var who :| !Monotone(MemoryOf(Next(w, acts[0]).memory, who));
        BrokenStaysBroken(Next(w, acts[0]), acts[1..], who);
      }
    }
  }

  lemma OrderlyActIsNotBehind(w: World, a: Act)
    requires WorldOk(w) && Orderly(w, a)
    ensures NotBehind(w, a)
  {
    if a.Finish? && a.job in w.jobs { assert JobFits(w, w.jobs[a.job]); }
  }

  /** A controller that runs one mutation at a time, on workspaces whose fleet id nobody swaps meanwhile, is
      never behind, and so keeps a monotone memory. */
  lemma {:induction false} OrderlyIsNeverBehind(w: World, acts: seq<Act>)
    requires WorldOk(w) && OrderlyRun(w, acts)
    ensures NeverBehind(w, acts) && AllMonotone(After(w, acts).memory)
    decreases |acts|
  {
    hide Remembered, JobsFit, Monotone, Next, Orderly, NotBehind;
    if acts == [] {
      MonotoneOf(w);
    } else {
      OrderlyActIsNotBehind(w, acts[0]);
      NextOk(w, acts[0]);
      OrderlyIsNeverBehind(Next(w, acts[0]), acts[1..]);
    }
  }

  /** A finish on its own, in any world: it keeps the memory exactly when the view stored for the fleet it
      commits to is not past the revision it replaces. */
  lemma FinishKeepsMemoryIff(w: World, a: Act)
    requires a.Finish? && a.job in w.jobs && CasHolds(w, w.jobs[a.job])
    requires Remembered(w.views, w.memory)
    requires var j := w.jobs[a.job];
             var who := Who(j.controller, w.homes[j.home].contents.manifest.value.fleetId);
             who in w.views ==> w.views[who].writeId != a.writeId
    ensures var j := w.jobs[a.job];
            var who := Who(j.controller, w.homes[j.home].contents.manifest.value.fleetId);
            Monotone(MemoryOf(Next(w, a).memory, who)) <==> who in w.views ==> w.views[who].revision <= j.revision
  {
    var j := w.jobs[a.job];
    var m := w.homes[j.home].contents.manifest.value;
    var who := Who(j.controller, m.fleetId);
    assert MemoryFits(w.views, w.memory, who);
    hide Monotone, Remembered;
    RememberKeepsIff(MemoryOf(w.memory, who), Seen(m.revision + 1, a.writeId));
    assert MemoryOf(Next(w, a).memory, who) == MemoryOf(w.memory, who) + [Seen(m.revision + 1, a.writeId)];
  }

  /** The lock is per workspace directory but the memory is per controller: two mutations of two copies,
      one inside the other, make a controller's memory go back. */
  lemma TwoCopiesAtOnce(home: Home, far: Home, c: nat, wid: WriteId, rest: string)
    requires home.contents.manifest.Some? && far.contents.manifest.Some?
    requires home.digest == Sha256(home.contents) && far.digest == Sha256(far.contents)
    requires home.contents.manifest.value.fleetId == far.contents.manifest.value.fleetId
    requires home.contents.manifest.value.revision + 1 < far.contents.manifest.value.revision
    ensures var w := World(map[0 := home, 1 := far], map[], map[], map[]);
            var who := Who(c, home.contents.manifest.value.fleetId);
            && WorldOk(w)
            && !Monotone(MemoryOf(After(w, [Begin(0, c, 0), Begin(1, c, 1), Abandon(1), Finish(0, wid, rest)]).memory, who))
  {
    var w := World(map[0 := home, 1 := far], map[], map[], map[]);
    var m, n := home.contents.manifest.value, far.contents.manifest.value;
    var who := Who(c, m.fleetId);
    var a0, a1, a2, a3 := Begin(0, c, 0), Begin(1, c, 1), Abandon(1), Finish(0, wid, rest);
    var w1 := Next(w, a0);
    var w2 := Next(w1, a1);
    var w3 := Next(w2, a2);
    var w4 := Next(w3, a3);
    FourSteps(w, a0, a1, a2, a3);
    hide After;
    assert MemoryOf(w1.memory, who) == [Seen(m.revision, m.writeId)];
    assert MemoryOf(w2.memory, who) == [Seen(m.revision, m.writeId), Seen(n.revision, n.writeId)];
    assert MemoryOf(w4.memory, who) == MemoryOf(w2.memory, who) + [Seen(m.revision + 1, wid)];
    assert MemoryOf(w4.memory, who)[1].revision > MemoryOf(w4.memory, who)[2].revision;
  }

  lemma OneStep(w: World, a: Act, rest: seq<Act>)
    ensures After(w, [a] + rest) == After(Next(w, a), rest)
  {
    assert ([a] + rest)[1..] == rest;
  }

  lemma FourSteps(w: World, a: Act, b: Act, c: Act, d: Act)
    ensures After(w, [a, b, c, d]) == Next(Next(Next(Next(w, a), b), c), d)
  {
    hide Next;
    assert [a, b, c, d] == [a] + ([b] + ([c] + ([d] + [])));
    OneStep(w, a, [b] + ([c] + ([d] + [])));
    OneStep(Next(w, a), b, [c] + ([d] + []));
    OneStep(Next(Next(w, a), b), c, [d] + []);
    OneStep(Next(Next(Next(w, a), b), c), d, []);
  }

  /* ---------- commits, and edits made outside them ---------- */

  ghost predicate Sealed(w: World, home: nat) {
    home in w.homes && w.homes[home].digest == Sha256(w.homes[home].contents)
  }

  /** A finish either changes no workspace, or replaces exactly the manifest it started from by
      revision + 1 naming it as parent, keeps every other file, and seals the result. */
  lemma FinishReplaces(w: World, a: Act)
    requires a.Finish? && a.job in w.jobs
    ensures var j, w' := w.jobs[a.job], Next(w, a);
            if CasHolds(w, j) then
              var was, now := w.homes[j.home].contents, w'.homes[j.home].contents;
              && was.manifest.value.revision == j.revision && was.manifest.value.writeId == j.writeId
              && now.manifest.Some? && now.manifest.value.revision == j.revision + 1
              && now.manifest.value.parent == Some((j.revision, j.writeId)) && now.manifest.value.writeId == a.writeId
              && now == was.(manifest := now.manifest) && Sealed(w', j.home)
              && w'.homes == w.homes[j.home := w'.homes[j.home]]
            else w'.homes == w.homes
  {}

  predicate TouchesOnly(a: Act, home: nat) {
    match a
    case Edit(h, _) => h != home
    case _ => true
  }

  ghost predicate NoJobOn(w: World, home: nat) {
    forall i :: i in w.jobs ==> w.jobs[i].home != home
  }

  /** An edit outside any mutation that leaves the stored digest in place and changes any portable file is
      noticed: whoever tries, however often, every later mutation of that workspace refuses. */
  lemma {:induction false} OutsideEditIsNoticed(w: World, home: nat, acts: seq<Act>)
    requires home in w.homes && !Sealed(w, home) && w.homes[home].contents.manifest.Some? && NoJobOn(w, home)
    requires forall a :: a in acts ==> TouchesOnly(a, home)
    ensures var w' := After(w, acts);
            home in w'.homes && w'.homes[home] == w.homes[home] && NoJobOn(w', home)
    decreases |acts|
  {
    if acts != [] {
      assert acts[0] in acts;
      RefusedHere(w, home, acts[0]);
      OutsideEditIsNoticed(Next(w, acts[0]), home, acts[1..]);
    }
  }

  lemma RefusedHere(w: World, home: nat, a: Act)
    requires home in w.homes && !Sealed(w, home) && w.homes[home].contents.manifest.Some? && NoJobOn(w, home)
    requires TouchesOnly(a, home)
    ensures var w' := Next(w, a); home in w'.homes && w'.homes[home] == w.homes[home] && NoJobOn(w', home)
  {}

  /** The limit of that protection: an edit made while a mutation of the workspace is running, which leaves
      revision and write id alone, is sealed into the commit. */
  lemma EditDuringMutationIsSealed(w: World, job: nat, to: Home, writeId: WriteId, rest: string)
    requires job in w.jobs && to.contents.manifest.Some?
    requires to.contents.manifest.value.revision == w.jobs[job].revision
    requires to.contents.manifest.value.writeId == w.jobs[job].writeId
    ensures var home := w.jobs[job].home;
            var w' := Next(Next(w, Edit(home, to)), Finish(job, writeId, rest));
            && Sealed(w', home) && w'.homes[home].contents.fleet == to.contents.fleet
            && w'.homes[home].contents.hosts == to.contents.hosts && w'.homes[home].contents.history == to.contents.history
  {}

  /* ---------- the digest stands for the state ---------- */

  /** The files behind a state, with the manifest rendered by `text`. */
  function FilesOf(c: Contents, text: Manifest -> string): Files {
    Files(c.fleet, if c.manifest.Some? then Some(text(c.manifest.value)) else None, c.hosts, c.history)
  }

  /** Equal hash inputs mean equal states, for NUL-free files and any rendering of the manifest that is
      NUL-free and loses nothing; so a collision-free hash of the input is a digest of the state. */
  lemma HashInputIsTheState(a: Contents, b: Contents, text: Manifest -> string)
    requires forall m {:trigger text(m)} :: NulFree(text(m))
    requires forall m, n {:trigger text(m), text(n)} :: text(m) == text(n) ==> m == n
    requires NulFreeFiles(FilesOf(a, text)) && NulFreeFiles(FilesOf(b, text))
    ensures Preimage(FilesOf(a, text)) == Preimage(FilesOf(b, text)) <==> a == b
  {
    if Preimage(FilesOf(a, text)) == Preimage(FilesOf(b, text)) {
      PreimageIsInjective(FilesOf(a, text), FilesOf(b, text));
    }
  }

  /* ---------- the code of one mutation ---------- */

  datatype Outcome = Updated(m: Manifest) | Refused(conflict: Conflict) | NoWorkspace | CasRejected | MutatorRaised

  predicate HasManifest(homes: map<nat, Home>, home: nat) {
    home in homes && homes[home].contents.manifest.Some?
  }

  predicate SameWrite(now: Option<Manifest>, m: Manifest) {
    now.Some? && now.value.revision == m.revision && now.value.writeId == m.writeId
  }

  /** The controller's stored view is the workspace as it stands. */
  predicate AsRead(h: Home, views: Views, controller: nat) {
    h.contents.manifest.Some? &&
    var m := h.contents.manifest.value;
    var who := Who(controller, m.fleetId);
    who in views && views[who].revision == m.revision && views[who].writeId == m.writeId && views[who].digest == h.digest
  }

  /** `now` is the next revision of `was`, names it as its parent, and keeps the fleet the mutator left. */
  predicate Succeeds(was: Manifest, left: Home, now: Manifest, writeId: WriteId, rest: string) {
    && left.contents.manifest.Some? && now.fleetId == left.contents.manifest.value.fleetId
    && now.revision == was.revision + 1 && now.writeId == writeId && now.rest == rest
    && now.parent == Some((was.revision, was.writeId))
  }

  /** One machine: the workspace directories it can reach, its views, and the reentrancy counter. */
  class Machine {

    const controller: nat
    var homes: map<nat, Home>
    var views: Views
    var depth: nat
    ghost var memory: Memory

    constructor (controller: nat, homes: map<nat, Home>)
      ensures WorldOf() == World(homes, map[], map[], map[]) && depth == 0 && this.controller == controller
    {
      this.controller := controller;
      this.homes := homes;
      views, depth, memory := map[], 0, map[];
    }

    ghost function WorldOf(): World
      reads this
    {
      World(homes, views, map[], memory)
    }

    method RememberView(m: Manifest, digest: Digest)
      modifies this`views, this`memory
      ensures WorldOf() == Remember(old(WorldOf()), Who(controller, m.fleetId), m, digest)
    {
      var who := Who(controller, m.fleetId);
      views := views[who := View(m.revision, m.writeId, digest)];
      memory := Recorded(memory, who, Seen(m.revision, m.writeId));
    }

    /** workspace_mutation. `left` is what the directory holds when the mutator, and whoever else wrote to
        it meanwhile, is done. */
    method WorkspaceMutation(home: nat, left: Home, raised: bool, writeId: WriteId, rest: string) returns (r: Outcome)
      modifies this
      ensures depth == old(depth)
      ensures r.NoWorkspace? <==> !HasManifest(old(homes), home)
      ensures HasManifest(old(homes), home) ==>
                var h := old(homes)[home];
                var m := h.contents.manifest.value;
                var who := Who(controller, m.fleetId);
                var sealed := h.digest == Sha256(h.contents);
                var older := who in old(views) && m.revision < old(views)[who].revision;
                var rival := who in old(views) && m.revision == old(views)[who].revision && m.writeId != old(views)[who].writeId;
                && (r.Refused? <==> !sealed || older || rival)
                && (r == Refused(Inconsistent) <==> !sealed)
                && (r == Refused(Rollback) <==> sealed && older)
                && (r == Refused(Diverged) <==> sealed && rival)
                && (r.MutatorRaised? <==> !r.Refused? && raised)
                && (r.CasRejected? <==> !r.Refused? && !raised && !SameWrite(left.contents.manifest, m))
      ensures r.MutatorRaised? || r.CasRejected? ==> AsRead(old(homes)[home], views, controller)
      ensures r.Updated? ==> Succeeds(old(homes)[home].contents.manifest.value, left, r.m, writeId, rest)
                             && home in homes && AsRead(homes[home], views, controller)
      ensures r.NoWorkspace? || r.Refused? ==> WorldOf() == old(WorldOf()) == Next(old(WorldOf()), Begin(0, controller, home))
      ensures r.MutatorRaised? ==> raised && WorldOf() == After(old(WorldOf()), [Begin(0, controller, home), Edit(home, left), Abandon(0)])
      ensures r.Updated? || r.CasRejected? ==>
                WorldOf() == After(old(WorldOf()), [Begin(0, controller, home), Edit(home, left), Finish(0, writeId, rest)])
      ensures r.Updated? ==> home in homes && homes[home] == Home(left.contents.(manifest := Some(r.m)), Sha256(left.contents.(manifest := Some(r.m))))
      ensures r.CasRejected? ==> home in homes && homes[home] == left
    {
      if home !in homes || homes[home].contents.manifest.None? { return NoWorkspace; }
      var h := homes[home];
      var m := h.contents.manifest.value;
      var conflict := DetectConflict(h, m, ViewOf(views, Who(controller, m.fleetId)));
      if conflict != Fine { return Refused(conflict); }
      ghost var w0 := WorldOf();
      RememberView(m, h.digest);
      depth := depth + 1;
      homes := homes[home := left];
      depth := depth - 1;
      MutationRuns(w0, controller, home, left, writeId, rest);
      hide After, DetectConflict, Remember;
      if raised { return MutatorRaised; }
      r := CommitMutation(home, m, writeId, rest);
    }

    /** The part of workspace_mutation after the mutator returned: re-read, compare, commit. */
    method CommitMutation(home: nat, m: Manifest, writeId: WriteId, rest: string) returns (r: Outcome)
      requires home in homes
      modifies this`homes, this`views, this`memory
      ensures if SameWrite(old(homes)[home].contents.manifest, m) then
                var left := old(homes)[home];
                && r.Updated? && r.m == Committed(left.contents.manifest.value, writeId, rest)
                && Succeeds(m, left, r.m, writeId, rest)
                && homes == old(homes)[home := Home(left.contents.(manifest := Some(r.m)), Sha256(left.contents.(manifest := Some(r.m))))]
                && WorldOf() == Remember(old(WorldOf()).(homes := homes), Who(controller, r.m.fleetId), r.m, homes[home].digest)
                && AsRead(homes[home], views, controller)
              else r.CasRejected? && WorldOf() == old(WorldOf())
    {
      var left := homes[home];
      var again := left.contents.manifest;
      if again.None? || again.value.revision != m.revision || again.value.writeId != m.writeId { return CasRejected; }
      var updated := Committed(again.value, writeId, rest);
      var contents := left.contents.(manifest := Some(updated));
      homes := homes[home := Home(contents, Sha256(contents))];
      RememberView(updated, Sha256(contents));
      return Updated(updated);
    }
  }

  /** The protocol's runs of one mutation that was admitted. */
  lemma MutationRuns(w: World, controller: nat, home: nat, left: Home, writeId: WriteId, rest: string)
    requires HasManifest(w.homes, home) && w.jobs == map[]
    requires var h := w.homes[home];
             var m := h.contents.manifest.value;
             DetectConflict(h, m, ViewOf(w.views, Who(controller, m.fleetId))) == Fine
    ensures var h := w.homes[home];
            var m := h.contents.manifest.value;
            var begun := Remember(w, Who(controller, m.fleetId), m, h.digest).(homes := w.homes[home := left]);
            && After(w, [Begin(0, controller, home), Edit(home, left), Abandon(0)]) == begun
            && After(w, [Begin(0, controller, home), Edit(home, left), Finish(0, writeId, rest)])
               == if !SameWrite(left.contents.manifest, m) then begun else
                    var updated := Committed(left.contents.manifest.value, writeId, rest);
                    var contents := left.contents.(manifest := Some(updated));
                    Remember(begun.(homes := w.homes[home := Home(contents, Sha256(contents))]), Who(controller, updated.fleetId), updated, Sha256(contents))
  {
    var a, b := Begin(0, controller, home), Edit(home, left);
    ThreeSteps(w, a, b, Abandon(0));
    ThreeSteps(w, a, b, Finish(0, writeId, rest));
    hide After, DetectConflict;
    var w2 := Next(Next(w, a), b);
    assert w2.jobs - {0} == map[];
    assert w2.homes[home := left] == w2.homes;
  }

  lemma ThreeSteps(w: World, a: Act, b: Act, c: Act)
    ensures After(w, [a, b, c]) == Next(Next(Next(w, a), b), c)
  {
    hide Next;
    assert [a, b, c] == [a] + ([b] + ([c] + []));
    OneStep(w, a, [b] + ([c] + []));
    OneStep(Next(w, a), b, [c] + []);
    OneStep(Next(Next(w, a), b), c, []);
  }
}
