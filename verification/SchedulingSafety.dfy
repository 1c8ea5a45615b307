/** What holds in every reachable state of the event loop. */
module SchedulingSafety {
  import opened Scheduling

  // ------------------------------------------------------------------ per-task facts

  /** The resources a task holds at its program point. */
  function Holds(task: Task): set<Resource>
  {
    match task
    case Message(sid, mpc, _) =>
      (match mpc
       case Admitting => {Counter}
       case RollingBack => {Counter}
       case Releasing => {Counter}
       case Transcribing => {SessionLock(sid)}
       case Streaming => {SessionLock(sid)}
       case TextDone => {SessionLock(sid)}
       case GpuWait => {SessionLock(sid)}
       case Synthesising => {SessionLock(sid), Gpu}
       case DittoWait => {SessionLock(sid)}
       case Rendering => {SessionLock(sid), Ditto}
       case Leaving => {SessionLock(sid)}
       case _ => {})
    case End(sid, epc) => if epc.Popping? || epc.Removing? then {SessionLock(sid)} else {}
    case Persona(ppc, _) =>
      if ppc.PersonaTranscribing? then {Gpu} else if ppc.PersonaRendering? then {Ditto} else {}
  }

  /** Admitted and not yet released: 1, otherwise 0. */
  function Counted(task: Task): nat
  {
    if task.Message? && !(task.mpc in {Lookup, AdmitWait, Admitting, NotFound, Busy, SaveFailed, Served})
    then 1 else 0
  }

  /** Steps a task can still make. */
  function Rank(task: Task): nat
  {
    match task
    case Message(_, mpc, n) =>
      (match mpc
       case Lookup => 16 + n
       case AdmitWait => 15 + n
       case Admitting => 14 + n
       case Saving => 13 + n
       case RollbackWait => 2
       case RollingBack => 1
       case Ready => 12 + n
       case LockWait => 11 + n
       case Transcribing => 10 + n
       case Streaming => 9 + n
       case TextDone => 8
       case GpuWait => 7
       case Synthesising => 6
       case DittoWait => 5
       case Rendering => 4
       case Leaving => 3
       case ReleaseWait => 2
       case Releasing => 1
       case _ => 0)
    case End(_, epc) =>
      (match epc
       case EndLookup => 4
       case EndLockWait => 3
       case Popping => 2
       case Removing => 1
       case _ => 0)
    case Persona(ppc, n) =>
      (match ppc
       case Start => 3 * n + 4
       case PersonaGpuWait => 3 * n + 3
       case PersonaTranscribing => 3 * n + 2
       case Clip => 3 * n + 1
       case PersonaDittoWait => 3 * n + 3
       case PersonaRendering => 3 * n + 2
       case PersonaDone => 0)
  }

  predicate Finished(task: Task)
  {
    match task
    case Message(_, mpc, _) => mpc in {NotFound, Busy, SaveFailed, Served, MessagePc.Dropped}
    case End(_, epc) => epc in {EndNotFound, Ended, EndCancelled, EndInterrupted}
    case Persona(ppc, _) => ppc == PersonaDone
  }

  /** This end request took its session out of the store. */
  predicate Popped(task: Task)
  {
    task.End? && (task.epc.Removing? || task.epc.Ended? || task.epc.EndInterrupted?)
  }

  /** The move takes only what the task does not hold, drops only what it holds, and accounts for both. */
  ghost predicate HoldsAddUp(task: Task, m: Move)
    requires m.Move?
  {
    && m.does.take !! Holds(task) && m.does.drop <= Holds(task)
    && Holds(m.to) == Holds(task) + m.does.take - m.does.drop
  }

  lemma MessageHolds(s: State, task: Task, c: Choice)
    requires task.Message? && MessageMove(s, task, c).Move?
    ensures HoldsAddUp(task, MessageMove(s, task, c))
  {
  }

  lemma EndHolds(s: State, task: Task, c: Choice)
    requires task.End? && EndMove(s, task, c).Move?
    ensures HoldsAddUp(task, EndMove(s, task, c))
  {
  }

  lemma PersonaHolds(task: Task, c: Choice)
    requires task.Persona? && PersonaMove(task, c).Move?
    ensures HoldsAddUp(task, PersonaMove(task, c))
  {
  }

  /** Every step of every handler keeps the account of what its task holds. */
  lemma HoldsFacts(s: State, task: Task, c: Choice)
    requires TaskMove(s, task, c).Move?
    ensures HoldsAddUp(task, TaskMove(s, task, c))
  {
    match task
    case Message(_, _, _) => MessageHolds(s, task, c);
    case End(_, _) => EndHolds(s, task, c);
    case Persona(_, _) => PersonaHolds(task, c);
  }

  /** The counter moves with the task, up only while it is below its bound. */
  lemma CountFacts(s: State, task: Task, c: Choice)
    requires TaskMove(s, task, c).Move?
    ensures var m := TaskMove(s, task, c);
            && Counted(m.to) == Counted(task) + m.does.count
            && m.does.count <= (if s.active < MAX_CONCURRENT_MESSAGES then 1 else 0)
  {
  }

  /** Every step uses up some of the task, whatever it returns; a finished task makes none. */
  lemma RankFacts(s: State, task: Task, c: Choice)
    requires TaskMove(s, task, c).Move?
    ensures Rank(TaskMove(s, task, c).to) < Rank(task) && !Finished(task)
  {
  }

  /** Only an end request holding the lock of a stored session removes it, and only once. */
  lemma RemovalFacts(s: State, task: Task, c: Choice)
    requires TaskMove(s, task, c).Move?
    ensures var m := TaskMove(s, task, c);
            && m.does.pop <= s.store
            && (Popped(task) ==> Popped(m.to) && m.to.sid == task.sid && m.does.pop == {})
            && (!Popped(task) ==> m.does.pop == if Popped(m.to) then {m.to.sid} else {})
  {
  }

  /** Directories are made and removed only under the session's lock. */
  lemma DirectoryFacts(s: State, task: Task, c: Choice)
    requires TaskMove(s, task, c).Move?
    ensures var m := TaskMove(s, task, c);
            && (forall sid | sid in m.does.mkdir + m.does.rmdir :: SessionLock(sid) in Holds(task))
            && (m.to.End? && m.to.epc.Ended? ==>
                  m.to.sid in m.does.rmdir || (m.to.sid !in s.dirs && m.to.sid !in m.does.mkdir))
  {
  }

  // ------------------------------------------------------------------ sums over the tasks

  function Sum(f: Task -> nat, tasks: seq<Task>): nat
  {
    if tasks == [] then 0 else f(tasks[0]) + Sum(f, tasks[1..])
  }

  lemma {:induction false} SumUpdate(f: Task -> nat, tasks: seq<Task>, t: TaskId, task: Task)
    requires t < |tasks|
    ensures Sum(f, tasks[t := task]) == Sum(f, tasks) - f(tasks[t]) + f(task)
  {
    if t == 0 {
      assert tasks[t := task][1..] == tasks[1..];
    } else {
      assert tasks[t := task][1..] == tasks[1..][t - 1 := task];
      SumUpdate(f, tasks[1..], t - 1, task);
    }
  }

  lemma {:induction false} SumZero(f: Task -> nat, tasks: seq<Task>)
    requires forall t | 0 <= t < |tasks| :: f(tasks[t]) == 0
    ensures Sum(f, tasks) == 0
  {
    if tasks != [] { SumZero(f, tasks[1..]); }
  }

  // ------------------------------------------------------------------ the invariant

  /** A resource is owned by the one task whose program point says so, and by no other. */
  ghost predicate OwnersMatch(s: State)
  {
    && (forall r | r in s.owner :: s.owner[r] < |s.tasks|)
    && (forall t: TaskId, r | t < |s.tasks| :: r in Holds(s.tasks[t]) <==> r in s.owner && s.owner[r] == t)
  }

  ghost predicate CounterMatches(s: State)
  {
    0 <= s.active <= MAX_CONCURRENT_MESSAGES && s.active == Sum(Counted, s.tasks)
  }

  /** A session is in the store, swept, or removed by exactly one end request. */
  ghost predicate RemovedOnce(s: State)
  {
    && s.store + s.swept <= s.created && s.store !! s.swept
    && (forall t: TaskId | t < |s.tasks| && Popped(s.tasks[t]) ::
          s.tasks[t].sid in s.created && s.tasks[t].sid !in s.store && s.tasks[t].sid !in s.swept)
    && (forall t: TaskId, u: TaskId | t < u < |s.tasks| && Popped(s.tasks[t]) && Popped(s.tasks[u]) ::
          s.tasks[t].sid != s.tasks[u].sid)
  }

  ghost predicate Inv(s: State)
  {
    OwnersMatch(s) && CounterMatches(s) && RemovedOnce(s)
  }

  lemma InitialInv(s: State)
    requires Initial(s)
    ensures Inv(s)
  {
    forall t: TaskId | t < |s.tasks|
      ensures Holds(s.tasks[t]) == {} && Counted(s.tasks[t]) == 0 && !Popped(s.tasks[t])
    {
      assert Fresh(s.tasks[t]);
    }
    SumZero(Counted, s.tasks);
  }

  lemma OtherOwnerKept(s: State, t: TaskId, m: Move, u: TaskId, r: Resource)
    requires OwnersMatch(s) && t < |s.tasks| && u < |s.tasks| && u != t && m.Move?
    requires m.does.take !! s.owner.Keys && m.does.drop <= Holds(s.tasks[t])
    ensures var s' := Apply(s, t, m); r in Holds(s'.tasks[u]) <==> r in s'.owner && s'.owner[r] == u
  {
    assert r in Holds(s.tasks[t]) <==> r in s.owner && s.owner[r] == t;
    assert r in Holds(s.tasks[u]) <==> r in s.owner && s.owner[r] == u;
  }

  lemma OwnerKept(s: State, t: TaskId, m: Move, r: Resource)
    requires OwnersMatch(s) && t < |s.tasks| && m.Move?
    requires m.does.take !! s.owner.Keys && HoldsAddUp(s.tasks[t], m)
    ensures var s' := Apply(s, t, m); r in Holds(s'.tasks[t]) <==> r in s'.owner && s'.owner[r] == t
  {
    assert r in Holds(s.tasks[t]) <==> r in s.owner && s.owner[r] == t;
  }

  lemma OwnersKept(s: State, t: TaskId, c: Choice)
    requires OwnersMatch(s) && Enabled(s, Run(t, c))
    ensures OwnersMatch(Next(s, Run(t, c)))
  {
    HoldsFacts(s, s.tasks[t], c);
    var s' := Next(s, Run(t, c));
    forall u: TaskId, r | u < |s'.tasks|
      ensures r in Holds(s'.tasks[u]) <==> r in s'.owner && s'.owner[r] == u
    {
      var m := TaskMove(s, s.tasks[t], c);
      if u == t { OwnerKept(s, t, m, r); } else { OtherOwnerKept(s, t, m, u, r); }
    }
  }

  lemma CounterKept(s: State, t: TaskId, c: Choice)
    requires CounterMatches(s) && Enabled(s, Run(t, c))
    ensures CounterMatches(Next(s, Run(t, c)))
  {
    var m := TaskMove(s, s.tasks[t], c);
    CountFacts(s, s.tasks[t], c);
    SumUpdate(Counted, s.tasks, t, m.to);
  }

  lemma RemovalKept(s: State, t: TaskId, c: Choice)
    requires RemovedOnce(s) && Enabled(s, Run(t, c))
    ensures RemovedOnce(Next(s, Run(t, c)))
  {
    RemovalFacts(s, s.tasks[t], c);
    var s' := Next(s, Run(t, c));
    forall u: TaskId | u < |s'.tasks| && Popped(s'.tasks[u])
      ensures s'.tasks[u].sid in s'.created && s'.tasks[u].sid !in s'.store && s'.tasks[u].sid !in s'.swept
    {
    }
    forall u: TaskId, v: TaskId | u < v < |s'.tasks| && Popped(s'.tasks[u]) && Popped(s'.tasks[v])
      ensures s'.tasks[u].sid != s'.tasks[v].sid
    {
    }
  }

  /** Every step of every task, session start, sweep and deletion keeps the invariant. */
  lemma StepInv(s: State, l: Label)
    requires Inv(s) && Enabled(s, l)
    ensures Inv(Next(s, l))
  {
    match l
    case Run(t, c) =>
      OwnersKept(s, t, c);
      CounterKept(s, t, c);
      RemovalKept(s, t, c);
    case Begin(sid) =>
    case Sweep(expired) =>
    case DeletePersona(sessions) =>
  }

  lemma {:induction false} RunInv(s: State, run: seq<Label>)
    requires Inv(s) && Valid(s, run)
    ensures Inv(After(s, run))
    decreases |run|
  {
    if run != [] {
      StepInv(s, run[0]);
      RunInv(Next(s, run[0]), run[1..]);
    }
  }

  lemma ReachableInv(s: State)
    requires Reachable(s)
    ensures Inv(s)
  {
    var start: State, run: seq<Label> :| Initial(start) && Valid(start, run) && After(start, run) == s;
    InitialInv(start);
    RunInv(start, run);
  }

  lemma {:induction false} RunExtends(s: State, run: seq<Label>, l: Label)
    requires Valid(s, run) && Enabled(After(s, run), l)
    ensures Valid(s, run + [l]) && After(s, run + [l]) == Next(After(s, run), l)
    decreases |run|
  {
    if run == [] {
      assert [] + [l] == [l] && Valid(Next(s, l), []);
    } else {
      RunExtends(Next(s, run[0]), run[1..], l);
      assert (run + [l])[1..] == run[1..] + [l];
    }
  }

  /** A step from a reachable state leads to a reachable state. */
  lemma ReachableNext(s: State, l: Label)
    requires Reachable(s) && Enabled(s, l)
    ensures Reachable(Next(s, l))
  {
    var start: State, run: seq<Label> :| Initial(start) && Valid(start, run) && After(start, run) == s;
    RunExtends(start, run, l);
  }

  // ------------------------------------------------------------------ theorems

  predicate IsRendering(task: Task)
  {
    (task.Message? && task.mpc.Rendering?) || (task.Persona? && task.ppc.PersonaRendering?)
  }

  predicate IsOnGpu(task: Task)
  {
    (task.Message? && task.mpc.Synthesising?) || (task.Persona? && task.ppc.PersonaTranscribing?)
  }

  /** Inside `process_message` of this session. */
  predicate IsProcessing(task: Task, sid: SessionId)
  {
    task.Message? && task.sid == sid && task.mpc in
      {Transcribing, Streaming, TextDone, GpuWait, Synthesising, DittoWait, MessagePc.Rendering, Leaving}
  }

  /** Between the pop and the end of `rmtree` of this session. */
  predicate IsRemoving(task: Task, sid: SessionId)
  {
    task.End? && task.sid == sid && (task.epc.Popping? || task.epc.Removing?)
  }

  /** At most one Ditto render, and at most one of speech synthesis and transcription. */
  lemma ExclusiveModels(s: State, t: TaskId, u: TaskId)
    requires Reachable(s) && t < u < |s.tasks|
    ensures !(IsRendering(s.tasks[t]) && IsRendering(s.tasks[u]))
    ensures !(IsOnGpu(s.tasks[t]) && IsOnGpu(s.tasks[u]))
  {
    ReachableInv(s);
    assert Ditto in Holds(s.tasks[t]) ==> s.owner[Ditto] == t;
    assert Ditto in Holds(s.tasks[u]) ==> s.owner[Ditto] == u;
    assert Gpu in Holds(s.tasks[t]) ==> s.owner[Gpu] == t;
    assert Gpu in Holds(s.tasks[u]) ==> s.owner[Gpu] == u;
  }

  /** On one session, two messages never overlap, nor does a message overlap a removal. */
  lemma OneAtATimePerSession(s: State, t: TaskId, u: TaskId, sid: SessionId)
    requires Reachable(s) && t < |s.tasks| && u < |s.tasks| && t != u
    ensures !(IsProcessing(s.tasks[t], sid) && IsProcessing(s.tasks[u], sid))
    ensures !(IsProcessing(s.tasks[t], sid) && IsRemoving(s.tasks[u], sid))
    ensures !(IsRemoving(s.tasks[t], sid) && IsRemoving(s.tasks[u], sid))
  {
    ReachableInv(s);
    var r := SessionLock(sid);
    assert r in Holds(s.tasks[t]) ==> s.owner[r] == t;
    assert r in Holds(s.tasks[u]) ==> s.owner[r] == u;
  }

  /**
    * While an end request is removing a session, no step of anybody else makes its directory, and
    * only the deletion of its persona takes it away.
    */
  lemma RemovalUndisturbed(s: State, t: TaskId, l: Label, sid: SessionId)
    requires Reachable(s) && t < |s.tasks| && IsRemoving(s.tasks[t], sid)
    requires Enabled(s, l) && !(l.Run? && l.t == t)
    ensures sid in Next(s, l).dirs <==> sid in s.dirs && !(l.DeletePersona? && sid in l.sessions)
    ensures Next(s, l).tasks[t] == s.tasks[t]
  {
    ReachableInv(s);
    if l.Run? {
      DirectoryFacts(s, s.tasks[l.t], l.c);
      var r := SessionLock(sid);
      assert r in Holds(s.tasks[t]) && s.owner[r] == t;
    }
  }

  /** At the instant an end request succeeds, its session and its directory are gone. */
  lemma EndSucceedsClean(s: State, t: TaskId, c: Choice)
    requires Reachable(s) && Enabled(s, Run(t, c))
    requires var task := Next(s, Run(t, c)).tasks[t]; task.End? && task.epc.Ended?
    ensures var s' := Next(s, Run(t, c)); s'.tasks[t].sid !in s'.store && s'.tasks[t].sid !in s'.dirs
  {
    ReachableInv(s);
    StepInv(s, Run(t, c));
    DirectoryFacts(s, s.tasks[t], c);
    assert Popped(Next(s, Run(t, c)).tasks[t]);
  }

  /**
    * A session id is removed at most once: of all the end requests for it at most one removes it,
    * none if it was swept, and then the others answer not-found when they get the lock.
    */
  lemma RemovedAtMostOnce(s: State, t: TaskId, u: TaskId)
    requires Reachable(s) && t < |s.tasks| && u < |s.tasks| && t != u
    requires s.tasks[t].End? && s.tasks[u].End? && s.tasks[t].sid == s.tasks[u].sid
    ensures !(Popped(s.tasks[t]) && Popped(s.tasks[u]))
    ensures Popped(s.tasks[t]) ==> s.tasks[t].sid !in s.swept
    ensures Popped(s.tasks[t]) && Finished(s.tasks[u]) ==> s.tasks[u].epc in {EndNotFound, EndCancelled}
    ensures (Popped(s.tasks[t]) || s.tasks[u].sid in s.swept) && s.tasks[u].epc.Popping? ==>
              Enabled(s, Run(u, Ok)) && Next(s, Run(u, Ok)).tasks[u].epc == EndNotFound
  {
    ReachableInv(s);
    if s.tasks[u].epc.Popping? {
      assert SessionLock(s.tasks[u].sid) in Holds(s.tasks[u]);
    }
  }

  /** The counter is the number of admitted requests not yet released, and never exceeds its bound. */
  lemma CounterIsExact(s: State)
    requires Reachable(s)
    ensures 0 <= s.active <= 5
    ensures s.active == Sum(Counted, s.tasks)
  {
    ReachableInv(s);
  }

  /** The request has passed admission. */
  function Admissions(task: Task): nat
  {
    if task.Message? && !(task.mpc in {Lookup, AdmitWait, Admitting, NotFound, Busy}) then 1 else 0
  }

  /** The request has given its place back. */
  function Releases(task: Task): nat
  {
    if task.Message? && task.mpc in {SaveFailed, Served} then 1 else 0
  }

  /** The increments, or with `up` false the decrements, that task `t` makes in a run. */
  function Counts(s: State, run: seq<Label>, t: TaskId, up: bool): nat
    requires Valid(s, run) && t < |s.tasks|
    decreases |run|
  {
    if run == [] then 0
    else
      var mine := if run[0].Run? && run[0].t == t then TaskMove(s, s.tasks[t], run[0].c).does.count else 0;
      (if up && mine > 0 then mine else if !up && mine < 0 then -mine else 0)
      + Counts(Next(s, run[0]), run[1..], t, up)
  }

  function WasDropped(task: Task): nat
  {
    if task.Message? && task.mpc == MessagePc.Dropped then 1 else 0
  }

  /** The request is cancelled after its admission and before its generator has started. */
  predicate Loses(s: State, l: Label)
    requires Enabled(s, l)
  {
    l.Run? && l.c.Cancel? && s.tasks[l.t].Message? && s.tasks[l.t].mpc in {Saving, Ready}
  }

  /** How often a run does that to task `t`. */
  function LossesOf(s: State, run: seq<Label>, t: TaskId): nat
    requires Valid(s, run)
    decreases |run|
  {
    if run == [] then 0
    else (if Loses(s, run[0]) && run[0].t == t then 1 else 0) + LossesOf(Next(s, run[0]), run[1..], t)
  }

  lemma CountMovesOnce(s: State, task: Task, c: Choice)
    requires TaskMove(s, task, c).Move?
    ensures var m := TaskMove(s, task, c);
            && Admissions(m.to) == Admissions(task) + (if m.does.count > 0 then m.does.count else 0)
            && Releases(m.to) == Releases(task) + (if m.does.count < 0 then -m.does.count else 0)
            && WasDropped(m.to) == WasDropped(task)
                 + (if task.Message? && task.mpc in {Saving, Ready} && c.Cancel? then 1 else 0)
  {
  }

  lemma {:induction false} CountsAre(s: State, run: seq<Label>, t: TaskId)
    requires Valid(s, run) && t < |s.tasks|
    ensures |After(s, run).tasks| == |s.tasks|
    ensures Admissions(s.tasks[t]) + Counts(s, run, t, true) == Admissions(After(s, run).tasks[t])
    ensures Releases(s.tasks[t]) + Counts(s, run, t, false) == Releases(After(s, run).tasks[t])
    ensures WasDropped(s.tasks[t]) + LossesOf(s, run, t) == WasDropped(After(s, run).tasks[t])
    decreases |run|
  {
    if run != [] {
      if run[0].Run? && run[0].t == t { CountMovesOnce(s, s.tasks[t], run[0].c); }
      CountsAre(Next(s, run[0]), run[1..], t);
    }
  }

  /**
    * In any run, a request counts itself in at most once and out at most once, out only after in.
    * When it has finished it has done both or neither, except that it never counted itself out if
    * it was cancelled between its admission and the start of its generator.
    */
  lemma CountedInAndOutOnce(s: State, run: seq<Label>, t: TaskId)
    requires Initial(s) && Valid(s, run) && t < |s.tasks|
    ensures t < |After(s, run).tasks|
    ensures Counts(s, run, t, false) <= Counts(s, run, t, true) <= 1
    ensures Finished(After(s, run).tasks[t]) ==>
              Counts(s, run, t, true) == Counts(s, run, t, false) + LossesOf(s, run, t)
  {
    CountsAre(s, run, t);
    assert Fresh(s.tasks[t]);
  }

  /** How often that happens in a run. */
  function Losses(s: State, run: seq<Label>): nat
    requires Valid(s, run)
    decreases |run|
  {
    if run == [] then 0 else (if Loses(s, run[0]) then 1 else 0) + Losses(Next(s, run[0]), run[1..])
  }

  lemma LossStep(s: State, l: Label)
    requires Enabled(s, l)
    ensures Sum(WasDropped, Next(s, l).tasks) == Sum(WasDropped, s.tasks) + if Loses(s, l) then 1 else 0
  {
    if l.Run? { SumUpdate(WasDropped, s.tasks, l.t, TaskMove(s, s.tasks[l.t], l.c).to); }
  }

  lemma {:induction false} LossesAre(s: State, run: seq<Label>)
    requires Valid(s, run)
    ensures Sum(WasDropped, After(s, run).tasks) == Sum(WasDropped, s.tasks) + Losses(s, run)
    decreases |run|
  {
    if run != [] {
      LossStep(s, run[0]);
      LossesAre(Next(s, run[0]), run[1..]);
    }
  }

  lemma {:induction false} SumsCompare(f: Task -> nat, g: Task -> nat, tasks: seq<Task>)
    requires forall t | 0 <= t < |tasks| :: f(tasks[t]) <= g(tasks[t])
    ensures Sum(f, tasks) <= Sum(g, tasks)
  {
    if tasks != [] { SumsCompare(f, g, tasks[1..]); }
  }

  /** A task that owns something has not finished. */
  lemma OwnerUnfinished(s: State, r: Resource)
    requires OwnersMatch(s)
    ensures r in s.owner ==> !Finished(s.tasks[s.owner[r]])
  {
    if r in s.owner { assert r in Holds(s.tasks[s.owner[r]]); }
  }

  /** In a run that has ended every lock is free. */
  lemma QuiescentLocks(s: State)
    requires Reachable(s)
    requires forall t | 0 <= t < |s.tasks| :: Finished(s.tasks[t])
    ensures s.owner == map[]
  {
    ReachableInv(s);
    forall r ensures r !in s.owner {
      OwnerUnfinished(s, r);
    }
  }

  lemma RunReaches(s: State, run: seq<Label>)
    requires Initial(s) && Valid(s, run)
    ensures Reachable(After(s, run)) && Inv(After(s, run))
  {
    InitialInv(s);
    RunInv(s, run);
  }

  /**
    * At the end of a run the counter is the number of requests that were cancelled between their
    * admission and the start of their generator: back at zero if and only if there was none.
    */
  lemma QuiescentCounter(s: State, run: seq<Label>)
    requires Initial(s) && Valid(s, run)
    requires forall t | 0 <= t < |After(s, run).tasks| :: Finished(After(s, run).tasks[t])
    ensures After(s, run).active == Losses(s, run)
  {
    RunReaches(s, run);
    var e := After(s, run);
    SumsCompare(Counted, WasDropped, e.tasks);
    SumsCompare(WasDropped, Counted, e.tasks);
    LossesAre(s, run);
    forall t | 0 <= t < |s.tasks| ensures WasDropped(s.tasks[t]) == 0 { assert Fresh(s.tasks[t]); }
    SumZero(WasDropped, s.tasks);
  }

  lemma RunFrom(s: State, l: Label, rest: seq<Label>)
    requires Enabled(s, l) && Valid(Next(s, l), rest)
    ensures Valid(s, [l] + rest) && After(s, [l] + rest) == After(Next(s, l), rest)
    ensures Losses(s, [l] + rest) == (if Loses(s, l) then 1 else 0) + Losses(Next(s, l), rest)
  {
    assert ([l] + rest)[1..] == rest;
  }

  /** Such a run exists: one request, cancelled while its upload is being saved. */
  lemma LossHappens(sid: SessionId, tokens: nat) returns (s: State, run: seq<Label>)
    ensures s == State(0, map[], {}, {}, {}, {}, [Message(sid, Lookup, tokens)]) && Initial(s)
    ensures run == [Begin(sid), Run(0, Ok), Run(0, Ok), Run(0, Ok), Run(0, Cancel)] && Valid(s, run)
    ensures var e := After(s, run);
            && (forall t | 0 <= t < |e.tasks| :: Finished(e.tasks[t]))
            && e.owner == map[] && Losses(s, run) == 1 && e.active == 1
  {
    s := State(0, map[], {}, {}, {}, {}, [Message(sid, Lookup, tokens)]);
    var s1 := Next(s, Begin(sid));
    var s2 := Next(s1, Run(0, Ok));
    var s3 := Next(s2, Run(0, Ok));
    var s4 := Next(s3, Run(0, Ok));
    var s5 := Next(s4, Run(0, Cancel));
    RunFrom(s4, Run(0, Cancel), []);
    RunFrom(s3, Run(0, Ok), [Run(0, Cancel)]);
    RunFrom(s2, Run(0, Ok), [Run(0, Ok), Run(0, Cancel)]);
    RunFrom(s1, Run(0, Ok), [Run(0, Ok), Run(0, Ok), Run(0, Cancel)]);
    RunFrom(s, Begin(sid), [Run(0, Ok), Run(0, Ok), Run(0, Ok), Run(0, Cancel)]);
    run := [Begin(sid)] + [Run(0, Ok), Run(0, Ok), Run(0, Ok), Run(0, Cancel)];
    assert s5.tasks == [Message(sid, MessagePc.Dropped, tokens)];
    assert After(s, run) == s5;
    assert s5.owner == map[];
  }

  /** A loss is for good: after five of them, every request that comes to the counter is refused. */
  lemma LossesCloseTheService(s: State, run: seq<Label>, t: TaskId)
    requires Initial(s) && Valid(s, run)
    ensures Losses(s, run) <= After(s, run).active <= MAX_CONCURRENT_MESSAGES
    ensures Losses(s, run) == MAX_CONCURRENT_MESSAGES && Enabled(After(s, run), Run(t, Ok))
            && After(s, run).tasks[t].Message? && After(s, run).tasks[t].mpc.Admitting? ==>
              Next(After(s, run), Run(t, Ok)).tasks[t].mpc == Busy
  {
    RunReaches(s, run);
    LossesAre(s, run);
    SumsCompare(WasDropped, Counted, After(s, run).tasks);
  }

  // ------------------------------------------------------------------ progress

  /** The resource a task is waiting for, if its next step takes one. */
  function WaitsFor(task: Task): set<Resource>
  {
    match task
    case Message(sid, mpc, _) =>
      (match mpc
       case AdmitWait => {Counter}
       case RollbackWait => {Counter}
       case ReleaseWait => {Counter}
       case LockWait => {SessionLock(sid)}
       case GpuWait => {Gpu}
       case DittoWait => {Ditto}
       case _ => {})
    case End(sid, epc) => if epc.EndLockWait? then {SessionLock(sid)} else {}
    case Persona(ppc, _) =>
      if ppc.PersonaGpuWait? then {Gpu} else if ppc.PersonaDittoWait? then {Ditto} else {}
  }

  function Level(r: Resource): nat { if r.SessionLock? then 0 else 1 }

  /**
    * The lock order. A task asks only for a resource of a higher level than all it holds, so the
    * session lock comes before either semaphore, never both semaphores are held, and the counter
    * lock is held alone. An unfinished task can make its normal step once it has what it waits for.
    */
  lemma LockOrder(s: State, task: Task)
    ensures forall r, h | r in WaitsFor(task) && h in Holds(task) :: Level(h) < Level(r)
    ensures !(Gpu in Holds(task) && Ditto in Holds(task))
    ensures Counter in Holds(task) ==> Holds(task) == {Counter}
    ensures !Finished(task) ==>
              TaskMove(s, task, Ok).Move? && TaskMove(s, task, Ok).does.take == WaitsFor(task)
  {
  }

  /** How far a task can be from one that runs: waiting with nothing, waiting with a lock, or running. */
  function Height(task: Task): nat
  {
    if WaitsFor(task) == {} then 0 else if Holds(task) == {} then 2 else 1
  }

  /** Whoever blocks an unfinished task can run, or is itself blocked by one that can. */
  lemma SomebodyCanRun(s: State, t: TaskId) returns (u: TaskId)
    requires OwnersMatch(s) && t < |s.tasks| && !Finished(s.tasks[t])
    ensures Enabled(s, Run(u, Ok))
    decreases Height(s.tasks[t])
  {
    LockOrder(s, s.tasks[t]);
    if WaitsFor(s.tasks[t]) !! s.owner.Keys {
      u := t;
    } else {
      var r :| r in WaitsFor(s.tasks[t]) && r in s.owner;
      var holder := s.owner[r];
      assert r in Holds(s.tasks[holder]);
      LockOrder(s, s.tasks[holder]);
      u := SomebodyCanRun(s, holder);
    }
  }

  /** No deadlock: while a task is unfinished, some task can make its normal step. */
  lemma DeadlockFree(s: State, t: TaskId)
    requires Reachable(s) && t < |s.tasks| && !Finished(s.tasks[t])
    ensures exists u :: Enabled(s, Run(u, Ok))
  {
    ReachableInv(s);
    var u := SomebodyCanRun(s, t);
  }

  /** The task steps in a run, leaving out session starts and sweeps. */
  function TaskSteps(run: seq<Label>): nat
  {
    if run == [] then 0 else (if run[0].Run? then 1 else 0) + TaskSteps(run[1..])
  }

  /** Every run is short: each task step, normal, failing or cancelled, uses up part of a fixed sum. */
  lemma {:induction false} RunsAreBounded(s: State, run: seq<Label>)
    requires Valid(s, run)
    ensures TaskSteps(run) + Sum(Rank, After(s, run).tasks) <= Sum(Rank, s.tasks)
    decreases |run|
  {
    if run != [] {
      if run[0].Run? {
        var t, c := run[0].t, run[0].c;
        RankFacts(s, s.tasks[t], c);
        SumUpdate(Rank, s.tasks, t, TaskMove(s, s.tasks[t], c).to);
      }
      RunsAreBounded(Next(s, run[0]), run[1..]);
    }
  }

  /** A run that cannot be continued has finished every task and freed every lock. */
  lemma MaximalRunsFinish(s: State)
    requires Reachable(s)
    requires forall u :: !Enabled(s, Run(u, Ok))
    ensures forall t | 0 <= t < |s.tasks| :: Finished(s.tasks[t])
    ensures s.owner == map[]
  {
    forall t | 0 <= t < |s.tasks| ensures Finished(s.tasks[t]) {
      if !Finished(s.tasks[t]) { DeadlockFree(s, t); }
    }
    QuiescentLocks(s);
  }
}
