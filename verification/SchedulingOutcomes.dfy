/** How each task ends and what it does on the way, from the steps of a run. */
module SchedulingOutcomes {
  import opened Scheduling
  import opened SchedulingSafety

  // ------------------------------------------------------------------ how requests end

  /** What can happen to a request in a step of its own. */
  datatype Event =
    | Unknown         // a message whose session is not stored when it looks
    | Full            // a message that finds the counter at its bound
    | SaveError       // an upload that cannot be saved
    | Loss            // cancelled between admission and the start of the generator
    | Gone            // an end request whose session is not stored when it looks, first or under the lock
    | Waived          // an end request cancelled while it waits for the lock
    | Cut             // an end request cancelled inside rmtree

  predicate Happens(s: State, l: Label, t: TaskId, e: Event)
    requires Enabled(s, l)
  {
    l.Run? && l.t == t &&
    match s.tasks[t]
    case Message(sid, mpc, _) =>
      (match e
       case Unknown => mpc == Lookup && sid !in s.store
       case Full => mpc == Admitting && s.active >= 5
       case SaveError => mpc == Saving && l.c.Fail?
       case Loss => mpc in {Saving, Ready} && l.c.Cancel?
       case _ => false)
    case End(sid, epc) =>
      (match e
       case Gone => epc in {EndLookup, Popping} && sid !in s.store
       case Waived => epc == EndLockWait && l.c.Cancel?
       case Cut => epc == Removing && l.c.Cancel?
       case _ => false)
    case Persona(_, _) => false
  }

  ghost predicate Ever(s: State, run: seq<Label>, t: TaskId, e: Event)
    requires Valid(s, run)
    decreases |run|
  {
    run != [] && (Happens(s, run[0], t, e) || Ever(Next(s, run[0]), run[1..], t, e))
  }

  /** Where a task is says which of these have happened to it. */
  predicate Marked(task: Task, e: Event)
  {
    match task
    case Message(_, mpc, _) =>
      (match e
       case Unknown => mpc == NotFound
       case Full => mpc == Busy
       case SaveError => mpc in {RollbackWait, RollingBack, SaveFailed}
       case Loss => mpc == MessagePc.Dropped
       case _ => false)
    case End(_, epc) =>
      (match e
       case Gone => epc == EndNotFound
       case Waived => epc == EndCancelled
       case Cut => epc == EndInterrupted
       case _ => false)
    case Persona(_, _) => false
  }

  lemma MarkStep(s: State, t: TaskId, c: Choice, e: Event)
    requires Enabled(s, Run(t, c))
    ensures Marked(TaskMove(s, s.tasks[t], c).to, e) <==> Marked(s.tasks[t], e) || Happens(s, Run(t, c), t, e)
  {
  }

  lemma {:induction false} MarksAre(s: State, run: seq<Label>, t: TaskId, e: Event)
    requires Valid(s, run) && t < |s.tasks|
    ensures t < |After(s, run).tasks|
    ensures Marked(After(s, run).tasks[t], e) <==> Marked(s.tasks[t], e) || Ever(s, run, t, e)
    decreases |run|
  {
    if run != [] {
      if run[0].Run? && run[0].t == t { MarkStep(s, t, run[0].c, e); }
      MarksAre(Next(s, run[0]), run[1..], t, e);
    }
  }

  lemma {:induction false} SameRequest(s: State, run: seq<Label>, t: TaskId)
    requires Valid(s, run) && t < |s.tasks|
    ensures var e := After(s, run);
            && t < |e.tasks|
            && (s.tasks[t].Message? <==> e.tasks[t].Message?) && (s.tasks[t].End? <==> e.tasks[t].End?)
            && (!s.tasks[t].Persona? ==> e.tasks[t].sid == s.tasks[t].sid)
    decreases |run|
  {
    if run != [] { SameRequest(Next(s, run[0]), run[1..], t); }
  }

  /**
    * The answer to a message, once it has finished: not-found if and only if its session was not
    * stored when it looked, busy if and only if it found the counter full, a failure if and only if its
    * upload could not be saved, none at all if it was lost, and otherwise it was served.
    */
  lemma MessageFate(s: State, run: seq<Label>, t: TaskId)
    requires Initial(s) && Valid(s, run) && t < |s.tasks| && s.tasks[t].Message?
    ensures t < |After(s, run).tasks| && After(s, run).tasks[t].Message?
    ensures var mpc := After(s, run).tasks[t].mpc;
            && (mpc == NotFound <==> Ever(s, run, t, Unknown))
            && (mpc == Busy <==> Ever(s, run, t, Full))
            && (mpc == MessagePc.Dropped <==> Ever(s, run, t, Loss))
            && (Finished(After(s, run).tasks[t]) ==>
                  && (mpc == SaveFailed <==> Ever(s, run, t, SaveError))
                  && (mpc == Served <==> forall e :: !Ever(s, run, t, e)))
  {
    SameRequest(s, run, t);
    assert Fresh(s.tasks[t]);
    forall e ensures Marked(After(s, run).tasks[t], e) <==> Ever(s, run, t, e) {
      MarksAre(s, run, t, e);
    }
  }

  /**
    * The answer to an end request: not-found if and only if its session was not stored at one of the
    * two steps at which it looks, the lookup and the pop under the lock; and a finished request that
    * found it both times and was not cancelled has ended it.
    */
  lemma EndFate(s: State, run: seq<Label>, t: TaskId)
    requires Initial(s) && Valid(s, run) && t < |s.tasks| && s.tasks[t].End?
    ensures t < |After(s, run).tasks| && After(s, run).tasks[t].End?
    ensures var epc := After(s, run).tasks[t].epc;
            && (epc == EndNotFound <==> Ever(s, run, t, Gone))
            && (epc == EndCancelled <==> Ever(s, run, t, Waived))
            && (epc == EndInterrupted <==> Ever(s, run, t, Cut))
            && (Finished(After(s, run).tasks[t]) ==> (epc == Ended <==> forall e :: !Ever(s, run, t, e)))
  {
    SameRequest(s, run, t);
    assert Fresh(s.tasks[t]);
    forall e ensures Marked(After(s, run).tasks[t], e) <==> Ever(s, run, t, e) {
      MarksAre(s, run, t, e);
    }
  }

  // ------------------------------------------------------------------ an end request does its work

  /** Only task `t` takes the session out of the store, and it is not cancelled. */
  ghost predicate LeftAlone(s: State, run: seq<Label>, t: TaskId, sid: SessionId)
    requires Valid(s, run)
    decreases |run|
  {
    run != [] ==>
      && (run[0].Run? && run[0].t == t ==> !run[0].c.Cancel?)
      && (sid in s.store && sid !in Next(s, run[0]).store ==> run[0].Run? && run[0].t == t)
      && LeftAlone(Next(s, run[0]), run[1..], t, sid)
  }

  /** The session is stored until the request pops it, and not afterwards. */
  ghost predicate Pursued(s: State, t: TaskId, sid: SessionId)
  {
    && sid in s.created && t < |s.tasks| && s.tasks[t].End? && s.tasks[t].sid == sid
    && (if sid in s.store then s.tasks[t].epc in {EndLookup, EndLockWait, Popping}
        else s.tasks[t].epc in {Removing, Ended})
  }

  lemma {:induction false} PursuedThroughout(s: State, run: seq<Label>, t: TaskId, sid: SessionId)
    requires Valid(s, run) && Pursued(s, t, sid) && LeftAlone(s, run, t, sid)
    ensures Pursued(After(s, run), t, sid)
    decreases |run|
  {
    if run != [] { PursuedThroughout(Next(s, run[0]), run[1..], t, sid); }
  }

  /**
    * An end request for a stored session that nobody else pops and no sweep takes: once it has
    * finished without having been cancelled, it has succeeded and the session is out of the store.
    */
  lemma EndTakesSession(s: State, run: seq<Label>, t: TaskId, sid: SessionId)
    requires Reachable(s) && t < |s.tasks| && s.tasks[t] == End(sid, EndLookup) && sid in s.store
    requires Valid(s, run) && LeftAlone(s, run, t, sid)
    ensures t < |After(s, run).tasks|
    ensures Finished(After(s, run).tasks[t]) ==>
              After(s, run).tasks[t] == End(sid, Ended) && sid !in After(s, run).store
  {
    ReachableInv(s);
    PursuedThroughout(s, run, t, sid);
  }

  /** Under the lock, a stored session without a directory is ended at once; with one, its removal is awaited. */
  lemma PopDecides(s: State, t: TaskId, sid: SessionId)
    requires Enabled(s, Run(t, Ok)) && s.tasks[t] == End(sid, Popping)
    ensures var now := Next(s, Run(t, Ok));
            now.tasks[t] == End(sid, if sid !in s.store then EndNotFound else if sid in s.dirs then Removing else Ended)
            && now.store == s.store - {sid}
  {
  }

  /** The sections of the handlers that contain no await cannot fail or be cancelled in the middle. */
  lemma Uninterruptible(s: State, t: TaskId, c: Choice)
    requires Enabled(s, Run(t, c))
    requires match s.tasks[t]
             case Message(_, mpc, _) => mpc in {Lookup, Admitting, RollingBack, Releasing}
             case End(_, epc) => epc in {EndLookup, Popping}
             case Persona(_, _) => false
    ensures c.Ok?
  {
  }

  /** Every session that was ever started is stored, was swept, or was taken by an end request. */
  ghost predicate Accounted(s: State)
  {
    forall sid | sid in s.created :: sid in s.store || sid in s.swept || TakenBySome(s, sid)
  }

  ghost predicate TakenBySome(s: State, sid: SessionId)
  {
    exists t: TaskId :: t < |s.tasks| && Popped(s.tasks[t]) && s.tasks[t].sid == sid
  }

  lemma AccountedStep(s: State, l: Label)
    requires Accounted(s) && Enabled(s, l)
    ensures Accounted(Next(s, l))
  {
    if l.Run? { RemovalFacts(s, s.tasks[l.t], l.c); }
    var now := Next(s, l);
    forall sid | sid in now.created ensures sid in now.store || sid in now.swept || TakenBySome(now, sid) {
      if sid in s.created {
        if TakenBySome(s, sid) {
          var t: TaskId :| t < |s.tasks| && Popped(s.tasks[t]) && s.tasks[t].sid == sid;
          assert Popped(now.tasks[t]) && now.tasks[t].sid == sid;
        } else if sid in s.store && sid !in now.store && l.Run? {
          assert Popped(now.tasks[l.t]) && now.tasks[l.t].sid == sid;
        }
      }
    }
  }

  lemma {:induction false} AccountedThroughout(s: State, run: seq<Label>)
    requires Accounted(s) && Valid(s, run)
    ensures Accounted(After(s, run))
    decreases |run|
  {
    if run != [] {
      AccountedStep(s, run[0]);
      AccountedThroughout(Next(s, run[0]), run[1..]);
    }
  }

  /**
    * Conservation of sessions: each one that was ever started is in exactly one place, the store, the
    * sweeper's or one end request's.
    */
  lemma SessionsConserved(s: State, sid: SessionId)
    requires Reachable(s) && sid in s.created
    ensures sid in s.store || sid in s.swept || TakenBySome(s, sid)
    ensures !(sid in s.store && sid in s.swept)
    ensures TakenBySome(s, sid) ==> sid !in s.store && sid !in s.swept
  {
    ReachableInv(s);
    var start: State, run: seq<Label> :| Initial(start) && Valid(start, run) && After(start, run) == s;
    AccountedThroughout(start, run);
  }

  // ------------------------------------------------------------------ what a task does on the way

  ghost predicate Owns(s: State, t: TaskId, r: Resource)
  {
    r in s.owner && s.owner[r] == t
  }

  /** How often a run gives `r` to task `t`. */
  ghost function Takings(s: State, run: seq<Label>, t: TaskId, r: Resource): nat
    requires Valid(s, run)
    decreases |run|
  {
    if run == [] then 0
    else (if !Owns(s, t, r) && Owns(Next(s, run[0]), t, r) then 1 else 0) + Takings(Next(s, run[0]), run[1..], t, r)
  }

  /** How many steps of a run are those of task `t`. */
  function StepsOf(run: seq<Label>, t: TaskId): nat
  {
    if run == [] then 0 else (if run[0].Run? && run[0].t == t then 1 else 0) + StepsOf(run[1..], t)
  }

  /** Every step of `t` comes back normally. */
  predicate Undisturbed(run: seq<Label>, t: TaskId)
  {
    forall i | 0 <= i < |run| && run[i].Run? && run[i].t == t :: run[i].c.Ok?
  }

  /** How often an undisturbed message will still take a resource. */
  function Owed(task: Task, r: Resource): nat
    requires task.Message?
  {
    match r
    case Counter =>
      if task.mpc in {Lookup, AdmitWait} then 2
      else if task.mpc in {Releasing, RollingBack, NotFound, Busy, SaveFailed, Served, MessagePc.Dropped} then 0
      else 1
    case SessionLock(sid) =>
      if sid == task.sid && task.mpc in {Lookup, AdmitWait, Admitting, Saving, Ready, LockWait} then 1 else 0
    case Gpu =>
      if task.mpc in
           {Lookup, AdmitWait, Admitting, Saving, Ready, LockWait, MessagePc.Transcribing, Streaming, TextDone, GpuWait}
      then 1 else 0
    case Ditto =>
      if task.mpc in
           {Lookup, AdmitWait, Admitting, Saving, Ready, LockWait, MessagePc.Transcribing, Streaming, TextDone, GpuWait,
            Synthesising, DittoWait}
      then 1 else 0
  }

  lemma OwedStep(s: State, task: Task, r: Resource)
    requires task.Message? && MessageMove(s, task, Ok).Move?
    requires MessageMove(s, task, Ok).to.mpc !in {NotFound, Busy}
    ensures var m := MessageMove(s, task, Ok);
            && Owed(task, r) == (if r in m.does.take then 1 else 0) + Owed(m.to, r)
            && Rank(task) == 1 + Rank(m.to)
  {
  }

  lemma TakingStep(s: State, l: Label, t: TaskId, r: Resource)
    requires Enabled(s, l)
    ensures !Owns(s, t, r) && Owns(Next(s, l), t, r) <==>
              l.Run? && l.t == t && r in TaskMove(s, s.tasks[t], l.c).does.take
  {
  }

  lemma {:induction false} OwedThroughout(s: State, run: seq<Label>, t: TaskId, r: Resource)
    requires Valid(s, run) && t < |s.tasks| && s.tasks[t].Message? && Undisturbed(run, t)
    requires t < |After(s, run).tasks| && After(s, run).tasks[t].Message?
    requires After(s, run).tasks[t].mpc !in {NotFound, Busy}
    ensures Owed(s.tasks[t], r) == Takings(s, run, t, r) + Owed(After(s, run).tasks[t], r)
    ensures Rank(s.tasks[t]) == StepsOf(run, t) + Rank(After(s, run).tasks[t])
    decreases |run|
  {
    if run != [] {
      var next := Next(s, run[0]);
      MarksAre(next, run[1..], t, Unknown);
      MarksAre(next, run[1..], t, Full);
      TakingStep(s, run[0], t, r);
      if run[0].Run? && run[0].t == t { OwedStep(s, s.tasks[t], r); }
      assert forall i | 0 <= i < |run[1..]| :: run[1..][i] == run[i + 1];
      OwedThroughout(next, run[1..], t, r);
    }
  }

  /**
    * A message that nothing disturbs and that is served takes each of its steps: the lock of its own
    * session once and no other, the speech model once, the renderer once, the counter lock twice, and
    * one step for every token besides sixteen others.
    */
  lemma UndisturbedMessage(s: State, run: seq<Label>, t: TaskId, sid: SessionId, tokens: nat)
    requires Initial(s) && Valid(s, run) && t < |s.tasks| && s.tasks[t] == Message(sid, Lookup, tokens)
    requires Undisturbed(run, t)
    requires t < |After(s, run).tasks| && After(s, run).tasks[t].Message? && After(s, run).tasks[t].mpc == Served
    ensures Takings(s, run, t, Gpu) == 1 && Takings(s, run, t, Ditto) == 1 && Takings(s, run, t, Counter) == 2
    ensures forall other :: Takings(s, run, t, SessionLock(other)) == if other == sid then 1 else 0
    ensures StepsOf(run, t) == 16 + tokens
  {
    OwedThroughout(s, run, t, Gpu);
    OwedThroughout(s, run, t, Ditto);
    OwedThroughout(s, run, t, Counter);
    forall other ensures Takings(s, run, t, SessionLock(other)) == if other == sid then 1 else 0 {
      OwedThroughout(s, run, t, SessionLock(other));
    }
  }

  // ------------------------------------------------------------------ after a misfortune

  /** A message that has nothing left to do but to give back what it holds. */
  predicate Unwinding(task: Task)
  {
    task.Message? && task.mpc in
      {Leaving, ReleaseWait, Releasing, RollbackWait, RollingBack,
       Served, SaveFailed, MessagePc.Dropped, NotFound, Busy}
  }

  lemma UnwindingStep(s: State, task: Task, c: Choice)
    requires task.Message? && MessageMove(s, task, c).Move? && (Unwinding(task) || !c.Ok?)
    ensures Unwinding(MessageMove(s, task, c).to) && MessageMove(s, task, c).does.take <= {Counter}
    ensures c.Cancel? ==> Holds(MessageMove(s, task, c).to) == {}
  {
  }

  lemma {:induction false} UnwindingThroughout(s: State, run: seq<Label>, t: TaskId, r: Resource)
    requires Valid(s, run) && t < |s.tasks| && Unwinding(s.tasks[t]) && r != Counter
    ensures Takings(s, run, t, r) == 0
    decreases |run|
  {
    if run != [] {
      TakingStep(s, run[0], t, r);
      if run[0].Run? && run[0].t == t { UnwindingStep(s, s.tasks[t], run[0].c); }
      UnwindingThroughout(Next(s, run[0]), run[1..], t, r);
    }
  }

  /**
    * Once a step of a message fails, is cancelled or takes the other way, the message takes no session
    * lock and no model any more; and a cancellation leaves it holding nothing at once.
    */
  lemma MisfortuneEndsTheWork(s: State, run: seq<Label>, t: TaskId, c: Choice, r: Resource)
    requires t < |s.tasks| && s.tasks[t].Message? && Enabled(s, Run(t, c)) && !c.Ok? && r != Counter
    requires Valid(s, [Run(t, c)] + run)
    ensures Takings(s, [Run(t, c)] + run, t, r) == 0
    ensures c.Cancel? ==> Holds(Next(s, Run(t, c)).tasks[t]) == {}
  {
    var whole := [Run(t, c)] + run;
    assert whole[1..] == run;
    TakingStep(s, Run(t, c), t, r);
    UnwindingStep(s, s.tasks[t], c);
    UnwindingThroughout(Next(s, Run(t, c)), run, t, r);
  }

  /** The speak directory is made when the message goes on from its text, unless it is cancelled or mkdir fails. */
  lemma SpeakDirectoryMade(s: State, t: TaskId, c: Choice)
    requires Enabled(s, Run(t, c)) && s.tasks[t].Message?
    ensures Next(s, Run(t, c)).dirs == s.dirs
              + if s.tasks[t].mpc == MessagePc.TextDone && (c.Ok? || c.Fail?) then {s.tasks[t].sid} else {}
  {
  }

  // ------------------------------------------------------------------ persona runs

  /** The step finds the work for a model done already: the transcript, or a clip. */
  predicate Skips(task: Task, c: Choice, r: Resource)
  {
    task.Persona? && c.Other? && match r
      case Gpu => task.ppc == Start
      case Ditto => task.ppc == Clip && task.clips > 0
      case _ => false
  }

  ghost function Skippings(s: State, run: seq<Label>, t: TaskId, r: Resource): nat
    requires Valid(s, run) && t < |s.tasks|
    decreases |run|
  {
    if run == [] then 0
    else (if run[0].Run? && run[0].t == t && Skips(s.tasks[t], run[0].c, r) then 1 else 0)
         + Skippings(Next(s, run[0]), run[1..], t, r)
  }

  /** Nothing fails and nobody cancels. */
  predicate Unharmed(run: seq<Label>, t: TaskId)
  {
    forall i | 0 <= i < |run| && run[i].Run? && run[i].t == t :: run[i].c.Ok? || run[i].c.Other?
  }

  /** The uses of a model that are still to be made or skipped. */
  function Left(task: Task, r: Resource): nat
    requires task.Persona?
  {
    match r
    case Gpu => if task.ppc in {Start, PersonaGpuWait} then 1 else 0
    case Ditto => if task.ppc.PersonaDone? then 0 else task.clips + if task.ppc.PersonaDittoWait? then 1 else 0
    case _ => 0
  }

  lemma PersonaStep(s: State, task: Task, c: Choice, r: Resource)
    requires task.Persona? && PersonaMove(task, c).Move?
    ensures c.Ok? || c.Other? ==>
              Left(task, r) == (if r in PersonaMove(task, c).does.take then 1 else 0)
                               + (if Skips(task, c, r) then 1 else 0) + Left(PersonaMove(task, c).to, r)
    ensures c.Fail? || c.Cancel? ==> PersonaMove(task, c).to.ppc == PersonaDone
  {
  }

  lemma {:induction false} LeftThroughout(s: State, run: seq<Label>, t: TaskId, r: Resource)
    requires Valid(s, run) && t < |s.tasks| && s.tasks[t].Persona? && Unharmed(run, t)
    ensures t < |After(s, run).tasks| && After(s, run).tasks[t].Persona?
    ensures Left(s.tasks[t], r) == Takings(s, run, t, r) + Skippings(s, run, t, r) + Left(After(s, run).tasks[t], r)
    decreases |run|
  {
    if run != [] {
      TakingStep(s, run[0], t, r);
      if run[0].Run? && run[0].t == t { PersonaStep(s, s.tasks[t], run[0].c, r); }
      assert forall i | 0 <= i < |run[1..]| :: run[1..][i] == run[i + 1];
      LeftThroughout(Next(s, run[0]), run[1..], t, r);
    }
  }

  /**
    * A persona run that nothing harms transcribes once unless the text is there, and renders every
    * clip that is not there, once.
    */
  lemma UnharmedPersona(s: State, run: seq<Label>, t: TaskId, clips: nat)
    requires Valid(s, run) && t < |s.tasks| && s.tasks[t] == Persona(Start, clips) && Unharmed(run, t)
    ensures t < |After(s, run).tasks| && After(s, run).tasks[t].Persona?
    ensures After(s, run).tasks[t].ppc == PersonaDone ==>
              && Takings(s, run, t, Gpu) == 1 - Skippings(s, run, t, Gpu)
              && Takings(s, run, t, Ditto) == clips - Skippings(s, run, t, Ditto)
  {
    LeftThroughout(s, run, t, Gpu);
    LeftThroughout(s, run, t, Ditto);
  }

  /** A failure or a cancellation ends a persona run at once, with nothing held. */
  lemma HarmEndsPersona(s: State, t: TaskId, c: Choice)
    requires Enabled(s, Run(t, c)) && s.tasks[t].Persona? && (c.Fail? || c.Cancel?)
    ensures Finished(Next(s, Run(t, c)).tasks[t]) && Holds(Next(s, Run(t, c)).tasks[t]) == {}
  {
    PersonaStep(s, s.tasks[t], c, Gpu);
  }
}
