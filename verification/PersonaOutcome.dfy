/** How one run ends, from its uploads, its files and its misfortunes alone. */
module PersonaOutcome {
  import opened Text
  import opened PersonaPipeline
  import opened PersonaSafety

  // ------------------------------------------------------------------ when a run is READY

  /** A reference is there, or ffmpeg makes one of at least a second. */
  predicate GetsAudio(w: Inputs, was: Disk, plan: Plan)
  {
    was.refAudio.Some? || (plan(Trim).Ok? && w.voice.Some? && w.trim(w.voice.value).Some?)
  }

  /** A non-empty transcript of the reference is there, or the model makes one. */
  predicate GetsText(was: Disk, plan: Plan)
  {
    (was.refAudio.Some? && HasText(was)) || plan(Transcribe).Ok?
  }

  /** From clip `i` on, every clip is there or is rendered. */
  predicate GetsClips(was: Disk, plan: Plan, i: nat)
  {
    forall j: nat | i <= j < IDLE_CLIPS :: HasClip(was, j) || plan(RenderClip(j)).Ok?
  }

  /** From row `i` on, every row is inserted, and the READY write arrives. */
  predicate GetsRegistered(plan: Plan, i: nat)
  {
    (forall j: nat | i <= j < IDLE_CLIPS :: plan(InsertRow(j)).Ok?) && plan(ReadyWrite).Ok?
  }

  predicate GetsPictures(w: Inputs, was: Disk, plan: Plan)
  {
    w.photo.Some? && !plan(PickPhoto).Fail? && GetsClips(was, plan, 0) && GetsRegistered(plan, 0)
  }

  /** Nothing that the run needs is missing or fails. */
  predicate GetsThrough(w: Inputs, was: Disk, plan: Plan)
  {
    && plan(StartWrite).Ok? && w.voice.Some? && !plan(Select).Fail?
    && GetsAudio(w, was, plan) && GetsText(was, plan) && GetsPictures(w, was, plan)
  }

  /** What is still needed at a program point. */
  predicate StillNeeds(w: Inputs, was: Disk, plan: Plan, pc: Pc)
  {
    match pc
    case StartWrite => GetsThrough(w, was, plan)
    case Select =>
      && w.voice.Some? && !plan(Select).Fail?
      && GetsAudio(w, was, plan) && GetsText(was, plan) && GetsPictures(w, was, plan)
    case Prepare => GetsAudio(w, was, plan) && GetsText(was, plan) && GetsPictures(w, was, plan)
    case Trim => GetsAudio(w, was, plan) && GetsText(was, plan) && GetsPictures(w, was, plan)
    case CleanLegacy => GetsText(was, plan) && GetsPictures(w, was, plan)
    case Invalidate => GetsText(was, plan) && GetsPictures(w, was, plan)
    case Transcribe => GetsText(was, plan) && GetsPictures(w, was, plan)
    case PickPhoto => GetsPictures(w, was, plan)
    case RenderClip(i) => GetsClips(was, plan, i) && GetsRegistered(plan, 0)
    case InsertRow(i) => GetsRegistered(plan, i)
    case ReadyWrite => plan(ReadyWrite).Ok?
    case _ => false
  }

  /** What the run shows when it has ended. */
  ghost predicate EndsAs(e: State, ready: bool, failedWrite: Choice, lost: Status)
  {
    && e.pc == Idle
    && (if ready then e.status == Ready && e.step == Some(ReadyStep) && e.error == None
        else && e.status == (if failedWrite.Ok? then Failed else lost)
             && e.step == Some(FailedStep) && e.error.Some?)
  }

  lemma NeedsStep(w: Inputs, was: Disk, s: State, plan: Plan)
    requires s.pc != Idle && s.pc != FailedWrite && RunProgress(w, was, s)
    ensures var e := StepOf(w, s, plan(s.pc));
            if e.pc == FailedWrite then !StillNeeds(w, was, plan, s.pc)
            else if e.pc == Idle then StillNeeds(w, was, plan, s.pc)
            else StillNeeds(w, was, plan, s.pc) <==> StillNeeds(w, was, plan, e.pc)
  {
    if s.pc.RenderClip? {
      NeedsClip(w, was, s, s.pc.i, plan);
    } else if s.pc.InsertRow? {
      NeedsRow(plan, s.pc.i);
    }
  }

  lemma NeedsClip(w: Inputs, was: Disk, s: State, i: nat, plan: Plan)
    requires s.pc == RenderClip(i) && RunProgress(w, was, s)
    ensures var e := RenderStep(w, s, i, plan(s.pc));
            if e.pc == FailedWrite then !GetsClips(was, plan, i)
            else if i >= IDLE_CLIPS then e.pc == InsertRow(0) && GetsClips(was, plan, i)
            else e.pc == RenderClip(i + 1) && (GetsClips(was, plan, i) <==> GetsClips(was, plan, i + 1))
  {
    if i < IDLE_CLIPS { ClipsSoFar(w, was, i); }
  }

  lemma NeedsRow(plan: Plan, i: nat)
    ensures i >= IDLE_CLIPS ==> (GetsRegistered(plan, i) <==> plan(ReadyWrite).Ok?)
    ensures i < IDLE_CLIPS ==> (GetsRegistered(plan, i) <==> plan(InsertRow(i)).Ok? && GetsRegistered(plan, i + 1))
  {
  }

  /** The step shown at the end of a run, whatever it went through. */
  ghost predicate ShowsEnd(s: State)
  {
    && (s.pc == FailedWrite ==> s.step == Some(FailedStep) && s.error.Some?)
    && (s.pc == ReadyWrite ==> s.step == Some(ReadyStep) && s.error == None)
  }

  lemma {:induction false} OutcomeDrive(w: Inputs, was: Disk, s: State, plan: Plan, lost: Status)
    requires s.pc != Idle && RunProgress(w, was, s) && ShowsEnd(s)
    requires if s.pc == StartWrite && plan(StartWrite).Ok? then lost == Processing else s.status == lost
    ensures EndsAs(Drive(w, s, plan), StillNeeds(w, was, plan, s.pc), plan(FailedWrite), lost)
    decreases Rank(s.pc)
  {
    var e := StepOf(w, s, plan(s.pc));
    StepDescends(w, s, plan(s.pc));
    RunProgressStep(w, was, s, plan(s.pc));
    if s.pc == FailedWrite {
      assert Drive(w, s, plan) == e;
    } else {
      NeedsStep(w, was, s, plan);
      if e.pc == Idle {
        assert Drive(w, s, plan) == e;
      } else {
        StepShows(w, s, plan(s.pc));
        OutcomeDrive(w, was, e, plan, lost);
      }
    }
  }

  lemma StepShows(w: Inputs, s: State, c: Choice)
    requires s.pc != Idle && s.pc != FailedWrite
    ensures ShowsEnd(StepOf(w, s, c))
    ensures StepOf(w, s, c).pc != Idle ==>
              StepOf(w, s, c).status == if s.pc == StartWrite && c.Ok? then Processing else s.status
  {
  }

  /**
    * A run ends READY if and only if nothing it needs is missing or fails. Otherwise it shows FAILED
    * with a reason, and its status is FAILED, or what it was when even that could not be written.
    */
  lemma RunOutcome(w: Inputs, s: State, plan: Plan)
    requires s.pc == Idle && s.status != Ready
    ensures EndsAs(Drive(w, Begun(s), plan), GetsThrough(w, s.disk, plan), plan(FailedWrite),
                   if plan(StartWrite).Ok? then Processing else s.status)
  {
    OutcomeDrive(w, s.disk, Begun(s), plan, if plan(StartWrite).Ok? then Processing else s.status);
  }

  // ------------------------------------------------------------------ the rows of the clips

  /** The first `n` clip indices. */
  function Indices(n: nat): seq<nat>
  {
    seq(n, i => i)
  }

  ghost predicate RowsProgress(was: seq<nat>, s: State)
  {
    match s.pc
    case InsertRow(i) => i <= IDLE_CLIPS && s.rows == was + Indices(i)
    case ReadyWrite => s.status != Ready && s.rows == was + Indices(IDLE_CLIPS)
    case FailedWrite => s.status != Ready && exists n: nat :: n <= IDLE_CLIPS && s.rows == was + Indices(n)
    case Idle =>
      && (exists n: nat :: n <= IDLE_CLIPS && s.rows == was + Indices(n))
      && (s.status == Ready ==> s.rows == was + Indices(IDLE_CLIPS))
    case _ => s.status != Ready && s.rows == was
  }

  lemma RowsProgressStep(w: Inputs, was: seq<nat>, s: State, c: Choice)
    requires s.pc != Idle && s.status != Ready && RowsProgress(was, s)
    ensures RowsProgress(was, StepOf(w, s, c))
    ensures StepOf(w, s, c).pc != Idle ==> StepOf(w, s, c).status != Ready
  {
    assert Indices(0) == [] && was + [] == was;
    if s.pc.InsertRow? {
      assert Indices(s.pc.i + 1) == Indices(s.pc.i) + [s.pc.i];
    }
    if s.rows == was { assert s.rows == was + Indices(0); }
  }

  lemma {:induction false} RowsProgressDrive(w: Inputs, was: seq<nat>, s: State, plan: Plan)
    requires (s.pc != Idle ==> s.status != Ready) && RowsProgress(was, s)
    ensures RowsProgress(was, Drive(w, s, plan)) && Drive(w, s, plan).pc == Idle
    decreases Rank(s.pc)
  {
    if s.pc != Idle {
      RowsProgressStep(w, was, s, plan(s.pc));
      StepDescends(w, s, plan(s.pc));
      RowsProgressDrive(w, was, StepOf(w, s, plan(s.pc)), plan);
    }
  }

  /** Any run registers a first part of the clips, in order, and a run that ends READY registers both. */
  lemma ReadyRunRegistersClips(w: Inputs, s: State, plan: Plan) returns (n: nat)
    requires s.pc == Idle && s.status != Ready
    ensures n <= 2 && Drive(w, Begun(s), plan).rows == s.rows + [0, 1][..n]
    ensures Drive(w, Begun(s), plan).status == Ready ==> Drive(w, Begun(s), plan).rows == s.rows + [0, 1]
  {
    RowsProgressDrive(w, s.rows, Begun(s), plan);
    var e := Drive(w, Begun(s), plan);
    n :| n <= IDLE_CLIPS && e.rows == s.rows + Indices(n);
    assert Indices(n) == [0, 1][..n] && Indices(IDLE_CLIPS) == [0, 1];
  }

  // ------------------------------------------------------------------ why a run failed

  /** No step of the run is cancelled, or none fails of itself. */
  ghost predicate Spared(plan: Plan, cancelled: bool)
  {
    forall pc: Pc :: if cancelled then !plan(pc).Cancel? else !plan(pc).Fail?
  }

  lemma ReasonStep(w: Inputs, was: Disk, s: State, plan: Plan)
    requires s.pc != Idle && s.pc != FailedWrite && RunProgress(w, was, s)
    requires StepOf(w, s, plan(s.pc)).pc == FailedWrite
    ensures Spared(plan, true) ==> StepOf(w, s, plan(s.pc)).error == Some(StageError)
    ensures Spared(plan, false) && Usable(w, was) ==> StepOf(w, s, plan(s.pc)).error == Some(Cancelled)
  {
  }

  lemma {:induction false} ReasonDrive(w: Inputs, was: Disk, s: State, plan: Plan)
    requires RunProgress(w, was, s) && s.pc != Idle && s.pc != FailedWrite
    requires Drive(w, s, plan).step == Some(FailedStep) && ShowsEnd(s)
    ensures Spared(plan, true) ==> Drive(w, s, plan).error == Some(StageError)
    ensures Spared(plan, false) && Usable(w, was) ==> Drive(w, s, plan).error == Some(Cancelled)
    decreases Rank(s.pc)
  {
    var e := StepOf(w, s, plan(s.pc));
    StepDescends(w, s, plan(s.pc));
    RunProgressStep(w, was, s, plan(s.pc));
    StepShows(w, s, plan(s.pc));
    if e.pc == FailedWrite {
      ReasonStep(w, was, s, plan);
      assert Drive(w, e, plan) == StepOf(w, e, plan(FailedWrite));
    } else if e.pc != Idle {
      ReasonDrive(w, was, e, plan);
    }
  }

  /** A failed run that nobody cancelled gives the error as its reason, one that could only be cancelled that. */
  lemma FailureReason(w: Inputs, s: State, plan: Plan)
    requires s.pc == Idle && s.status != Ready && !GetsThrough(w, s.disk, plan)
    ensures (forall pc: Pc :: !plan(pc).Cancel?) ==> Drive(w, Begun(s), plan).error == Some(StageError)
    ensures (forall pc: Pc :: !plan(pc).Fail?) && Usable(w, s.disk) ==>
              Drive(w, Begun(s), plan).error == Some(Cancelled)
  {
    RunOutcome(w, s, plan);
    ReasonDrive(w, s.disk, Begun(s), plan);
  }

  // ------------------------------------------------------------------ a killed worker

  /** What a killed worker leaves of the file it was writing, and that it leaves every other as it is. */
  lemma KillLeaves(s: State, torn: Option<Bytes>, i: nat)
    ensures s.pc == Trim ==> Killed(s, torn).disk == s.disk.(refAudio := torn)
    ensures s.pc == RenderClip(i) && i < IDLE_CLIPS && !HasClip(s.disk, i) && torn.Some? ==>
              Killed(s, torn).disk == s.disk.(idle := s.disk.idle[i := torn.value])
    ensures s.pc == RenderClip(i) && i < IDLE_CLIPS && !HasClip(s.disk, i) && torn.None? ==>
              Killed(s, torn).disk == s.disk.(idle := s.disk.idle - {i})
    ensures s.pc != Trim && !(s.pc.RenderClip? && s.pc.i < IDLE_CLIPS && !HasClip(s.disk, s.pc.i)) ==>
              Killed(s, torn).disk == s.disk
  {
  }

  /** A clip torn by a killed worker passes for a finished one: the next run, with nothing failing, is READY with it. */
  lemma TornClipIsKept(w: Inputs, s: State, torn: Bytes, i: nat)
    requires s.pc == RenderClip(i) && i < IDLE_CLIPS && !HasClip(s.disk, i) && torn != []
    requires s.disk.refAudio.Some? && w.voice.Some? && w.photo.Some?
    ensures var killed := Killed(s, Some(torn));
            && Enabled(killed, Resume) && Next(w, killed, Resume) == Begun(killed)
            && var e := Drive(w, Begun(killed), Undisturbed());
               e.status == Ready && HasClip(e.disk, i) && e.disk.idle[i] == torn
  {
    var killed := Killed(s, Some(torn));
    KillLeaves(s, Some(torn), i);
    ReadyWhenNothingFails(w, killed, Undisturbed());
    assert HasClip(killed.disk, i);
    DriveKeepsClip(w, Begun(killed), Undisturbed(), i);
  }

  lemma {:induction false} DriveKeepsClip(w: Inputs, s: State, plan: Plan, i: nat)
    requires HasClip(s.disk, i)
    ensures HasClip(Drive(w, s, plan).disk, i) && Drive(w, s, plan).disk.idle[i] == s.disk.idle[i]
    decreases Rank(s.pc)
  {
    if s.pc != Idle {
      StepFrame(w, s, plan(s.pc));
      StepDescends(w, s, plan(s.pc));
      DriveKeepsClip(w, StepOf(w, s, plan(s.pc)), plan, i);
    }
  }

  /** A render that fails or is cancelled leaves no file at its index, not even an empty one. */
  lemma FailedRenderLeavesNone(w: Inputs, s: State, i: nat, c: Choice)
    requires s.pc == RenderClip(i) && i < IDLE_CLIPS && !HasClip(s.disk, i) && !c.Ok?
    ensures i !in StepOf(w, s, c).disk.idle
    ensures forall j | j != i :: j in StepOf(w, s, c).disk.idle <==> j in s.disk.idle
  {
  }

  /** A trim that fails, or makes less than a second, leaves no reference. */
  lemma FailedTrimLeavesNone(w: Inputs, s: State, c: Choice)
    requires s.pc == Trim && !c.Cancel? && StepOf(w, s, c).pc == FailedWrite
    ensures StepOf(w, s, c).disk == s.disk.(refAudio := None)
  {
  }

  // ------------------------------------------------------------------ admission

  /** Exactly which requests are accepted, and what the others are told. */
  lemma Admission(status: Option<Status>, step: Option<Step>)
    ensures WriteVerdict(status) == NotFound <==> status == None
    ensures WriteVerdict(status) == Conflict <==> status == Some(Processing)
    ensures StartVerdict(status, step) == NotFound <==> status == None
    ensures StartVerdict(status, step) == Accepted <==>
              status in {Some(Draft), Some(Failed)} && step in {None, Some(ReadyStep), Some(FailedStep)}
  {
  }
}
