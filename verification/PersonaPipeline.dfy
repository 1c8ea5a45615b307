/**
  * The persona-creation run as a state machine over durable files, the database status and the
  * in-memory progress step. One run at a time; each step is what happens between two points at
  * which the run can fail, be cancelled, or be killed with the worker.
  */
module PersonaPipeline {
  import opened Text

  const IDLE_CLIPS: nat := 2

  /** The files below the persona's directory that a run reads back or leaves behind. */
  datatype Disk = Disk(
    refAudio: Option<Bytes>,     // voice_ref/ref_audio.wav
    legacy: set<string>,         // suffixes of any other voice_ref/ref_audio.*
    refText: Option<string>,     // voice_ref/ref_text.txt
    idle: map<nat, Bytes>)       // idle/{i}.mp4

  /** What is fixed for a persona: its uploads, and what the models make of them. */
  datatype Inputs = Inputs(
    voice: Option<Bytes>,
    photo: Option<Bytes>,
    trim: Bytes -> Option<Bytes>,       // None: ffmpeg fails, or less than a second is left
    transcribe: Bytes -> string,
    render: (Bytes, nat) -> Bytes)

  datatype Status = Draft | Processing | Ready | Failed
  datatype Step = Pending | SelectingVoice | ExtractingRef | TranscribingStep | RenderingIdle | ReadyStep | FailedStep
  datatype Reason = Cancelled | StageError

  datatype Pc =
    | Idle
    | StartWrite             // update_persona_status PROCESSING
    | Select                 // newest voice file
    | Prepare                // is there a ref_audio.wav already?
    | Trim                   // ffmpeg writes ref_audio.wav
    | CleanLegacy            // other ref_audio.* files
    | Invalidate             // a new ref_audio voids the old ref_text
    | Transcribe
    | PickPhoto
    | RenderClip(i: nat)
    | InsertRow(i: nat)
    | ReadyWrite             // update_persona_status READY
    | FailedWrite            // update_persona_status FAILED

  datatype State = State(
    disk: Disk,
    status: Status,
    rows: seq<nat>,                    // sequence_order of the persona_idle_clips rows
    step: Option<Step>,                // None: not tracked by this worker
    error: Option<Reason>,
    pc: Pc,
    trims: nat, transcripts: nat,      // successful trims; non-empty transcripts stored
    renders: map<nat, nat>)            // successful non-empty renders, by index

  /** How a step ends. A cancelled trim leaves whatever ffmpeg had written by then. */
  datatype Choice = Ok | Fail | Cancel(partial: Option<Bytes>)

  function Renders(s: State, i: nat): nat
  {
    if i in s.renders then s.renders[i] else 0
  }

  predicate HasText(d: Disk) { d.refText.Some? && d.refText.value != "" }
  predicate HasClip(d: Disk, i: nat) { i in d.idle && d.idle[i] != [] }

  function Failing(s: State, c: Choice): State
  {
    s.(step := Some(FailedStep), error := Some(if c.Cancel? then Cancelled else StageError), pc := FailedWrite)
  }

  function SetStep(s: State, step: Step): State
  {
    s.(step := Some(step), error := None)
  }

  /** `process_persona` enters: the PENDING step, before the status write. */
  function Begun(s: State): State
  {
    SetStep(s, Pending).(pc := StartWrite)
  }

  /** ffmpeg, its return code and the length check. A failed trim removes its output. */
  function TrimStep(w: Inputs, s: State, c: Choice): State
  {
    match c
    case Cancel(partial) => Failing(s.(disk := s.disk.(refAudio := partial)), c)
    case Fail => Failing(s.(disk := s.disk.(refAudio := None)), c)
    case Ok =>
      if w.voice.None? || w.trim(w.voice.value).None?
      then Failing(s.(disk := s.disk.(refAudio := None)), Fail)
      else s.(disk := s.disk.(refAudio := w.trim(w.voice.value)), trims := s.trims + 1, pc := CleanLegacy)
  }

  /** The transcript of ref_audio.wav: kept if there is a non-empty one, otherwise replaced atomically. */
  function TranscribeStep(w: Inputs, s: State, c: Choice): State
  {
    var done := SetStep(s, RenderingIdle).(pc := PickPhoto);
    if HasText(s.disk) then done
    else if !c.Ok? || s.disk.refAudio.None? then Failing(s, c)
    else
      var text := w.transcribe(s.disk.refAudio.value);
      done.(disk := s.disk.(refText := Some(text)),
            transcripts := s.transcripts + (if text != "" then 1 else 0))
  }

  /** Clip `i`: rendered unless a non-empty file is there. A failed render leaves no file. */
  function RenderStep(w: Inputs, s: State, i: nat, c: Choice): State
  {
    if i >= IDLE_CLIPS then s.(pc := InsertRow(0))
    else if HasClip(s.disk, i) then s.(pc := RenderClip(i + 1))
    else if !c.Ok? || w.photo.None? then Failing(s.(disk := s.disk.(idle := s.disk.idle - {i})), c)
    else
      var clip := w.render(w.photo.value, i);
      s.(disk := s.disk.(idle := s.disk.idle[i := clip]),
         renders := if clip != [] then s.renders[i := Renders(s, i) + 1] else s.renders,
         pc := RenderClip(i + 1))
  }

  /** One step of a run in progress. */
  function StepOf(w: Inputs, s: State, c: Choice): State
  {
    match s.pc
    case Idle => s
    case StartWrite =>
      if !c.Ok? then Failing(s, c) else SetStep(s, SelectingVoice).(status := Processing, pc := Select)
    case Select =>
      if c.Fail? || w.voice.None? then Failing(s, Fail)
      else SetStep(s, ExtractingRef).(pc := Prepare)
    case Prepare =>
      if s.disk.refAudio.Some? then SetStep(s, TranscribingStep).(pc := Transcribe) else s.(pc := Trim)
    case Trim => TrimStep(w, s, c)
    case CleanLegacy => s.(disk := s.disk.(legacy := {}), pc := Invalidate)
    case Invalidate => SetStep(s, TranscribingStep).(disk := s.disk.(refText := None), pc := Transcribe)
    case Transcribe => TranscribeStep(w, s, c)
    case PickPhoto => if c.Fail? || w.photo.None? then Failing(s, Fail) else s.(pc := RenderClip(0))
    case RenderClip(i) => RenderStep(w, s, i, c)
    case InsertRow(i) =>
      if i >= IDLE_CLIPS then SetStep(s, ReadyStep).(pc := ReadyWrite)
      else if !c.Ok? then Failing(s, c)
      else s.(rows := s.rows + [i], pc := InsertRow(i + 1))
    case ReadyWrite => if !c.Ok? then Failing(s, c) else s.(status := Ready, pc := Idle)
    case FailedWrite => if c.Ok? then s.(status := Failed, pc := Idle) else s.(pc := Idle)
  }

  /** The worker dies: the run and the tracked step are gone, a file being written may be torn. */
  function Killed(s: State, torn: Option<Bytes>): State
  {
    var d := match s.pc
      case Trim => s.disk.(refAudio := torn)
      case RenderClip(i) =>
        if i < IDLE_CLIPS && !HasClip(s.disk, i)
        then s.disk.(idle := if torn.Some? then s.disk.idle[i := torn.value] else s.disk.idle - {i})
        else s.disk
      case _ => s.disk;
    s.(disk := d, step := None, error := None, pc := Idle)
  }

  // ------------------------------------------------------------------ admission

  datatype Verdict = Accepted | NotFound | Conflict

  predicate InProgress(step: Option<Step>)
  {
    step.Some? && step.value != ReadyStep && step.value != FailedStep
  }

  /** `start_processing`. */
  function StartVerdict(status: Option<Status>, step: Option<Step>): Verdict
  {
    if status.None? then NotFound
    else if InProgress(step) || status.value in {Processing, Ready} then Conflict
    else Accepted
  }

  /** The guard of both uploads and of deletion. */
  function WriteVerdict(status: Option<Status>): Verdict
  {
    if status.None? then NotFound else if status.value == Processing then Conflict else Accepted
  }

  // ------------------------------------------------------------------ runs

  /** `Start` goes through the route; `Resume` is the function called again without it. */
  datatype Label = Start | Resume | Advance(c: Choice) | Kill(torn: Option<Bytes>)

  predicate Enabled(s: State, l: Label)
  {
    match l
    case Start => s.pc == Idle && StartVerdict(Some(s.status), s.step) == Accepted
    case Resume => s.pc == Idle
    case Advance(_) => s.pc != Idle
    case Kill(_) => true
  }

  function Next(w: Inputs, s: State, l: Label): State
    requires Enabled(s, l)
  {
    match l
    case Start => Begun(s)
    case Resume => Begun(s)
    case Advance(c) => StepOf(w, s, c)
    case Kill(torn) => Killed(s, torn)
  }

  ghost predicate Valid(w: Inputs, s: State, run: seq<Label>)
    decreases |run|
  {
    run != [] ==> Enabled(s, run[0]) && Valid(w, Next(w, s, run[0]), run[1..])
  }

  ghost function After(w: Inputs, s: State, run: seq<Label>): State
    requires Valid(w, s, run)
    decreases |run|
  {
    if run == [] then s else After(w, Next(w, s, run[0]), run[1..])
  }

  /** Steps left in a run. */
  function Rank(pc: Pc): nat
  {
    match pc
    case Idle => 0
    case FailedWrite => 1
    case ReadyWrite => 2
    case InsertRow(i) => 3 + (if i < IDLE_CLIPS then IDLE_CLIPS - i else 0)
    case RenderClip(i) => 4 + IDLE_CLIPS + (if i < IDLE_CLIPS then IDLE_CLIPS - i else 0)
    case PickPhoto => 5 + 2 * IDLE_CLIPS
    case Transcribe => 6 + 2 * IDLE_CLIPS
    case Invalidate => 7 + 2 * IDLE_CLIPS
    case CleanLegacy => 8 + 2 * IDLE_CLIPS
    case Trim => 9 + 2 * IDLE_CLIPS
    case Prepare => 10 + 2 * IDLE_CLIPS
    case Select => 11 + 2 * IDLE_CLIPS
    case StartWrite => 12 + 2 * IDLE_CLIPS
  }

  lemma LongStepsDescend(w: Inputs, s: State, c: Choice)
    ensures s.pc == Trim ==> Rank(TrimStep(w, s, c).pc) < Rank(s.pc)
    ensures s.pc == Transcribe ==> Rank(TranscribeStep(w, s, c).pc) < Rank(s.pc)
  {
  }

  lemma RenderDescends(w: Inputs, s: State, i: nat, c: Choice)
    ensures Rank(RenderStep(w, s, i, c).pc) < Rank(RenderClip(i))
  {
  }

  /** Every run ends, whatever happens in it. */
  lemma StepDescends(w: Inputs, s: State, c: Choice)
    requires s.pc != Idle
    ensures Rank(StepOf(w, s, c).pc) < Rank(s.pc)
  {
    match s.pc
    case Trim => LongStepsDescend(w, s, c);
    case Transcribe => LongStepsDescend(w, s, c);
    case RenderClip(i) => RenderDescends(w, s, i, c);
    case _ =>
  }

  /** What befalls one run: how each of its steps ends. */
  type Plan = Pc -> Choice

  /** A run driven to its end. */
  function Drive(w: Inputs, s: State, plan: Plan): State
    decreases Rank(s.pc)
  {
    if s.pc == Idle then s
    else
      StepDescends(w, s, plan(s.pc));
      Drive(w, StepOf(w, s, plan(s.pc)), plan)
  }

  /** A driven run is a run of the machine: nothing happens in it that the machine does not allow. */
  lemma {:induction false} DriveIsARun(w: Inputs, s: State, plan: Plan) returns (run: seq<Label>)
    ensures Valid(w, s, run) && After(w, s, run) == Drive(w, s, plan)
    ensures Drive(w, s, plan).pc == Idle
    ensures forall i | 0 <= i < |run| :: run[i].Advance?
    decreases Rank(s.pc)
  {
    if s.pc == Idle {
      run := [];
    } else {
      var c := plan(s.pc);
      StepDescends(w, s, c);
      var rest := DriveIsARun(w, StepOf(w, s, c), plan);
      run := [Advance(c)] + rest;
      assert run[1..] == rest;
    }
  }
}
