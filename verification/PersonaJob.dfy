/** `process_persona` and its helpers as they run, statement by statement. */
module PersonaJob {
  import opened Text
  import opened PersonaPipeline

  class Job {
    const w: Inputs
    var disk: Disk
    var status: Status
    var rows: seq<nat>
    var step: Option<Step>
    var error: Option<Reason>
    ghost var pc: Pc
    ghost var trims: nat
    ghost var transcripts: nat
    ghost var renders: map<nat, nat>

    ghost function Snapshot(): State
      reads this
    {
      State(disk, status, rows, step, error, pc, trims, transcripts, renders)
    }

    /** The state the run would end in from here. */
    ghost function Outcome(plan: Plan): State
      reads this
    {
      Drive(w, Snapshot(), plan)
    }

    /** `PersonaProcessingStore.set_step`. */
    method Show(now: Step, reason: Option<Reason>)
      modifies this`step, this`error
      ensures step == Some(now) && error == reason
    {
      step := Some(now);
      error := reason;
    }

    /** An exception reaches the handlers at the end of `process_persona`. */
    method Raise(c: Choice)
      modifies this`step, this`error, this`pc
      ensures Snapshot() == Failing(old(Snapshot()), c)
    {
      Show(FailedStep, Some(if c.Cancel? then Cancelled else StageError));
      pc := FailedWrite;
    }

    /** ffmpeg, its return code and the length check. */
    method TrimReference(plan: Plan) returns (ok: bool)
      requires pc == Trim
      modifies this
      ensures Outcome(plan) == old(Outcome(plan))
      ensures pc == if ok then CleanLegacy else FailedWrite
    {
      var c := plan(Trim);
      if c.Cancel? {
        disk := disk.(refAudio := c.partial);
        Raise(c);
        return false;
      }
      var trimmed := if c.Fail? || w.voice.None? then None else w.trim(w.voice.value);
      disk := disk.(refAudio := trimmed);
      if trimmed.None? {
        Raise(Fail);
        return false;
      }
      trims := trims + 1;
      pc := CleanLegacy;
      return true;
    }

    /** `_prepare_voice_ref` together with the invalidation of the old text. */
    method PrepareVoiceRef(plan: Plan) returns (ok: bool)
      requires pc == Prepare
      modifies this
      ensures Outcome(plan) == old(Outcome(plan))
      ensures pc == if ok then Transcribe else FailedWrite
    {
      var wasMissing := disk.refAudio.None?;
      if wasMissing {
        pc := Trim;
        assert Outcome(plan) == old(Outcome(plan));
        ok := TrimReference(plan);
        if !ok { return; }
        disk := disk.(legacy := {});
        pc := Invalidate;
        assert Outcome(plan) == old(Outcome(plan));
        disk := disk.(refText := None);
      }
      Show(TranscribingStep, None);
      pc := Transcribe;
      return true;
    }

    /** `_transcribe_voice`. */
    method TranscribeVoice(plan: Plan) returns (ok: bool)
      requires pc == Transcribe
      modifies this
      ensures Outcome(plan) == old(Outcome(plan))
      ensures pc == if ok then PickPhoto else FailedWrite
    {
      if !HasText(disk) {
        var c := plan(Transcribe);
        if !c.Ok? || disk.refAudio.None? {
          Raise(c);
          return false;
        }
        var text := w.transcribe(disk.refAudio.value);
        disk := disk.(refText := Some(text));
        if text != "" { transcripts := transcripts + 1; }
      }
      Show(RenderingIdle, None);
      pc := PickPhoto;
      return true;
    }

    /** `_render_idle_clips`. */
    method RenderIdleClips(plan: Plan) returns (ok: bool)
      requires pc == RenderClip(0)
      modifies this
      ensures Outcome(plan) == old(Outcome(plan))
      ensures pc == if ok then InsertRow(0) else FailedWrite
    {
      var i := 0;
      while i < IDLE_CLIPS
        invariant 0 <= i <= IDLE_CLIPS && pc == RenderClip(i)
        invariant Outcome(plan) == old(Outcome(plan))
      {
        if !HasClip(disk, i) {
          var c := plan(RenderClip(i));
          if !c.Ok? || w.photo.None? {
            disk := disk.(idle := disk.idle - {i});
            Raise(c);
            return false;
          }
          var clip := w.render(w.photo.value, i);
          disk := disk.(idle := disk.idle[i := clip]);
          if clip != [] {
            renders := renders[i := (if i in renders then renders[i] else 0) + 1];
          }
        }
        i := i + 1;
        pc := RenderClip(i);
      }
      pc := InsertRow(0);
      return true;
    }

    /** The rows of the rendered clips. */
    method InsertRows(plan: Plan) returns (ok: bool)
      requires pc == InsertRow(0)
      modifies this
      ensures Outcome(plan) == old(Outcome(plan))
      ensures pc == if ok then ReadyWrite else FailedWrite
    {
      var i := 0;
      while i < IDLE_CLIPS
        invariant 0 <= i <= IDLE_CLIPS && pc == InsertRow(i)
        invariant Outcome(plan) == old(Outcome(plan))
      {
        var c := plan(InsertRow(i));
        if !c.Ok? {
          Raise(c);
          return false;
        }
        rows := rows + [i];
        i := i + 1;
        pc := InsertRow(i);
      }
      Show(ReadyStep, None);
      pc := ReadyWrite;
      return true;
    }

    /** Everything inside the `try`, up to the uploads having been found. */
    method SelectUploads(plan: Plan) returns (ok: bool)
      requires pc == StartWrite
      modifies this
      ensures Outcome(plan) == old(Outcome(plan))
      ensures pc == if ok then Prepare else FailedWrite
    {
      var c := plan(StartWrite);
      if !c.Ok? {
        Raise(c);
        return false;
      }
      status := Processing;
      Show(SelectingVoice, None);
      pc := Select;
      assert Outcome(plan) == old(Outcome(plan));
      if plan(Select).Fail? || w.voice.None? {
        Raise(Fail);
        return false;
      }
      Show(ExtractingRef, None);
      pc := Prepare;
      return true;
    }

    method Work(plan: Plan) returns (ok: bool)
      requires pc == StartWrite
      modifies this
      ensures Outcome(plan) == old(Outcome(plan))
      ensures pc == if ok then ReadyWrite else FailedWrite
    {
      ok := SelectUploads(plan);
      if !ok { return; }
      ok := PrepareVoiceRef(plan);
      if !ok { return; }
      ok := TranscribeVoice(plan);
      if !ok { return; }
      if plan(PickPhoto).Fail? || w.photo.None? {
        Raise(Fail);
        return false;
      }
      pc := RenderClip(0);
      assert Outcome(plan) == old(Outcome(plan));
      ok := RenderIdleClips(plan);
      if !ok { return; }
      ok := InsertRows(plan);
    }

    /** The handlers' status write. */
    method RecordFailure(plan: Plan)
      requires pc == FailedWrite
      modifies this
      ensures Snapshot() == old(Outcome(plan))
    {
      if plan(FailedWrite).Ok? {
        status := Failed;
      }
      pc := Idle;
      assert Outcome(plan) == Snapshot();
    }

    /** The last status write of a run. */
    method Conclude(plan: Plan, ok: bool)
      requires pc == if ok then ReadyWrite else FailedWrite
      modifies this
      ensures Snapshot() == old(Outcome(plan))
    {
      if ok {
        if plan(ReadyWrite).Ok? {
          status := Ready;
          pc := Idle;
          assert Outcome(plan) == Snapshot();
          return;
        }
        Raise(plan(ReadyWrite));
        assert Outcome(plan) == old(Outcome(plan));
      }
      RecordFailure(plan);
    }

    /** `process_persona`: exactly the run that the state machine drives. */
    method ProcessPersona(plan: Plan)
      requires pc == Idle
      modifies this
      ensures Snapshot() == Drive(w, Begun(old(Snapshot())), plan)
    {
      Show(Pending, None);
      pc := StartWrite;
      var ok := Work(plan);
      Conclude(plan, ok);
    }
  }
}
