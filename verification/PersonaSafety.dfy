/** What survives failure, cancellation, a killed worker and retries of persona creation. */
module PersonaSafety {
  import opened Text
  import opened PersonaPipeline

  // ------------------------------------------------------------------ the voice reference pair

  /** A non-empty ref_text belongs to the ref_audio that is there. */
  ghost predicate Paired(w: Inputs, d: Disk)
  {
    HasText(d) ==> d.refAudio.Some? && d.refText.value == w.transcribe(d.refAudio.value)
  }

  /** Where the run is says whether ref_audio.wav is there. */
  ghost predicate AudioMatchesPc(s: State)
  {
    && (s.pc == Trim ==> s.disk.refAudio.None?)
    && (s.pc in {CleanLegacy, Invalidate, Transcribe, PickPhoto, ReadyWrite} || s.pc.RenderClip? || s.pc.InsertRow?
        ==> s.disk.refAudio.Some?)
  }

  ghost predicate PairInv(w: Inputs, s: State)
  {
    Paired(w, s.disk) && AudioMatchesPc(s)
  }

  lemma PairStep(w: Inputs, s: State, l: Label)
    requires Enabled(s, l)
    requires PairInv(w, s)
    ensures PairInv(w, Next(w, s, l))
  {
  }

  lemma {:induction false} PairedThroughout(w: Inputs, s: State, run: seq<Label>)
    requires PairInv(w, s) && Valid(w, s, run)
    ensures PairInv(w, After(w, s, run))
    decreases |run|
  {
    if run != [] {
      PairStep(w, s, run[0]);
      PairedThroughout(w, Next(w, s, run[0]), run[1..]);
    }
  }

  /**
    * From an empty voice_ref, after every step of every sequence of runs, ended, failed,
    * cancelled or killed anywhere: a non-empty ref_text is the transcript of ref_audio.wav.
    */
  lemma PairedFromEmpty(w: Inputs, s: State, run: seq<Label>)
    requires s.pc == Idle && s.disk.refAudio.None? && s.disk.refText.None? && Valid(w, s, run)
    ensures Paired(w, After(w, s, run).disk)
  {
    PairedThroughout(w, s, run);
  }

  // ------------------------------------------------------------------ repairing a stale pair

  /** Both files are there and the text is the transcript of the audio. */
  ghost predicate Matched(w: Inputs, d: Disk)
  {
    d.refAudio.Some? && d.refText.Some? && d.refText.value == w.transcribe(d.refAudio.value)
  }

  /** An old text that a run would keep although it does not belong to the audio it keeps. */
  ghost predicate KeepsStaleText(w: Inputs, d: Disk)
  {
    d.refAudio.Some? && HasText(d) && d.refText.value != w.transcribe(d.refAudio.value)
  }

  // ------------------------------------------------------------------ what one READY run leaves

  /** The uploads are there, and there is a ref_audio.wav or one can be made. */
  ghost predicate Usable(w: Inputs, d: Disk)
  {
    && w.voice.Some? && w.photo.Some?
    && (d.refAudio.Some? || w.trim(w.voice.value).Some?)
  }

  /** The voice reference that is there, or a new one in place of everything older. */
  function WithAudio(w: Inputs, was: Disk): Disk
  {
    if was.refAudio.Some? || w.voice.None? then was
    else was.(refAudio := w.trim(w.voice.value), legacy := {}, refText := None)
  }

  /** With the transcript that is there, or a new one. */
  function WithText(w: Inputs, was: Disk): Disk
  {
    var d := WithAudio(w, was);
    if HasText(d) || d.refAudio.None? then d else d.(refText := Some(w.transcribe(d.refAudio.value)))
  }

  /** The first `n` clips, each the one that is there or a new one. */
  function Filled(w: Inputs, idle: map<nat, Bytes>, n: nat): (r: map<nat, Bytes>)
    requires w.photo.Some?
    ensures forall j: nat | j >= n :: (j in r <==> j in idle) && (j in r ==> r[j] == idle[j])
    ensures forall j: nat | j < n :: j in r
              && r[j] == if j in idle && idle[j] != [] then idle[j] else w.render(w.photo.value, j)
  {
    if n == 0 then idle
    else
      var r := Filled(w, idle, n - 1);
      if n - 1 in idle && idle[n - 1] != [] then r else r[n - 1 := w.render(w.photo.value, n - 1)]
  }

  function WithClips(w: Inputs, was: Disk, n: nat): Disk
    requires w.photo.Some?
  {
    WithText(w, was).(idle := Filled(w, was.idle, n))
  }

  /** The files of a run that started from `was` and ended READY. */
  function ReadyDisk(w: Inputs, was: Disk): Disk
    requires w.photo.Some?
  {
    WithClips(w, was, IDLE_CLIPS)
  }

  /** How far the files have come, by program point. */
  ghost predicate RunProgress(w: Inputs, was: Disk, s: State)
  {
    && (s.pc != Idle ==> s.status != Ready)
    && (s.pc != Idle && s.pc != FailedWrite && s.pc != StartWrite && s.pc != Select ==> w.voice.Some?)
    && match s.pc
       case Idle => s.status == Ready ==> Usable(w, was) && s.disk == ReadyDisk(w, was)
       case FailedWrite => true
       case StartWrite => s.disk == was
       case Select => s.disk == was
       case Prepare => s.disk == was
       case Trim => s.disk == was && was.refAudio.None?
       case CleanLegacy =>
         && was.refAudio.None? && w.trim(w.voice.value).Some?
         && s.disk == was.(refAudio := w.trim(w.voice.value))
       case Invalidate =>
         && was.refAudio.None? && w.trim(w.voice.value).Some?
         && s.disk == was.(refAudio := w.trim(w.voice.value), legacy := {})
       case Transcribe => s.disk.refAudio.Some? && s.disk == WithAudio(w, was)
       case PickPhoto => s.disk.refAudio.Some? && s.disk == WithText(w, was)
       case RenderClip(i) =>
         Usable(w, was) && s.disk == WithClips(w, was, if i < IDLE_CLIPS then i else IDLE_CLIPS)
       case _ => Usable(w, was) && s.disk == ReadyDisk(w, was)
  }

  lemma RunProgressStep(w: Inputs, was: Disk, s: State, c: Choice)
    requires s.pc != Idle && RunProgress(w, was, s)
    ensures RunProgress(w, was, StepOf(w, s, c))
  {
    if s.pc.RenderClip? { ClipProgress(w, was, s, s.pc.i, c); }
    if s.pc == PickPhoto && w.photo.Some? { assert Filled(w, was.idle, 0) == was.idle; }
  }

  /** Clip `i` is still as the run found it when its turn comes. */
  lemma ClipsSoFar(w: Inputs, was: Disk, i: nat)
    requires w.photo.Some?
    ensures HasClip(WithClips(w, was, i), i) <==> HasClip(was, i)
    ensures WithClips(w, was, i + 1)
         == if HasClip(was, i) then WithClips(w, was, i)
            else WithClips(w, was, i).(idle := WithClips(w, was, i).idle[i := w.render(w.photo.value, i)])
  {
    assert Filled(w, was.idle, i + 1)
        == if HasClip(was, i) then Filled(w, was.idle, i) else Filled(w, was.idle, i)[i := w.render(w.photo.value, i)];
  }

  lemma ClipProgress(w: Inputs, was: Disk, s: State, i: nat, c: Choice)
    requires s.pc == RenderClip(i) && RunProgress(w, was, s)
    ensures RunProgress(w, was, RenderStep(w, s, i, c))
  {
    if i < IDLE_CLIPS {
      ClipsSoFar(w, was, i);
    }
  }

  lemma {:induction false} RunProgressDrive(w: Inputs, was: Disk, s: State, plan: Plan)
    requires RunProgress(w, was, s)
    ensures RunProgress(w, was, Drive(w, s, plan)) && Drive(w, s, plan).pc == Idle
    decreases Rank(s.pc)
  {
    if s.pc != Idle {
      var c := plan(s.pc);
      RunProgressStep(w, was, s, c);
      StepDescends(w, s, c);
      RunProgressDrive(w, was, StepOf(w, s, c), plan);
    }
  }

  /** A run that ends READY had usable uploads, and leaves what was there with the gaps filled from them. */
  lemma ReadyRunFillsGaps(w: Inputs, s: State, plan: Plan)
    requires s.pc == Idle && s.status != Ready
    requires Drive(w, Begun(s), plan).status == Ready
    ensures Usable(w, s.disk) && Drive(w, Begun(s), plan).disk == ReadyDisk(w, s.disk)
  {
    RunProgressDrive(w, s.disk, Begun(s), plan);
  }

  /**
    * A run that ends READY, from any files at all. The pair matches exactly when the run did
    * not keep a stale text; starting without ref_audio.wav it always matches, and then no other
    * ref_audio.* is left.
    */
  lemma ReadyRunRepairsPair(w: Inputs, s: State, plan: Plan)
    requires s.pc == Idle && s.status != Ready
    requires Drive(w, Begun(s), plan).status == Ready
    ensures var d := Drive(w, Begun(s), plan).disk;
            && (Matched(w, d) <==> !KeepsStaleText(w, s.disk))
            && (s.disk.refAudio.None? ==> Matched(w, d) && d.legacy == {})
  {
    ReadyRunFillsGaps(w, s, plan);
  }

  /** `sorted(glob("ref_audio.*"))`: suffixes in code point order. */
  predicate NotAfter(a: string, b: string)
  {
    a == "" || (b != "" && (a[0] < b[0] || (a[0] == b[0] && NotAfter(a[1..], b[1..]))))
  }

  function Candidates(d: Disk): set<string>
  {
    d.legacy + (if d.refAudio.Some? then {"wav"} else {})
  }

  /** The suffix of the file that speech synthesis is given as its reference. */
  ghost predicate FirstCandidate(d: Disk, suffix: string)
  {
    suffix in Candidates(d) && forall other | other in Candidates(d) :: NotAfter(suffix, other)
  }

  /**
    * Synthesis is handed ref_audio.wav with its own transcript: the two files match, and no older
    * ref_audio.* comes before it.
    */
  ghost predicate HandsMatchedPair(w: Inputs, d: Disk)
  {
    Matched(w, d) && FirstCandidate(d, "wav")
  }

  /** Every older voice reference comes after `ref_audio.wav` in order. */
  ghost predicate WavComesFirst(legacy: set<string>)
  {
    forall suffix | suffix in legacy :: NotAfter("wav", suffix)
  }

  /**
    * What synthesis gets after any READY run: the matched pair if and only if the run made its own
    * ref_audio.wav, or kept one beside which there is neither a stale text nor an older reference
    * that comes first.
    */
  lemma SynthesisGetsMatchedPair(w: Inputs, s: State, plan: Plan)
    requires s.pc == Idle && s.status != Ready
    requires Drive(w, Begun(s), plan).status == Ready
    ensures HandsMatchedPair(w, Drive(w, Begun(s), plan).disk) <==>
              s.disk.refAudio.None? || (!KeepsStaleText(w, s.disk) && WavComesFirst(s.disk.legacy))
    ensures s.disk.refAudio.None? ==> Candidates(Drive(w, Begun(s), plan).disk) == {"wav"}
  {
    ReadyRunRepairsPair(w, s, plan);
    ReadyRunFillsGaps(w, s, plan);
    NotAfterReflexive("wav");
  }

  lemma {:induction false} NotAfterReflexive(a: string)
    ensures NotAfter(a, a)
  {
    if a != "" { NotAfterReflexive(a[1..]); }
  }

  /** Nothing goes wrong. */
  function Undisturbed(): Plan
  {
    pc => Ok
  }

  /** ffmpeg is cancelled, with `torn` written. */
  function CancellingTrim(torn: Bytes): Plan
  {
    pc => if pc == Trim then Cancel(Some(torn)) else Ok
  }

  /** A run cancelled in its trim, and then one in which nothing goes wrong: READY with the torn file. */
  lemma CancelledThenClean(w: Inputs, s: State, torn: Bytes)
    requires w.voice.Some? && w.photo.Some? && s.pc == Idle && s.status == Draft && s.disk.refAudio.None?
    ensures var first := Drive(w, Begun(s), CancellingTrim(torn));
            var second := Drive(w, Begun(first), Undisturbed());
            && first.status == Failed && first.pc == Idle && first.disk == s.disk.(refAudio := Some(torn))
            && second.status == Ready && second.disk == ReadyDisk(w, first.disk)
  {
    var first := Drive(w, Begun(s), CancellingTrim(torn));
    CancelledRun(w, s, CancellingTrim(torn), torn);
    ReadyWhenNothingFails(w, first, Undisturbed());
    ReadyRunFillsGaps(w, first, Undisturbed());
  }

  lemma Mp3ComesFirst(d: Disk)
    requires d.legacy == {"mp3"} && d.refAudio.Some?
    ensures FirstCandidate(d, "mp3") && !FirstCandidate(d, "wav")
  {
    NotAfterReflexive("mp3");
    assert NotAfter("mp3", "wav") && !NotAfter("wav", "mp3");
    assert "mp3" in Candidates(d);
  }

  /**
    * The repair does not survive a cancelled run: a cancelled trim leaves a ref_audio.wav beside
    * the stale text and the old mp3, and the next run, with nothing going wrong, is READY with both.
    */
  lemma CancelledTrimDefeatsRepair(w: Inputs, s: State, torn: Bytes)
    requires w.voice.Some? && w.trim(w.voice.value).Some? && w.photo.Some? && w.transcribe(torn) == "new"
    requires s.pc == Idle && s.status == Draft
    requires s.disk.refAudio.None? && s.disk.legacy == {"mp3"} && s.disk.refText == Some("old")
    ensures var first := Drive(w, Begun(s), CancellingTrim(torn));
            var second := Drive(w, Begun(first), Undisturbed());
            && first.status == Failed && second.status == Ready
            && !Matched(w, second.disk) && FirstCandidate(second.disk, "mp3")
  {
    CancelledThenClean(w, s, torn);
    Mp3ComesFirst(ReadyDisk(w, s.disk.(refAudio := Some(torn))));
  }

  /**
    * Even with no text to go stale: the pair then matches, but the old mp3 that the cancelled trim
    * did not get to remove comes first, so synthesis reads it with the transcript of the wav.
    */
  lemma CancelledTrimHidesReference(w: Inputs, s: State, torn: Bytes)
    requires w.voice.Some? && w.trim(w.voice.value).Some? && w.photo.Some?
    requires s.pc == Idle && s.status == Draft
    requires s.disk.refAudio.None? && s.disk.legacy == {"mp3"} && s.disk.refText.None?
    ensures var first := Drive(w, Begun(s), CancellingTrim(torn));
            var second := Drive(w, Begun(first), Undisturbed());
            && first.status == Failed && !KeepsStaleText(w, first.disk) && second.status == Ready
            && Matched(w, second.disk) && FirstCandidate(second.disk, "mp3") && !HandsMatchedPair(w, second.disk)
  {
    CancelledThenClean(w, s, torn);
    Mp3ComesFirst(ReadyDisk(w, s.disk.(refAudio := Some(torn))));
  }

  /** A run without a voice reference that nothing stops gets to its trim. */
  lemma ReachesTrim(w: Inputs, s: State, plan: Plan) returns (t: State)
    requires w.voice.Some? && s.disk.refAudio.None?
    requires plan(StartWrite) == Ok && plan(Select) == Ok && plan(Prepare) == Ok
    ensures t.pc == Trim && t.disk == s.disk && t.status == Processing
    ensures Drive(w, Begun(s), plan) == Drive(w, t, plan)
  {
    var s1 := StepOf(w, Begun(s), Ok);
    var s2 := StepOf(w, s1, Ok);
    t := StepOf(w, s2, Ok);
    assert Drive(w, Begun(s), plan) == Drive(w, s1, plan);
    assert Drive(w, s1, plan) == Drive(w, s2, plan);
  }

  /** A run that has failed writes FAILED and ends. */
  lemma FailureEnds(w: Inputs, s: State, plan: Plan)
    requires s.pc == FailedWrite && plan(FailedWrite) == Ok
    ensures Drive(w, s, plan) == s.(status := Failed, pc := Idle)
  {
    assert Drive(w, StepOf(w, s, Ok), plan) == s.(status := Failed, pc := Idle);
  }

  lemma CancelledRun(w: Inputs, s: State, plan: Plan, torn: Bytes)
    requires w.voice.Some? && s.pc == Idle && s.disk.refAudio.None?
    requires plan(Trim) == Cancel(Some(torn)) && forall pc: Pc | pc != Trim :: plan(pc) == Ok
    ensures var e := Drive(w, Begun(s), plan);
            e.status == Failed && e.pc == Idle && e.disk == s.disk.(refAudio := Some(torn))
  {
    var t := ReachesTrim(w, s, plan);
    FailureEnds(w, StepOf(w, t, plan(Trim)), plan);
  }

  /** A run in which nothing goes wrong, and whose uploads are usable, ends READY. */
  ghost predicate OnTrack(w: Inputs, s: State)
  {
    && w.voice.Some? && w.photo.Some? && s.pc != FailedWrite
    && (s.pc in {StartWrite, Select, Prepare, Trim} ==> Usable(w, s.disk))
    && (s.pc == Idle ==> s.status == Ready)
    && AudioMatchesPc(s)
  }

  lemma OnTrackStep(w: Inputs, s: State)
    requires OnTrack(w, s) && s.pc != Idle
    ensures OnTrack(w, StepOf(w, s, Ok))
  {
  }

  lemma {:induction false} OnTrackDrive(w: Inputs, s: State, plan: Plan)
    requires OnTrack(w, s) && forall pc: Pc :: plan(pc) == Ok
    ensures Drive(w, s, plan).status == Ready
    decreases Rank(s.pc)
  {
    if s.pc != Idle {
      OnTrackStep(w, s);
      StepDescends(w, s, Ok);
      OnTrackDrive(w, StepOf(w, s, Ok), plan);
    }
  }

  lemma ReadyWhenNothingFails(w: Inputs, s: State, plan: Plan)
    requires Usable(w, s.disk) && forall pc: Pc :: plan(pc) == Ok
    ensures Drive(w, Begun(s), plan).status == Ready
  {
    OnTrackDrive(w, Begun(s), plan);
  }

  // ------------------------------------------------------------------ retries

  /** The files of one clean run. */
  function CleanDisk(w: Inputs): Disk
    requires w.voice.Some? && w.photo.Some? && w.trim(w.voice.value).Some?
  {
    var audio := w.trim(w.voice.value).value;
    Disk(Some(audio), {}, Some(w.transcribe(audio)),
         map[0 := w.render(w.photo.value, 0), 1 := w.render(w.photo.value, 1)])
  }

  ghost predicate GoodUploads(w: Inputs)
  {
    w.voice.Some? && w.photo.Some? && w.trim(w.voice.value).Some?
  }

  /** Every file that is there is the file of the clean run. */
  ghost predicate PartOfClean(w: Inputs, d: Disk)
    requires GoodUploads(w)
  {
    var clean := CleanDisk(w);
    && d.legacy == {}
    && (d.refAudio.Some? ==> d.refAudio == clean.refAudio)
    && (d.refText.Some? ==> d.refText == clean.refText && d.refAudio.Some?)
    && (forall i | i in d.idle :: i in clean.idle && d.idle[i] == clean.idle[i])
  }

  /** No successful trim or transcription is ever repeated. */
  ghost predicate RefsOnce(s: State)
  {
    && s.trims == (if s.disk.refAudio.Some? then 1 else 0)
    && s.transcripts == (if HasText(s.disk) then 1 else 0)
  }

  /** No successful render is ever repeated. */
  ghost predicate ClipsOnce(s: State)
  {
    forall i: nat :: Renders(s, i) == if HasClip(s.disk, i) then 1 else 0
  }

  /** How much of the clean run is there, by program point. */
  ghost predicate Reached(s: State)
  {
    && AudioMatchesPc(s)
    && (s.status == Ready ==> s.pc in {Idle, StartWrite, FailedWrite})
    && (s.pc in {Trim, CleanLegacy, Invalidate} ==> s.disk.refText.None?)
    && (s.pc == PickPhoto || s.pc.RenderClip? ==> s.disk.refText.Some?)
    && (s.pc.RenderClip? ==> ClipsUpTo(s.disk, s.pc.i))
    && (s.pc.InsertRow? || s.pc == ReadyWrite || s.status == Ready ==>
          s.disk.refAudio.Some? && s.disk.refText.Some? && ClipsUpTo(s.disk, IDLE_CLIPS))
  }

  ghost predicate ClipsUpTo(d: Disk, n: nat)
  {
    forall j: nat | j < n && j < IDLE_CLIPS :: j in d.idle
  }

  lemma ClipsUpToNext(d: Disk, i: nat, clip: Bytes)
    requires ClipsUpTo(d, i)
    ensures ClipsUpTo(d.(idle := d.idle[i := clip]), i + 1)
    ensures i in d.idle ==> ClipsUpTo(d, i + 1)
    ensures i >= IDLE_CLIPS ==> ClipsUpTo(d, IDLE_CLIPS)
  {
  }

  ghost predicate RetryInv(w: Inputs, s: State)
  {
    GoodUploads(w) && PartOfClean(w, s.disk) && RefsOnce(s) && ClipsOnce(s) && Reached(s)
  }

  /** Ordinary: anything but a cancellation while ffmpeg is writing. */
  ghost predicate Ordinary(pc: Pc, c: Choice)
  {
    pc == Trim ==> !c.Cancel?
  }

  /** Which step touches which files. */
  lemma StepFrame(w: Inputs, s: State, c: Choice)
    requires s.pc != Idle
    ensures var e := StepOf(w, s, c);
            && (s.pc != Trim ==> e.disk.refAudio == s.disk.refAudio && e.trims == s.trims)
            && (s.pc != Invalidate && s.pc != Transcribe ==>
                  e.disk.refText == s.disk.refText && e.transcripts == s.transcripts)
            && (s.pc != CleanLegacy ==> e.disk.legacy == s.disk.legacy)
            && (!s.pc.RenderClip? ==> e.disk.idle == s.disk.idle && e.renders == s.renders)
  {
  }

  lemma RetryCleanStep(w: Inputs, s: State, c: Choice)
    requires RetryInv(w, s) && s.pc != Idle && Ordinary(s.pc, c)
    ensures PartOfClean(w, StepOf(w, s, c).disk)
  {
    StepFrame(w, s, c);
  }

  lemma RetryRefsStep(w: Inputs, s: State, c: Choice)
    requires RetryInv(w, s) && s.pc != Idle && Ordinary(s.pc, c)
    ensures RefsOnce(StepOf(w, s, c))
  {
    StepFrame(w, s, c);
  }

  lemma RetryClipsStep(w: Inputs, s: State, c: Choice)
    requires ClipsOnce(s) && s.pc != Idle
    ensures ClipsOnce(StepOf(w, s, c))
  {
    StepFrame(w, s, c);
    if s.pc.RenderClip? {
      RenderOnce(w, s, s.pc.i, c);
    } else {
      var e := StepOf(w, s, c);
      forall j: nat ensures Renders(e, j) == if HasClip(e.disk, j) then 1 else 0 {
        assert Renders(s, j) == if HasClip(s.disk, j) then 1 else 0;
      }
    }
  }

  lemma RenderOnce(w: Inputs, s: State, i: nat, c: Choice)
    requires ClipsOnce(s)
    ensures ClipsOnce(RenderStep(w, s, i, c))
  {
    var e := RenderStep(w, s, i, c);
    forall j: nat ensures Renders(e, j) == if HasClip(e.disk, j) then 1 else 0 {
      assert Renders(s, j) == if HasClip(s.disk, j) then 1 else 0;
    }
  }

  lemma RetryReachedStep(w: Inputs, s: State, c: Choice)
    requires RetryInv(w, s) && s.pc != Idle && Ordinary(s.pc, c)
    ensures Reached(StepOf(w, s, c))
  {
    StepFrame(w, s, c);
    if s.pc.RenderClip? { RenderReached(w, s, s.pc.i, c); }
  }

  lemma RenderReached(w: Inputs, s: State, i: nat, c: Choice)
    requires Reached(s) && s.pc == RenderClip(i) && s.status != Ready
    ensures Reached(RenderStep(w, s, i, c))
  {
    if w.photo.Some? { ClipsUpToNext(s.disk, i, w.render(w.photo.value, i)); }
  }

  lemma {:induction false} RetryDrive(w: Inputs, s: State, plan: Plan)
    requires RetryInv(w, s)
    requires forall pc: Pc :: Ordinary(pc, plan(pc))
    ensures RetryInv(w, Drive(w, s, plan)) && Drive(w, s, plan).pc == Idle
    decreases Rank(s.pc)
  {
    if s.pc != Idle {
      var c := plan(s.pc);
      RetryCleanStep(w, s, c);
      RetryRefsStep(w, s, c);
      RetryClipsStep(w, s, c);
      RetryReachedStep(w, s, c);
      StepDescends(w, s, c);
      RetryDrive(w, StepOf(w, s, c), plan);
    }
  }

  /** Runs one after the other, each with its own misfortunes. */
  function Retry(w: Inputs, s: State, plans: seq<Plan>): State
    decreases |plans|
  {
    if plans == [] then s else Retry(w, Drive(w, Begun(s), plans[0]), plans[1..])
  }

  ghost predicate OrdinaryPlans(plans: seq<Plan>)
  {
    forall i, pc: Pc | 0 <= i < |plans| :: Ordinary(pc, plans[i](pc))
  }

  lemma {:induction false} RetryKeeps(w: Inputs, s: State, plans: seq<Plan>)
    requires RetryInv(w, s) && s.pc == Idle && OrdinaryPlans(plans)
    ensures RetryInv(w, Retry(w, s, plans)) && Retry(w, s, plans).pc == Idle
    decreases |plans|
  {
    if plans != [] {
      RetryDrive(w, Begun(s), plans[0]);
      RetryKeeps(w, Drive(w, Begun(s), plans[0]), plans[1..]);
    }
  }

  /** A persona that has never been processed. */
  function NewPersona(): State
  {
    State(Disk(None, {}, None, map[]), Draft, [], None, None, Idle, 0, 0, map[])
  }

  /**
    * Confluence. However many runs fail, anywhere, once one succeeds the files are those of a
    * single clean run, and across all of them the audio was trimmed once, a non-empty transcript
    * stored at most once and each clip with content rendered at most once.
    */
  lemma RetriesConverge(w: Inputs, plans: seq<Plan>)
    requires GoodUploads(w) && OrdinaryPlans(plans)
    requires Retry(w, NewPersona(), plans).status == Ready
    ensures var s := Retry(w, NewPersona(), plans);
            && s.disk == CleanDisk(w)
            && s.trims == 1 && s.transcripts <= 1 && forall i: nat :: Renders(s, i) <= 1
  {
    var s := Retry(w, NewPersona(), plans);
    RetryKeeps(w, NewPersona(), plans);
    assert s.disk.idle == CleanDisk(w).idle;
  }

  /** And the clean run itself, with nothing going wrong, gets there in one go. */
  lemma CleanRunSucceeds(w: Inputs, plan: Plan)
    requires GoodUploads(w) && forall pc: Pc :: plan(pc) == Ok
    ensures Drive(w, Begun(NewPersona()), plan).status == Ready
    ensures Drive(w, Begun(NewPersona()), plan).disk == CleanDisk(w)
  {
    ReadyWhenNothingFails(w, NewPersona(), plan);
    RetriesConverge(w, [plan]);
  }

  // ------------------------------------------------------------------ status and step

  /** Past the PROCESSING write and not yet failed. */
  predicate Working(pc: Pc)
  {
    pc != Idle && pc != StartWrite && pc != FailedWrite
  }

  /** From the PROCESSING write to the terminal write, which after a failure is the FAILED write. */
  predicate Occupied(s: State)
  {
    Working(s.pc) || (s.pc == FailedWrite && s.status == Processing)
  }

  ghost predicate Coupled(s: State)
  {
    && (Working(s.pc) ==> s.status == Processing)
    && (s.pc == StartWrite ==> s.status in {Draft, Failed} && s.step == Some(Pending))
    && (s.pc == FailedWrite ==> s.status != Ready)
    && (s.error.Some? <==> s.step == Some(FailedStep))
    && (s.pc == FailedWrite <==> s.step == Some(FailedStep) && s.pc != Idle)
    && (s.pc == Idle ==> !InProgress(s.step))
    && StepMatchesPc(s)
  }

  /** Which progress step is shown at which point of a run. */
  ghost predicate StepMatchesPc(s: State)
  {
    match s.pc
    case Idle => s.status == Ready ==> s.step in {None, Some(ReadyStep)}
    case StartWrite => s.step == Some(Pending)
    case Select => s.step == Some(SelectingVoice)
    case Prepare => s.step == Some(ExtractingRef)
    case Trim => s.step == Some(ExtractingRef)
    case CleanLegacy => s.step == Some(ExtractingRef)
    case Invalidate => s.step == Some(ExtractingRef)
    case Transcribe => s.step == Some(TranscribingStep)
    case ReadyWrite => s.step == Some(ReadyStep)
    case FailedWrite => s.step == Some(FailedStep)
    case _ => s.step == Some(RenderingIdle)
  }

  /** The order of the steps of a run. */
  function Ordinal(step: Step): nat
  {
    match step
    case Pending => 0
    case SelectingVoice => 1
    case ExtractingRef => 2
    case TranscribingStep => 3
    case RenderingIdle => 4
    case ReadyStep => 5
    case FailedStep => 6
  }

  /** A run moves its step to the next one or to FAILED; only a new run goes back, to PENDING. */
  ghost predicate StepMoves(l: Label, was: Option<Step>, now: Option<Step>)
  {
    match l
    case Advance(_) =>
      was.Some? && now.Some? &&
      (now == was || now.value == FailedStep || Ordinal(now.value) == Ordinal(was.value) + 1)
    case Kill(_) => now.None?
    case _ => now == Some(Pending) && !InProgress(was)
  }

  /** DRAFT or FAILED to PROCESSING, PROCESSING to READY or FAILED; FAILED also when PROCESSING could not be written. */
  ghost predicate StatusMoves(s: State, now: Status)
  {
    || now == s.status
    || (s.pc == StartWrite && s.status in {Draft, Failed} && now == Processing)
    || (s.pc == ReadyWrite && s.status == Processing && now == Ready)
    || (s.pc == FailedWrite && s.status in {Processing, Draft} && now == Failed)
  }

  /** Every step of a run that came through the route keeps database status and step coupled. */
  lemma CoupledStep(w: Inputs, s: State, l: Label)
    requires Coupled(s) && Enabled(s, l) && !l.Resume?
    ensures Coupled(Next(w, s, l))
    ensures StatusMoves(s, Next(w, s, l).status)
    ensures StepMoves(l, s.step, Next(w, s, l).step)
  {
  }

  lemma {:induction false} CoupledThroughout(w: Inputs, s: State, run: seq<Label>)
    requires Coupled(s) && Valid(w, s, run)
    requires forall i | 0 <= i < |run| :: !run[i].Resume?
    ensures Coupled(After(w, s, run))
    ensures s.status == Ready && s.pc == Idle ==> After(w, s, run).status == Ready
    decreases |run|
  {
    if run != [] {
      CoupledStep(w, s, run[0]);
      CoupledThroughout(w, Next(w, s, run[0]), run[1..]);
    }
  }

  /** The stretch is entered by the PROCESSING write only, and left by a terminal write or a dead worker only. */
  lemma OccupiedStretch(w: Inputs, s: State, l: Label)
    requires Coupled(s) && Enabled(s, l) && !l.Resume?
    ensures var e := Next(w, s, l);
            && (Occupied(s) && !Occupied(e) ==>
                  e.pc == Idle && (e.status in {Ready, Failed} || l.Kill? || (s.pc == FailedWrite && l != Advance(Ok))))
            && (!Occupied(s) && Occupied(e) ==> s.pc == StartWrite && s.status != Processing && e.status == Processing)
            && (Working(s.pc) && e.pc == FailedWrite ==> e.status == Processing && !InProgress(e.step))
  {
  }

  /** From the PROCESSING write to the terminal write, a failed run's FAILED write included, every door is shut. */
  lemma DoorsShutWhileOccupied(w: Inputs, run: seq<Label>)
    requires Valid(w, NewPersona(), run) && forall i | 0 <= i < |run| :: !run[i].Resume?
    requires Occupied(After(w, NewPersona(), run))
    ensures var s := After(w, NewPersona(), run);
            && StartVerdict(Some(s.status), s.step) == Conflict
            && WriteVerdict(Some(s.status)) == Conflict
  {
    CoupledThroughout(w, NewPersona(), run);
  }

  lemma {:induction false} StuckForever(w: Inputs, s: State, run: seq<Label>)
    requires s.pc == Idle && s.status == Processing && Valid(w, s, run)
    requires forall i | 0 <= i < |run| :: !run[i].Resume?
    ensures After(w, s, run).status == Processing && After(w, s, run).pc == Idle
    decreases |run|
  {
    if run != [] {
      assert run[0].Kill?;
      StuckForever(w, Next(w, s, run[0]), run[1..]);
    }
  }

  /** A run is cut off in that stretch: by a dead worker, or because even the FAILED write does not arrive. */
  predicate CutsOff(s: State, l: Label)
  {
    Occupied(s) && (l.Kill? || (s.pc == FailedWrite && l.Advance? && !l.c.Ok?))
  }

  ghost predicate WasCutOff(w: Inputs, s: State, run: seq<Label>)
    requires Valid(w, s, run)
    decreases |run|
  {
    run != [] && (CutsOff(s, run[0]) || WasCutOff(w, Next(w, s, run[0]), run[1..]))
  }

  /** That leaves a persona that the route never starts again and never lets be changed. */
  lemma CutOffIsStuck(w: Inputs, s: State, l: Label, run: seq<Label>)
    requires Coupled(s) && Enabled(s, l) && CutsOff(s, l)
    requires Valid(w, Next(w, s, l), run) && forall i | 0 <= i < |run| :: !run[i].Resume?
    ensures !Enabled(After(w, Next(w, s, l), run), Start)
    ensures WriteVerdict(Some(After(w, Next(w, s, l), run).status)) == Conflict
  {
    StuckForever(w, Next(w, s, l), run);
  }

  /** A persona whose last run ended in order. */
  ghost predicate InOrder(s: State)
  {
    Coupled(s) && (s.pc == Idle ==> s.status != Processing)
  }

  lemma OrderedStep(w: Inputs, s: State, l: Label)
    requires InOrder(s) && Enabled(s, l) && !l.Resume?
    ensures if CutsOff(s, l) then Next(w, s, l).pc == Idle && Next(w, s, l).status == Processing
            else InOrder(Next(w, s, l))
  {
    CoupledStep(w, s, l);
    OccupiedStretch(w, s, l);
  }

  lemma {:induction false} ProcessingMeansCutOff(w: Inputs, s: State, run: seq<Label>)
    requires InOrder(s) && Valid(w, s, run) && forall i | 0 <= i < |run| :: !run[i].Resume?
    requires After(w, s, run).pc == Idle
    ensures After(w, s, run).status == Processing <==> WasCutOff(w, s, run)
    decreases |run|
  {
    if run != [] {
      var next := Next(w, s, run[0]);
      OrderedStep(w, s, run[0]);
      if CutsOff(s, run[0]) {
        StuckForever(w, next, run[1..]);
      } else {
        ProcessingMeansCutOff(w, next, run[1..]);
      }
    }
  }

  /** Between runs the route starts a persona exactly when none of its runs was cut off and it is not READY. */
  lemma IdleDoor(w: Inputs, run: seq<Label>)
    requires Valid(w, NewPersona(), run) && forall i | 0 <= i < |run| :: !run[i].Resume?
    requires After(w, NewPersona(), run).pc == Idle
    ensures Enabled(After(w, NewPersona(), run), Start) <==>
              !WasCutOff(w, NewPersona(), run) && After(w, NewPersona(), run).status != Ready
  {
    CoupledThroughout(w, NewPersona(), run);
    ProcessingMeansCutOff(w, NewPersona(), run);
  }
}
