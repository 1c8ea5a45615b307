/** What a persona is made from when the uploads change between a failed run and the next. */
module PersonaUploads {
  import opened Text
  import opened PersonaPipeline
  import opened PersonaSafety

  /** A FAILED persona takes new uploads, so every attempt may find other ones. */
  datatype Attempt = Attempt(w: Inputs, plan: Plan)

  function Try(s: State, a: Attempt): State
  {
    Drive(a.w, Begun(s), a.plan)
  }

  function TryAll(s: State, attempts: seq<Attempt>): State
    decreases |attempts|
  {
    if attempts == [] then s else TryAll(Try(s, attempts[0]), attempts[1..])
  }

  /** No file that a run would keep differs from what the run would make. */
  ghost predicate UpToDate(w: Inputs, d: Disk)
    requires w.voice.Some? && w.photo.Some?
  {
    && (d.refAudio.Some? ==> d.refAudio == w.trim(w.voice.value))
    && !KeepsStaleText(w, d)
    && forall i: nat | i < IDLE_CLIPS && HasClip(d, i) :: d.idle[i] == w.render(w.photo.value, i)
  }

  /** And nothing is there that a run would neither make nor remove. */
  ghost predicate NothingElse(d: Disk)
  {
    (d.refAudio.Some? ==> d.legacy == {}) && forall i | i in d.idle :: i < IDLE_CLIPS
  }

  /**
    * A run that ends READY leaves exactly the files of a clean run over the uploads it found, if and
    * only if nothing it kept was made from others and nothing else was there. Without a trim of the
    * new voice there is no such clean run, and the run was READY with a kept reference.
    */
  lemma ReadyReflectsUploads(w: Inputs, s: State, plan: Plan)
    requires s.pc == Idle && s.status != Ready
    requires Drive(w, Begun(s), plan).status == Ready
    ensures w.voice.Some? && w.photo.Some?
    ensures GoodUploads(w) ==>
              (Drive(w, Begun(s), plan).disk == CleanDisk(w) <==> UpToDate(w, s.disk) && NothingElse(s.disk))
    ensures !GoodUploads(w) ==> s.disk.refAudio.Some? && Drive(w, Begun(s), plan).disk.refAudio == s.disk.refAudio
  {
    ReadyRunFillsGaps(w, s, plan);
    if GoodUploads(w) {
      ReadyClipsAreClean(w, s.disk);
      ReadyRefsAreClean(w, s.disk);
    }
  }

  lemma ReadyClipsAreClean(w: Inputs, was: Disk)
    requires GoodUploads(w)
    ensures ReadyDisk(w, was).idle == CleanDisk(w).idle <==>
              && (forall i: nat | i < IDLE_CLIPS && HasClip(was, i) :: was.idle[i] == w.render(w.photo.value, i))
              && (forall i | i in was.idle :: i < IDLE_CLIPS)
  {
    var r, c := ReadyDisk(w, was).idle, CleanDisk(w).idle;
    assert forall i: nat :: i in r <==> i in was.idle || i < IDLE_CLIPS;
    assert forall i: nat :: i in c <==> i < IDLE_CLIPS;
    assert forall i: nat | i < IDLE_CLIPS :: c[i] == w.render(w.photo.value, i);
    if forall i | i in was.idle :: i < IDLE_CLIPS {
      assert r.Keys == c.Keys;
    }
  }

  lemma ReadyRefsAreClean(w: Inputs, was: Disk)
    requires GoodUploads(w)
    ensures var r, c := ReadyDisk(w, was), CleanDisk(w);
            r.(idle := map[]) == c.(idle := map[]) <==>
              && (was.refAudio.Some? ==> was.refAudio == w.trim(w.voice.value) && was.legacy == {})
              && !KeepsStaleText(w, was)
  {
  }

  /** An old reference beside the new one is enough: nothing kept is out of date, and yet it is what synthesis reads. */
  lemma OldReferenceIsKept(w: Inputs, s: State, plan: Plan)
    requires GoodUploads(w) && s.pc == Idle && s.status == Failed
    requires s.disk == Disk(w.trim(w.voice.value), {"mp3"}, None, map[]) && forall pc: Pc :: plan(pc) == Ok
    ensures var e := Drive(w, Begun(s), plan);
            && e.status == Ready && UpToDate(w, s.disk) && e.disk != CleanDisk(w) && FirstCandidate(e.disk, "mp3")
  {
    ReadyWhenNothingFails(w, s, plan);
    ReadyRunFillsGaps(w, s, plan);
    Mp3ComesFirst(ReadyDisk(w, s.disk));
  }

  /** A voice reference once made, and a non-empty transcript of it, are never replaced. */
  ghost predicate KeepsPair(was: Disk, now: Disk)
  {
    was.refAudio.Some? ==> now.refAudio == was.refAudio && (HasText(was) ==> now.refText == was.refText)
  }

  /** Nor is a clip with content. */
  ghost predicate KeepsClips(was: Disk, now: Disk)
  {
    forall i: nat | HasClip(was, i) :: HasClip(now, i) && now.idle[i] == was.idle[i]
  }

  /** The program points at which a new ref_audio is in the making. */
  predicate Replacing(pc: Pc)
  {
    pc in {Trim, CleanLegacy, Invalidate}
  }

  lemma {:induction false} DriveKeepsPair(w: Inputs, s: State, plan: Plan)
    requires s.disk.refAudio.Some? && !Replacing(s.pc)
    ensures KeepsPair(s.disk, Drive(w, s, plan).disk)
    decreases Rank(s.pc)
  {
    if s.pc != Idle {
      StepFrame(w, s, plan(s.pc));
      StepDescends(w, s, plan(s.pc));
      DriveKeepsPair(w, StepOf(w, s, plan(s.pc)), plan);
    }
  }

  lemma StepKeepsClips(w: Inputs, s: State, c: Choice)
    requires s.pc != Idle
    ensures KeepsClips(s.disk, StepOf(w, s, c).disk)
  {
    StepFrame(w, s, c);
  }

  lemma {:induction false} DriveKeepsClips(w: Inputs, s: State, plan: Plan)
    ensures KeepsClips(s.disk, Drive(w, s, plan).disk)
    decreases Rank(s.pc)
  {
    if s.pc != Idle {
      StepKeepsClips(w, s, plan(s.pc));
      StepDescends(w, s, plan(s.pc));
      DriveKeepsClips(w, StepOf(w, s, plan(s.pc)), plan);
    }
  }

  /** Whatever is uploaded later, and however the attempts end, what was once made stays. */
  lemma {:induction false} AttemptsKeep(s: State, attempts: seq<Attempt>)
    ensures KeepsPair(s.disk, TryAll(s, attempts).disk) && KeepsClips(s.disk, TryAll(s, attempts).disk)
    decreases |attempts|
  {
    if attempts != [] {
      var a := attempts[0];
      if s.disk.refAudio.Some? { DriveKeepsPair(a.w, Begun(s), a.plan); }
      DriveKeepsClips(a.w, Begun(s), a.plan);
      AttemptsKeep(Try(s, a), attempts[1..]);
    }
  }

  /** Where a run without a voice reference gets one from: its own upload, unless ffmpeg was cancelled. */
  lemma {:induction false} NewAudioIsOwn(w: Inputs, s: State, plan: Plan)
    requires forall pc: Pc :: Ordinary(pc, plan(pc))
    requires s.disk.refAudio.None? || (w.voice.Some? && s.disk.refAudio == w.trim(w.voice.value))
    ensures var d := Drive(w, s, plan).disk;
            d.refAudio.None? || (w.voice.Some? && d.refAudio == w.trim(w.voice.value))
    decreases Rank(s.pc)
  {
    if s.pc != Idle {
      StepFrame(w, s, plan(s.pc));
      StepDescends(w, s, plan(s.pc));
      NewAudioIsOwn(w, StepOf(w, s, plan(s.pc)), plan);
    }
  }

  /** And where it gets a clip from. */
  lemma {:induction false} NewClipIsOwn(w: Inputs, s: State, plan: Plan, i: nat)
    requires HasClip(s.disk, i) ==> w.photo.Some? && s.disk.idle[i] == w.render(w.photo.value, i)
    ensures var d := Drive(w, s, plan).disk;
            HasClip(d, i) ==> w.photo.Some? && d.idle[i] == w.render(w.photo.value, i)
    decreases Rank(s.pc)
  {
    if s.pc != Idle {
      StepFrame(w, s, plan(s.pc));
      StepDescends(w, s, plan(s.pc));
      NewClipIsOwn(w, StepOf(w, s, plan(s.pc)), plan, i);
    }
  }

  ghost predicate OrdinaryAttempts(attempts: seq<Attempt>)
  {
    forall i, pc: Pc | 0 <= i < |attempts| :: Ordinary(pc, attempts[i].plan(pc))
  }

  lemma TryAllPrefix(s: State, attempts: seq<Attempt>, n: nat)
    requires 0 < n <= |attempts|
    ensures TryAll(s, attempts[..n]) == TryAll(Try(s, attempts[0]), attempts[1..][..n - 1])
  {
    assert attempts[..n][1..] == attempts[1..][..n - 1];
  }

  /**
    * The first voice wins. If there is a voice reference after some attempts, it is the trim of
    * the voice that the first attempt to get that far found, whatever was uploaded since.
    */
  lemma {:induction false} FirstVoiceWins(s: State, attempts: seq<Attempt>) returns (k: nat)
    requires s.disk.refAudio.None? && OrdinaryAttempts(attempts)
    requires TryAll(s, attempts).disk.refAudio.Some?
    ensures k < |attempts| && TryAll(s, attempts[..k]).disk.refAudio.None?
    ensures TryAll(s, attempts[..k + 1]).disk.refAudio == TryAll(s, attempts).disk.refAudio
    ensures var w := attempts[k].w;
            w.voice.Some? && TryAll(s, attempts).disk.refAudio == w.trim(w.voice.value)
    decreases |attempts|
  {
    var a := attempts[0];
    var next := Try(s, a);
    if next.disk.refAudio.Some? {
      k := 0;
      TryAllPrefix(s, attempts, 1);
      NewAudioIsOwn(a.w, Begun(s), a.plan);
      AttemptsKeep(next, attempts[1..]);
    } else {
      var j := FirstVoiceWins(next, attempts[1..]);
      k := j + 1;
      TryAllPrefix(s, attempts, k);
      TryAllPrefix(s, attempts, k + 1);
    }
  }

  /** The first photo wins, clip by clip. */
  lemma {:induction false} FirstPhotoWins(s: State, attempts: seq<Attempt>, i: nat) returns (k: nat)
    requires !HasClip(s.disk, i) && HasClip(TryAll(s, attempts).disk, i)
    ensures k < |attempts| && !HasClip(TryAll(s, attempts[..k]).disk, i)
    ensures HasClip(TryAll(s, attempts[..k + 1]).disk, i)
    ensures var w := attempts[k].w;
            w.photo.Some? && TryAll(s, attempts).disk.idle[i] == w.render(w.photo.value, i)
    decreases |attempts|
  {
    var a := attempts[0];
    var next := Try(s, a);
    if HasClip(next.disk, i) {
      k := 0;
      TryAllPrefix(s, attempts, 1);
      NewClipIsOwn(a.w, Begun(s), a.plan, i);
      AttemptsKeep(next, attempts[1..]);
    } else {
      var j := FirstPhotoWins(next, attempts[1..], i);
      k := j + 1;
      TryAllPrefix(s, attempts, k);
      TryAllPrefix(s, attempts, k + 1);
    }
  }

  /**
    * A run of such a history: the first attempt fails while transcribing, a new voice is uploaded,
    * and an attempt in which nothing fails ends READY with the old one.
    */
  lemma NewVoiceIsIgnored(w: Inputs, voice: Bytes)
    requires GoodUploads(w) && w.trim(voice).Some? && w.trim(voice) != w.trim(w.voice.value)
    ensures var first := Attempt(w, pc => if pc == Transcribe then Fail else Ok);
            var second := Attempt(w.(voice := Some(voice)), Undisturbed());
            var e := TryAll(NewPersona(), [first, second]);
            && TryAll(NewPersona(), [first]).status == Failed && e.status == Ready
            && e.disk.refAudio == w.trim(w.voice.value) && e.disk != CleanDisk(second.w)
  {
    var fail: Plan := pc => if pc == Transcribe then Fail else Ok;
    var first, second := Attempt(w, fail), Attempt(w.(voice := Some(voice)), Undisturbed());
    var s := Try(NewPersona(), first);
    FailedTranscription(w, NewPersona(), fail);
    assert TryAll(NewPersona(), [first]) == s;
    assert TryAll(s, [second]) == Try(s, second);
    assert TryAll(NewPersona(), [first, second]) == Try(s, second) by { assert [first, second][1..] == [second]; }
    ReadyWhenNothingFails(second.w, s, Undisturbed());
    ReadyRunFillsGaps(second.w, s, Undisturbed());
  }

  lemma FailedTranscription(w: Inputs, s: State, plan: Plan)
    requires GoodUploads(w) && s.pc == Idle && s.disk.refAudio.None?
    requires plan(Transcribe) == Fail && forall pc: Pc | pc != Transcribe :: plan(pc) == Ok
    ensures var e := Drive(w, Begun(s), plan);
            e.status == Failed && e.pc == Idle && e.disk.refAudio == w.trim(w.voice.value)
  {
    var t := ReachesTrim(w, s, plan);
    var s4 := StepOf(w, t, Ok);
    var s5 := StepOf(w, s4, Ok);
    var s6 := StepOf(w, s5, Ok);
    assert s6.pc == Transcribe && !HasText(s6.disk);
    FailureEnds(w, StepOf(w, s6, plan(Transcribe)), plan);
    assert Drive(w, s5, plan) == Drive(w, s6, plan);
    assert Drive(w, s4, plan) == Drive(w, s5, plan);
    assert Drive(w, t, plan) == Drive(w, s4, plan);
  }
}
