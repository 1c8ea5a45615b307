/** The in-memory state of one conversation. */
module Sessions {

  datatype Role = User | Assistant
  datatype MessageRecord = MessageRecord(role: Role, text: string, createdAt: int)

  class SessionState {
    const sessionId: nat
    const personaId: nat
    var history: seq<MessageRecord>
    var lastActivityAt: int

    constructor (sessionId: nat, personaId: nat, now: int)
      ensures this.sessionId == sessionId && this.personaId == personaId
      ensures history == [] && lastActivityAt == now
    {
      this.sessionId := sessionId;
      this.personaId := personaId;
      history := [];
      lastActivityAt := now;
    }
  }

  /** The media files under `speak/{session_id}/`. */
  datatype MediaFile = Wav(id: nat) | Mp4(id: nat)

  class SpeakDir {
    var present: bool
    var files: set<MediaFile>
  }
}

/** One message of a conversation: the server-sent events, the history, the media files. */
module Conversation {
  import opened Text
  import opened Sessions

  const HISTORY_MAX_CHARS: nat := 4000
  const HISTORY_MAX_MESSAGES: nat := 20

  /**
    * The two safety guards and the sentence that replaces a forbidden answer. Everything below
    * holds for any guards that let their own fallback pass; `SafeConversation` shows that the
    * guards of this service do.
    */
  datatype Guards = Guards(crisis: string -> Option<string>, forbidden: string -> bool, fallback: string)
  {
    predicate Coherent() { !forbidden(fallback) }
  }

  // ------------------------------------------------------------------ trimming

  datatype Turn = Turn(role: Role, text: string)

  function AsTurns(messages: seq<MessageRecord>): (r: seq<Turn>)
    ensures |r| == |messages|
    ensures forall i | 0 <= i < |r| :: r[i] == Turn(messages[i].role, messages[i].text)
  {
    seq(|messages|, i requires 0 <= i < |messages| => Turn(messages[i].role, messages[i].text))
  }

  function Chars(messages: seq<MessageRecord>): nat
  {
    if messages == [] then 0 else |messages[0].text| + Chars(messages[1..])
  }

  /** The last `k` messages. */
  function Last(history: seq<MessageRecord>, k: nat): seq<MessageRecord>
    requires k <= |history|
  {
    history[|history| - k..]
  }

  /** The last `k` messages respect both bounds. */
  ghost predicate Fits(history: seq<MessageRecord>, k: nat, maxChars: nat, maxMessages: nat)
  {
    k <= |history| && k <= maxMessages && Chars(Last(history, k)) <= maxChars
  }

  lemma LastStep(history: seq<MessageRecord>, k: nat)
    requires k < |history|
    ensures Last(history, k + 1) == [history[|history| - 1 - k]] + Last(history, k)
    ensures Chars(Last(history, k + 1)) == |history[|history| - 1 - k].text| + Chars(Last(history, k))
  {
    assert Last(history, k + 1)[1..] == Last(history, k);
  }

  /** A longer suffix is never cheaper, so one that does not fit rules out all longer ones. */
  lemma {:induction false} FitsDownward(history: seq<MessageRecord>, k: nat, j: nat, maxChars: nat, maxMessages: nat)
    requires j <= k && Fits(history, k, maxChars, maxMessages)
    ensures Fits(history, j, maxChars, maxMessages)
  {
    if j < k {
      LastStep(history, k - 1);
      FitsDownward(history, k - 1, j, maxChars, maxMessages);
    }
  }

  /** The longest suffix within both bounds; stated without an algorithm. */
  ghost predicate LongestFit(history: seq<MessageRecord>, turns: seq<Turn>, maxChars: nat, maxMessages: nat)
  {
    && |turns| <= |history|
    && turns == AsTurns(Last(history, |turns|))
    && Fits(history, |turns|, maxChars, maxMessages)
    && forall j: nat | Fits(history, j, maxChars, maxMessages) :: j <= |turns|
  }

  /** There is exactly one such suffix. */
  lemma LongestFitUnique(history: seq<MessageRecord>, a: seq<Turn>, b: seq<Turn>, maxChars: nat, maxMessages: nat)
    requires LongestFit(history, a, maxChars, maxMessages)
    requires LongestFit(history, b, maxChars, maxMessages)
    ensures a == b
  {
    assert |a| == |b|;
  }

  function TrimFrom(history: seq<MessageRecord>, kept: nat, maxChars: nat, maxMessages: nat): (k: nat)
    requires kept <= |history|
    ensures kept <= k <= |history|
    decreases |history| - kept
  {
    if kept == |history| || kept >= maxMessages
       || Chars(Last(history, kept)) + |history[|history| - 1 - kept].text| > maxChars
    then kept
    else TrimFrom(history, kept + 1, maxChars, maxMessages)
  }

  function Trimmed(history: seq<MessageRecord>, maxChars: nat, maxMessages: nat): seq<Turn>
  {
    AsTurns(Last(history, TrimFrom(history, 0, maxChars, maxMessages)))
  }

  lemma {:induction false} TrimFromLongest(history: seq<MessageRecord>, kept: nat, maxChars: nat, maxMessages: nat)
    requires Fits(history, kept, maxChars, maxMessages)
    ensures var k := TrimFrom(history, kept, maxChars, maxMessages);
            && Fits(history, k, maxChars, maxMessages)
            && forall j: nat | Fits(history, j, maxChars, maxMessages) :: j <= k
    decreases |history| - kept
  {
    if kept < |history| { LastStep(history, kept); }
    if TrimFrom(history, kept, maxChars, maxMessages) != kept {
      TrimFromLongest(history, kept + 1, maxChars, maxMessages);
    } else {
      forall j: nat | Fits(history, j, maxChars, maxMessages) ensures j <= kept {
        if j > kept { FitsDownward(history, j, kept + 1, maxChars, maxMessages); }
      }
    }
  }

  lemma TrimmedIsLongest(history: seq<MessageRecord>, maxChars: nat, maxMessages: nat)
    ensures LongestFit(history, Trimmed(history, maxChars, maxMessages), maxChars, maxMessages)
  {
    TrimFromLongest(history, 0, maxChars, maxMessages);
  }

  function Reverse(turns: seq<Turn>): (r: seq<Turn>)
    ensures |r| == |turns| && forall i | 0 <= i < |r| :: r[i] == turns[|turns| - 1 - i]
  {
    seq(|turns|, i requires 0 <= i < |turns| => turns[|turns| - 1 - i])
  }

  lemma OneMoreTurn(history: seq<MessageRecord>, kept: seq<Turn>)
    requires |kept| < |history| && Reverse(kept) == AsTurns(Last(history, |kept|))
    ensures var m := history[|history| - 1 - |kept|];
            Reverse(kept + [Turn(m.role, m.text)]) == AsTurns(Last(history, |kept| + 1))
  {
    var m := history[|history| - 1 - |kept|];
    var r := Reverse(kept + [Turn(m.role, m.text)]);
    LastStep(history, |kept|);
    assert forall i | 0 < i < |r| :: r[i] == Reverse(kept)[i - 1];
  }

  /** `_trim_history`: walks back from the newest message and stops at the first bound it meets. */
  method TrimHistory(history: seq<MessageRecord>, maxChars: nat, maxMessages: nat)
    returns (kept: seq<Turn>)
    ensures LongestFit(history, kept, maxChars, maxMessages)
    ensures kept == Trimmed(history, maxChars, maxMessages)
  {
    kept := [];
    var totalChars := 0;
    var i := |history|;
    while i > 0
      invariant 0 <= i <= |history| && |kept| == |history| - i
      invariant Reverse(kept) == AsTurns(Last(history, |kept|))
      invariant totalChars == Chars(Last(history, |kept|))
      invariant TrimFrom(history, 0, maxChars, maxMessages) == TrimFrom(history, |kept|, maxChars, maxMessages)
    {
      var msg := history[i - 1];
      LastStep(history, |kept|);
      if totalChars + |msg.text| > maxChars || |kept| >= maxMessages {
        break;
      }
      OneMoreTurn(history, kept);
      kept := kept + [Turn(msg.role, msg.text)];
      totalChars := totalChars + |msg.text|;
      i := i - 1;
    }
    kept := Reverse(kept);
    TrimmedIsLongest(history, maxChars, maxMessages);
  }

  // ------------------------------------------------------------------ one message

  /**
    * How far media synthesis gets. A cancellation is a `CancelledError` at one of its awaits, which
    * no `except Exception` catches. `written` says that the thread of the speech model has put its
    * file on the disk all the same. A cancelled renderer unlinks its output; only the placeholder
    * that stands in for it without a GPU leaves its file, as `placeholder` says.
    */
  datatype Media =
    | MkdirFails | VoiceRefMissing | SynthesisFails | PhotoMissing | RenderFails | Rendered
    | CancelledAtGpu | CancelledInSpeech(written: bool) | CancelledAtDitto | CancelledInRender(placeholder: bool)
  {
    predicate Cancelled()
    {
      CancelledAtGpu? || CancelledInSpeech? || CancelledAtDitto? || CancelledInRender?
    }
  }

  /** What comes back for the recording of the user. */
  datatype Heard = Heard(text: string) | HearingFails | HearingCancelled

  /** What the language model streams back for a context: tokens, and how the stream ends. */
  datatype Reply = Reply(tokens: seq<string>, end: StreamEnd)
  datatype StreamEnd = Complete | Raised | Interrupted

  /**
    * Everything one message takes from the models, the disk, the clock and its client; `logCancelled`
    * is a cancellation while the safety log of a guard that matched is being written.
    */
  datatype Outcome = Outcome(
    heard: Heard, logCancelled: bool, reply: seq<Turn> -> Reply, media: Media, now: int)

  datatype Failure = TranscribeFailed | StreamFailed | MediaFailed
  datatype Event =
    | Token(text: string)
    | TextDone(id: nat, final: string)
    | MediaReady(id: nat)
    | Crisis(id: nat, keyword: string)
    | Error(reason: Failure)

  function Tokens(parts: seq<string>): (r: seq<Event>)
    ensures |r| == |parts| && forall i | 0 <= i < |r| :: r[i] == Token(parts[i])
  {
    seq(|parts|, i requires 0 <= i < |parts| => Token(parts[i]))
  }

  /** What becomes of a message up to the point where its text is final. */
  datatype Answer =
    | NoTranscript
    | InCrisis(keyword: string)
    | Broken(sent: seq<string>)
    | Abandoned(sent: seq<string>)      // cancelled at an await before there was a final text
    | Answered(sent: seq<string>, user: string, final: string)
  {
    function Sent(): seq<string>
    {
      match this
      case Broken(sent) => sent
      case Abandoned(sent) => sent
      case Answered(sent, _, _) => sent
      case _ => []
    }
  }

  /** The text announced, stored and spoken: the stripped reply, or the fallback when it is forbidden. */
  function FinalText(g: Guards, parts: seq<string>): (final: string)
    ensures g.Coherent() ==> !g.forbidden(final)
  {
    var full := Strip(Concat(parts));
    if g.forbidden(full) then g.fallback else full
  }

  /**
    * An answer that is stored and spoken belongs to a user text that is no crisis, and carries
    * the text of the tokens that were sent.
    */
  function AnswerOf(g: Guards, history: seq<MessageRecord>, o: Outcome): (a: Answer)
    ensures a.Answered? ==> g.crisis(a.user).None? && a.final == FinalText(g, a.sent)
  {
    match o.heard
    case HearingFails => NoTranscript
    case HearingCancelled => Abandoned([])
    case Heard(user) =>
      var crisis := g.crisis(user);
      if crisis.Some? then (if o.logCancelled then Abandoned([]) else InCrisis(crisis.value))
      else
        var reply := o.reply(Trimmed(history, HISTORY_MAX_CHARS, HISTORY_MAX_MESSAGES));
        match reply.end
        case Raised => Broken(reply.tokens)
        case Interrupted => Abandoned(reply.tokens)
        case Complete =>
          if o.logCancelled && g.forbidden(Strip(Concat(reply.tokens))) then Abandoned(reply.tokens)
          else Answered(reply.tokens, user, FinalText(g, reply.tokens))
  }

  function MediaEvents(id: nat, media: Media): seq<Event>
  {
    if media.MkdirFails? || media.Cancelled() then []
    else if media.Rendered? then [MediaReady(id)]
    else [Error(MediaFailed)]
  }

  /** What follows the tokens when the message is consumed as far as it goes. */
  function Ending(a: Answer, id: nat, media: Media): seq<Event>
  {
    match a
    case NoTranscript => [Error(TranscribeFailed)]
    case InCrisis(keyword) => [Crisis(id, keyword)]
    case Broken(_) => [Error(StreamFailed)]
    case Abandoned(_) => []
    case Answered(_, _, final) => [TextDone(id, final)] + MediaEvents(id, media)
  }

  /** The events of a message that is consumed as far as it goes. */
  function FullTrace(a: Answer, id: nat, media: Media): seq<Event>
  {
    Tokens(a.Sent()) + Ending(a, id, media)
  }

  /** The generator is resumed after `text_done` has been delivered. */
  predicate Recorded(a: Answer, pulls: nat)
  {
    a.Answered? && pulls > |a.sent| + 1
  }

  function Pair(user: string, assistant: string, now: int): seq<MessageRecord>
  {
    [MessageRecord(User, user, now), MessageRecord(Assistant, assistant, now)]
  }

  function HistoryAfter(history: seq<MessageRecord>, a: Answer, now: int, pulls: nat): seq<MessageRecord>
  {
    if Recorded(a, pulls) then history + Pair(a.user, a.final, now) else history
  }

  function Take<T>(s: seq<T>, n: nat): seq<T>
  {
    if n <= |s| then s[..n] else s
  }

  // ------------------------------------------------------------------ what a message must show

  /** The user was heard, and what was said is no crisis. */
  predicate Calm(g: Guards, o: Outcome)
  {
    o.heard.Heard? && g.crisis(o.heard.text).None?
  }

  /** The joined tokens of a reply without white space around them. */
  function Whole(reply: Reply): string
  {
    Strip(Concat(reply.tokens))
  }

  /** There is a text to announce. */
  predicate Told(g: Guards, o: Outcome, reply: Reply)
  {
    Calm(g, o) && reply.end.Complete? && !(o.logCancelled && g.forbidden(Whole(reply)))
  }

  /** The generator goes on after it has announced the text. */
  predicate Resumed(g: Guards, o: Outcome, reply: Reply, pulls: nat)
  {
    Told(g, o, reply) && pulls > |reply.tokens| + 1
  }

  function Announced(g: Guards, reply: Reply): string
  {
    if g.forbidden(Whole(reply)) then g.fallback else Whole(reply)
  }

  /** A crisis that is heard is answered with its keyword and with nothing else, and only then. */
  ghost predicate ShowsCrisis(g: Guards, o: Outcome, id: nat, pulls: nat, trace: seq<Event>)
  {
    && (pulls > 0 && o.heard.Heard? && g.crisis(o.heard.text).Some? && !o.logCancelled ==>
          trace == [Crisis(id, g.crisis(o.heard.text).value)])
    && (forall e | e in trace && e.Crisis? ::
          o.heard.Heard? && g.crisis(o.heard.text) == Some(e.keyword) && e.id == id && !o.logCancelled)
  }

  /** Each failure is told by its own reason, exactly when it happens and the consumer gets that far. */
  ghost predicate ShowsFailures(g: Guards, o: Outcome, reply: Reply, pulls: nat, trace: seq<Event>)
  {
    && (Error(TranscribeFailed) in trace <==> pulls > 0 && o.heard.HearingFails?)
    && (Error(StreamFailed) in trace <==> Calm(g, o) && reply.end.Raised? && pulls > |reply.tokens|)
    && (Error(MediaFailed) in trace <==>
          Resumed(g, o, reply, pulls) && o.media in {VoiceRefMissing, SynthesisFails, PhotoMissing, RenderFails})
  }

  /** The text is announced exactly when there is one, and the video exactly when it was rendered. */
  ghost predicate ShowsResults(g: Guards, o: Outcome, reply: Reply, id: nat, pulls: nat, trace: seq<Event>)
  {
    && (forall i: nat, final :: TextDone(i, final) in trace <==>
          Told(g, o, reply) && pulls > |reply.tokens| && i == id && final == Announced(g, reply))
    && (forall i: nat :: MediaReady(i) in trace <==> Resumed(g, o, reply, pulls) && o.media.Rendered? && i == id)
  }

  /** The tokens come first, in order, as far as they are asked for, and no more events than that are sent. */
  ghost predicate ShowsTokens(g: Guards, o: Outcome, reply: Reply, pulls: nat, trace: seq<Event>)
  {
    && |trace| <= pulls
    && (Calm(g, o) && pulls <= |reply.tokens| ==> |trace| == pulls)
    && (Calm(g, o) && pulls > |reply.tokens| ==> |trace| >= |reply.tokens|)
    && (forall i | 0 <= i < |trace| :: trace[i].Token? <==> Calm(g, o) && i < |reply.tokens|)
    && (forall i | 0 <= i < |trace| && i < |reply.tokens| && Calm(g, o) :: trace[i] == Token(reply.tokens[i]))
  }

  /** The pair that is recorded, exactly when the message goes on after its text: what was heard, what was announced. */
  function Recording(g: Guards, o: Outcome, reply: Reply, pulls: nat): seq<MessageRecord>
  {
    if Resumed(g, o, reply, pulls)
    then [MessageRecord(User, o.heard.text, o.now), MessageRecord(Assistant, Announced(g, reply), o.now)]
    else []
  }

  /** What is handed to speech synthesis: the announced text, unless the media stop before. */
  function Speech(g: Guards, o: Outcome, reply: Reply, pulls: nat): Option<string>
  {
    if Resumed(g, o, reply, pulls) && o.media !in {MkdirFails, VoiceRefMissing, CancelledAtGpu}
    then Some(Announced(g, reply)) else None
  }

  /** The model is given the longest suffix of the history within 4000 characters and 20 messages. */
  ghost predicate IsReply(o: Outcome, history: seq<MessageRecord>, reply: Reply)
  {
    exists context :: LongestFit(history, context, 4000, 20) && reply == o.reply(context)
  }

  lemma ReplyIsUnique(o: Outcome, history: seq<MessageRecord>, reply: Reply)
    ensures IsReply(o, history, reply) <==> reply == o.reply(Trimmed(history, HISTORY_MAX_CHARS, HISTORY_MAX_MESSAGES))
  {
    var context := Trimmed(history, HISTORY_MAX_CHARS, HISTORY_MAX_MESSAGES);
    TrimmedIsLongest(history, HISTORY_MAX_CHARS, HISTORY_MAX_MESSAGES);
    if IsReply(o, history, reply) {
      var other :| LongestFit(history, other, 4000, 20) && reply == o.reply(other);
      LongestFitUnique(history, context, other, 4000, 20);
    }
  }

  /** What becomes of a message, kind by kind. */
  predicate AnswerFits(a: Answer, g: Guards, o: Outcome, reply: Reply)
  {
    match a
    case NoTranscript => o.heard.HearingFails?
    case InCrisis(keyword) => o.heard.Heard? && g.crisis(o.heard.text) == Some(keyword) && !o.logCancelled
    case Broken(sent) => Calm(g, o) && reply.end.Raised? && sent == reply.tokens
    case Answered(sent, user, final) =>
      Told(g, o, reply) && sent == reply.tokens && user == o.heard.text && final == Announced(g, reply)
    case Abandoned(sent) =>
      && !Told(g, o, reply)
      && if Calm(g, o) then !reply.end.Raised? && sent == reply.tokens
         else sent == [] && !o.heard.HearingFails? && (o.heard.Heard? ==> o.logCancelled)
  }

  lemma AnswerOfFits(g: Guards, history: seq<MessageRecord>, o: Outcome, reply: Reply)
    requires IsReply(o, history, reply)
    ensures AnswerFits(AnswerOf(g, history, o), g, o, reply)
  {
    ReplyIsUnique(o, history, reply);
  }

  /** `e` is event `k` after the tokens, and is asked for. */
  predicate Follows(a: Answer, id: nat, media: Media, pulls: nat, k: nat, e: Event)
  {
    pulls > |a.Sent()| + k && |Ending(a, id, media)| > k && Ending(a, id, media)[k] == e
  }

  lemma TakeMember(head: seq<Event>, tail: seq<Event>, pulls: nat, e: Event)
    requires e !in head && |tail| <= 2
    ensures e in Take(head + tail, pulls) <==>
              (pulls > |head| && |tail| > 0 && tail[0] == e) || (pulls > |head| + 1 && |tail| > 1 && tail[1] == e)
  {
    var t := Take(head + tail, pulls);
    if e in t {
      var i :| 0 <= i < |t| && t[i] == e;
      assert i >= |head| && tail[i - |head|] == e;
    }
    assert pulls > |head| && |tail| > 0 ==> t[|head|] == tail[0];
    assert pulls > |head| + 1 && |tail| > 1 ==> t[|head| + 1] == tail[1];
  }

  /** Where an event other than a token stands in a trace. */
  lemma TraceMember(a: Answer, id: nat, media: Media, pulls: nat, e: Event)
    requires !e.Token?
    ensures e in Take(FullTrace(a, id, media), pulls) <==>
              Follows(a, id, media, pulls, 0, e) || Follows(a, id, media, pulls, 1, e)
  {
    TakeMember(Tokens(a.Sent()), Ending(a, id, media), pulls, e);
  }

  lemma FitShowsTokens(a: Answer, g: Guards, o: Outcome, reply: Reply, id: nat, pulls: nat)
    requires AnswerFits(a, g, o, reply)
    ensures ShowsTokens(g, o, reply, pulls, Take(FullTrace(a, id, o.media), pulls))
  {
    var full := FullTrace(a, id, o.media);
    assert a.Sent() == if Calm(g, o) then reply.tokens else [];
    assert forall i | 0 <= i < |a.Sent()| :: full[i] == Token(a.Sent()[i]);
    assert forall i | |a.Sent()| <= i < |full| :: full[i] == Ending(a, id, o.media)[i - |a.Sent()|];
  }

  lemma FitShowsCrisis(a: Answer, g: Guards, o: Outcome, reply: Reply, id: nat, pulls: nat)
    requires AnswerFits(a, g, o, reply)
    ensures ShowsCrisis(g, o, id, pulls, Take(FullTrace(a, id, o.media), pulls))
  {
    var t := Take(FullTrace(a, id, o.media), pulls);
    if a.InCrisis? {
      assert FullTrace(a, id, o.media) == [Crisis(id, a.keyword)];
    }
    forall e | e in t && e.Crisis? ensures a.InCrisis? && e == Crisis(id, a.keyword) {
      TraceMember(a, id, o.media, pulls, e);
    }
  }

  lemma FitShowsFailures(a: Answer, g: Guards, o: Outcome, reply: Reply, id: nat, pulls: nat)
    requires AnswerFits(a, g, o, reply)
    ensures ShowsFailures(g, o, reply, pulls, Take(FullTrace(a, id, o.media), pulls))
  {
    TraceMember(a, id, o.media, pulls, Error(TranscribeFailed));
    TraceMember(a, id, o.media, pulls, Error(StreamFailed));
    TraceMember(a, id, o.media, pulls, Error(MediaFailed));
  }

  lemma FitShowsResults(a: Answer, g: Guards, o: Outcome, reply: Reply, id: nat, pulls: nat)
    requires AnswerFits(a, g, o, reply)
    ensures ShowsResults(g, o, reply, id, pulls, Take(FullTrace(a, id, o.media), pulls))
  {
    var t := Take(FullTrace(a, id, o.media), pulls);
    forall i: nat, final
      ensures TextDone(i, final) in t <==>
                Told(g, o, reply) && pulls > |reply.tokens| && i == id && final == Announced(g, reply)
    {
      TraceMember(a, id, o.media, pulls, TextDone(i, final));
    }
    forall i: nat
      ensures MediaReady(i) in t <==> Resumed(g, o, reply, pulls) && o.media.Rendered? && i == id
    {
      TraceMember(a, id, o.media, pulls, MediaReady(i));
    }
  }

  lemma FitShowsRecord(
    a: Answer, g: Guards, o: Outcome, reply: Reply, history: seq<MessageRecord>, pulls: nat)
    requires AnswerFits(a, g, o, reply)
    ensures HistoryAfter(history, a, o.now, pulls) == history + Recording(g, o, reply, pulls)
    ensures Recorded(a, pulls) <==> Resumed(g, o, reply, pulls)
    ensures Recorded(a, pulls) ==> a.final == Announced(g, reply)
  {
    assert history + [] == history;
  }

  /** The token loop; `closed` when the caller stops inside it. */
  method StreamTokens(tokens: seq<string>, pulls: nat) returns (parts: seq<string>, trace: seq<Event>, closed: bool)
    requires pulls > 0
    ensures trace == Take(Tokens(tokens), pulls)
    ensures closed <==> pulls <= |tokens|
    ensures !closed ==> parts == tokens
  {
    parts, trace, closed := [], [], false;
    var i := 0;
    while i < |tokens|
      invariant 0 <= i <= |tokens| && i < pulls
      invariant parts == tokens[..i]
      invariant trace == Tokens(tokens)[..i]
    {
      parts := parts + [tokens[i]];
      trace := trace + [Token(tokens[i])];
      i := i + 1;
      if |trace| == pulls {
        closed := true;
        return;
      }
    }
  }

  /** The files of message `id` once synthesis has ended, well or badly, or was cancelled. */
  function FilesAfter(files: set<MediaFile>, id: nat, media: Media): set<MediaFile>
  {
    match media
    case MkdirFails => files
    case CancelledAtGpu => files
    case CancelledInSpeech(written) => if written then files + {Wav(id)} else files
    case CancelledAtDitto => files + {Wav(id)}
    case CancelledInRender(placeholder) => files + {Wav(id)} + (if placeholder then {Mp4(id)} else {})
    case Rendered => files - {Wav(id)} + {Mp4(id)}
    case _ => files - {Wav(id), Mp4(id)}
  }

  /**
    * When a message leaves files behind. Its wav stays exactly when it was cancelled after speech
    * synthesis had written it; its mp4 stays exactly when it is announced, or when the placeholder
    * for the renderer was cancelled after writing it. No other message's files are touched.
    */
  lemma StrayFiles(files: set<MediaFile>, id: nat, media: Media, f: MediaFile)
    requires Wav(id) !in files && Mp4(id) !in files
    ensures Wav(id) in FilesAfter(files, id, media) <==>
              media.CancelledAtDitto? || media.CancelledInRender? || (media.CancelledInSpeech? && media.written)
    ensures Mp4(id) in FilesAfter(files, id, media) <==>
              MediaReady(id) in MediaEvents(id, media) || (media.CancelledInRender? && media.placeholder)
    ensures f.id != id ==> (f in FilesAfter(files, id, media) <==> f in files)
  {
  }

  /** The text that reaches speech synthesis, if it is reached. */
  function SpokenText(text: string, media: Media): Option<string>
  {
    if media.MkdirFails? || media.VoiceRefMissing? || media.CancelledAtGpu? then None else Some(text)
  }

  /** Speech and video for a text, up to the last event or to the await at which it is cancelled. */
  method SynthesiseMedia(speak: SpeakDir, id: nat, media: Media, text: string)
    returns (events: seq<Event>, spoken: Option<string>)
    modifies speak
    ensures events == MediaEvents(id, media)
    ensures spoken == SpokenText(text, media)
    ensures speak.present == (old(speak.present) || !media.MkdirFails?)
    ensures speak.files == FilesAfter(old(speak.files), id, media)
  {
    events, spoken := [], None;
    if media.MkdirFails? {
      // The cleanup names `wav_path` before it is bound: the exception leaves the generator.
      return;
    }
    speak.present := true;
    if media.CancelledAtGpu? { return; }
    if !media.VoiceRefMissing? {
      spoken := Some(text);
      if !(media.CancelledInSpeech? && !media.written) {
        speak.files := speak.files + {Wav(id)};
      }
      if media.CancelledInSpeech? || media.CancelledAtDitto? { return; }
      if media.RenderFails? || media.Rendered? || (media.CancelledInRender? && media.placeholder) {
        speak.files := speak.files + {Mp4(id)};
      }
      if media.CancelledInRender? { return; }
    }
    if media.Rendered? {
      speak.files := speak.files - {Wav(id)};
      events := [MediaReady(id)];
    } else {
      speak.files := speak.files - {Wav(id), Mp4(id)};
      events := [Error(MediaFailed)];
    }
  }

  /** From the finished text on: announce it, record the pair, synthesise the media. */
  method Deliver(session: SessionState, speak: SpeakDir, id: nat, a: Answer, media: Media, now: int, pulls: nat)
    returns (trace: seq<Event>, spoken: Option<string>)
    requires a.Answered? && pulls > |a.sent|
    modifies session, speak
    ensures trace == Take(FullTrace(a, id, media), pulls)
    ensures session.history == HistoryAfter(old(session.history), a, now, pulls)
    ensures session.lastActivityAt == (if Recorded(a, pulls) then now else old(session.lastActivityAt))
    ensures spoken == (if Recorded(a, pulls) then SpokenText(a.final, media) else None)
    ensures speak.present <==> old(speak.present) || (Recorded(a, pulls) && !media.MkdirFails?)
    ensures speak.files == (if Recorded(a, pulls) then FilesAfter(old(speak.files), id, media) else old(speak.files))
  {
    trace, spoken := Tokens(a.sent) + [TextDone(id, a.final)], None;
    if |trace| == pulls { return; }

    session.history := session.history + [MessageRecord(User, a.user, now)];
    session.history := session.history + [MessageRecord(Assistant, a.final, now)];
    session.lastActivityAt := now;

    var events;
    events, spoken := SynthesiseMedia(speak, id, media, a.final);
    trace := trace + events;
    assert trace == FullTrace(a, id, media);
  }

  /** The body of `process_message`, up to the last event, the closing or the cancellation. */
  method Respond(g: Guards, session: SessionState, speak: SpeakDir, id: nat, o: Outcome, pulls: nat)
    returns (trace: seq<Event>, spoken: Option<string>)
    modifies session, speak
    ensures var a := AnswerOf(g, old(session.history), o);
            && trace == Take(FullTrace(a, id, o.media), pulls)
            && session.history == HistoryAfter(old(session.history), a, o.now, pulls)
            && session.lastActivityAt == (if Recorded(a, pulls) then o.now else old(session.lastActivityAt))
            && spoken == (if Recorded(a, pulls) then SpokenText(a.final, o.media) else None)
            && (speak.present <==> old(speak.present) || (Recorded(a, pulls) && !o.media.MkdirFails?))
            && speak.files ==
                 (if Recorded(a, pulls) then FilesAfter(old(speak.files), id, o.media) else old(speak.files))
  {
    trace, spoken := [], None;
    ghost var a, full := AnswerOf(g, session.history, o), FullTrace(AnswerOf(g, session.history, o), id, o.media);
    if pulls == 0 { return; }
    if o.heard.HearingCancelled? {
      assert full == [];
      return;
    }
    if o.heard.HearingFails? {
      assert full == [Error(TranscribeFailed)];
      return [Error(TranscribeFailed)], None;
    }
    var userText := o.heard.text;
    var crisis := g.crisis(userText);
    if crisis.Some? {
      assert full == if o.logCancelled then [] else [Crisis(id, crisis.value)];
      if !o.logCancelled { trace := [Crisis(id, crisis.value)]; }
      return;
    }

    var context := TrimHistory(session.history, HISTORY_MAX_CHARS, HISTORY_MAX_MESSAGES);
    var reply := o.reply(context);
    assert a.Sent() == reply.tokens;
    var parts, closed;
    parts, trace, closed := StreamTokens(reply.tokens, pulls);
    if closed || reply.end.Interrupted? { return; }
    if reply.end.Raised? {
      assert full == Tokens(reply.tokens) + [Error(StreamFailed)];
      trace := trace + [Error(StreamFailed)];
      return;
    }
    if g.forbidden(Strip(Concat(parts))) && o.logCancelled { return; }
    var finalText := FinalText(g, parts);
    var answer := Answered(parts, userText, finalText);
    assert answer == a;
    trace, spoken := Deliver(session, speak, id, answer, o.media, o.now, pulls);
  }

  /**
    * `process_message`, an asynchronous generator. The caller asks for `pulls` events and then
    * closes the generator, which stops it at the event it is suspended on; asking for more than
    * there are runs it to its end, or to the await at which the outcome cancels it. `spoken` is the
    * text handed to speech synthesis, if any, and never one that the output guard forbids.
    */
  method ProcessMessage(g: Guards, session: SessionState, speak: SpeakDir, id: nat, o: Outcome, pulls: nat)
    returns (trace: seq<Event>, spoken: Option<string>)
    modifies session, speak
    ensures var a := AnswerOf(g, old(session.history), o);
            && trace == Take(FullTrace(a, id, o.media), pulls)
            && session.history == HistoryAfter(old(session.history), a, o.now, pulls)
            && session.lastActivityAt == (if Recorded(a, pulls) then o.now else old(session.lastActivityAt))
            && spoken == (if Recorded(a, pulls) then SpokenText(a.final, o.media) else None)
            && (speak.present <==> old(speak.present) || (Recorded(a, pulls) && !o.media.MkdirFails?))
            && speak.files ==
                 (if Recorded(a, pulls) then FilesAfter(old(speak.files), id, o.media) else old(speak.files))
    ensures spoken.Some? && g.Coherent() ==> !g.forbidden(spoken.value)
    ensures ShowsCrisis(g, o, id, pulls, trace)
    ensures o.heard.Heard? && g.crisis(o.heard.text).Some? ==> session.history == old(session.history) && spoken == None
    ensures forall reply | IsReply(o, old(session.history), reply) ::
              && ShowsFailures(g, o, reply, pulls, trace)
              && ShowsResults(g, o, reply, id, pulls, trace)
              && ShowsTokens(g, o, reply, pulls, trace)
              && session.history == old(session.history) + Recording(g, o, reply, pulls)
              && session.lastActivityAt == (if Resumed(g, o, reply, pulls) then o.now else old(session.lastActivityAt))
              && spoken == Speech(g, o, reply, pulls)
              && (speak.present <==> old(speak.present) || (Resumed(g, o, reply, pulls) && !o.media.MkdirFails?))
  {
    trace, spoken := Respond(g, session, speak, id, o, pulls);
    ghost var history := old(session.history);
    ghost var a := AnswerOf(g, history, o);
    ReplyIsUnique(o, history, o.reply(Trimmed(history, HISTORY_MAX_CHARS, HISTORY_MAX_MESSAGES)));
    forall reply | IsReply(o, history, reply)
      ensures ShowsCrisis(g, o, id, pulls, trace) && ShowsFailures(g, o, reply, pulls, trace)
      ensures ShowsResults(g, o, reply, id, pulls, trace) && ShowsTokens(g, o, reply, pulls, trace)
      ensures session.history == history + Recording(g, o, reply, pulls)
      ensures Recorded(a, pulls) <==> Resumed(g, o, reply, pulls)
      ensures spoken == Speech(g, o, reply, pulls)
    {
      AnswerOfFits(g, history, o, reply);
      FitShowsCrisis(a, g, o, reply, id, pulls);
      FitShowsFailures(a, g, o, reply, id, pulls);
      FitShowsResults(a, g, o, reply, id, pulls);
      FitShowsTokens(a, g, o, reply, id, pulls);
      FitShowsRecord(a, g, o, reply, history, pulls);
    }
  }

  // ------------------------------------------------------------------ the event language

  ghost predicate TokensOnly(trace: seq<Event>)
  {
    forall i | 0 <= i < |trace| :: trace[i].Token?
  }

  /** error | crisis | token* error | token* text_done (media_ready | error) */
  ghost predicate InLanguage(trace: seq<Event>)
  {
    exists n: nat :: n <= |trace| && TokensOnly(trace[..n]) && Closes(trace[n..], n)
  }

  ghost predicate Closes(tail: seq<Event>, tokens: nat)
  {
    || (|tail| == 1 && (tail[0].Error? || (tail[0].Crisis? && tokens == 0)))
    || (|tail| == 2 && tail[0].TextDone? && (tail[1].MediaReady? || tail[1].Error?))
  }

  /** The message stops without a last event: cancelled at an await, or thrown out by a failing mkdir. */
  predicate CutShort(a: Answer, media: Media)
  {
    a.Abandoned? || (a.Answered? && (media.MkdirFails? || media.Cancelled()))
  }

  lemma EndingShape(a: Answer, id: nat, media: Media)
    requires !a.Abandoned?
    ensures var e := Ending(a, id, media);
            e != [] && !e[0].Token? && (Closes(e, |a.Sent()|) <==> !CutShort(a, media))
  {
  }

  function LeadingTokens(trace: seq<Event>): nat
  {
    if trace == [] || !trace[0].Token? then 0 else 1 + LeadingTokens(trace[1..])
  }

  lemma {:induction false} LeadingTokensAre(trace: seq<Event>, n: nat)
    requires n < |trace| && TokensOnly(trace[..n]) && !trace[n].Token?
    ensures LeadingTokens(trace) == n
  {
    if n > 0 {
      assert trace[0] == trace[..n][0];
      assert trace[1..][..n - 1] == trace[..n][1..];
      LeadingTokensAre(trace[1..], n - 1);
    }
  }

  /** A word of the language has a last part, so tokens alone are none; what comes first in it tells where it begins. */
  lemma WordsClose(trace: seq<Event>, n: nat)
    requires n <= |trace| && TokensOnly(trace[..n]) && (n < |trace| ==> !trace[n].Token?)
    ensures InLanguage(trace) <==> Closes(trace[n..], n)
  {
    if InLanguage(trace) {
      var m: nat :| m <= |trace| && TokensOnly(trace[..m]) && Closes(trace[m..], m);
      assert trace[m] == trace[m..][0];
      LeadingTokensAre(trace, m);
      if n < |trace| { LeadingTokensAre(trace, n); }
    }
  }

  /** A message that is consumed as far as it goes is a word of the language exactly when it was not cut short. */
  lemma CompletedTraceInLanguage(a: Answer, id: nat, media: Media)
    ensures InLanguage(FullTrace(a, id, media)) <==> !CutShort(a, media)
  {
    var n, t := |a.Sent()|, FullTrace(a, id, media);
    assert t[..n] == Tokens(a.Sent()) && t[n..] == Ending(a, id, media);
    if !a.Abandoned? {
      EndingShape(a, id, media);
      assert t[n] == t[n..][0];
    }
    WordsClose(t, n);
  }

  /** The same message when nothing cuts it short. */
  function Mended(a: Answer): Answer
  {
    if a.Abandoned? then Broken(a.sent) else a
  }

  function MendedMedia(media: Media): (m: Media)
    ensures !m.MkdirFails? && !m.Cancelled()
  {
    if media.MkdirFails? || media.Cancelled() then Rendered else media
  }

  lemma CutShortIsPrefix(a: Answer, id: nat, media: Media)
    ensures FullTrace(a, id, media) <= FullTrace(Mended(a), id, MendedMedia(media))
  {
    assert Ending(a, id, media) <= Ending(Mended(a), id, MendedMedia(media));
  }

  /** However early the generator is closed or cancelled, what was sent begins a word of the language. */
  lemma EveryTraceIsAPrefix(a: Answer, id: nat, media: Media, pulls: nat)
    ensures exists word :: InLanguage(word) && Take(FullTrace(a, id, media), pulls) <= word
  {
    CompletedTraceInLanguage(Mended(a), id, MendedMedia(media));
    CutShortIsPrefix(a, id, media);
    assert Take(FullTrace(a, id, media), pulls) <= FullTrace(Mended(a), id, MendedMedia(media));
  }

  /** A message whose speak directory cannot be made: its trace is no word, for any text and reply that get that far. */
  lemma MkdirFailureEscapes(
    g: Guards, history: seq<MessageRecord>, user: string, tokens: seq<string>, id: nat, now: int)
    requires g.crisis(user).None?
    ensures var o := Outcome(Heard(user), false, _ => Reply(tokens, Complete), MkdirFails, now);
            && AnswerOf(g, history, o).Answered?
            && FullTrace(AnswerOf(g, history, o), id, o.media) == Tokens(tokens) + [TextDone(id, FinalText(g, tokens))]
            && !InLanguage(FullTrace(AnswerOf(g, history, o), id, o.media))
  {
    var o := Outcome(Heard(user), false, _ => Reply(tokens, Complete), MkdirFails, now);
    CompletedTraceInLanguage(AnswerOf(g, history, o), id, o.media);
  }

  function Texts(tokens: seq<Event>): seq<string>
    requires TokensOnly(tokens)
  {
    seq(|tokens|, i requires 0 <= i < |tokens| => tokens[i].text)
  }

  /** Everything before `text_done` is a token, and `text_done` is the text of those tokens. */
  lemma TextDonePosition(a: Answer, id: nat, media: Media, i: nat)
    requires i < |FullTrace(a, id, media)| && FullTrace(a, id, media)[i].TextDone?
    ensures a.Answered? && FullTrace(a, id, media)[i].final == a.final
    ensures TokensOnly(FullTrace(a, id, media)[..i]) && Texts(FullTrace(a, id, media)[..i]) == a.sent
  {
    assert i >= |a.Sent()|;
    assert Ending(a, id, media)[i - |a.Sent()|].TextDone?;
    assert i == |a.sent|;
    assert FullTrace(a, id, media)[..i] == Tokens(a.sent);
  }

  /**
    * The announced text, without reference to how it is computed: the fallback for a forbidden
    * reply, otherwise the tokens joined, with the white space around them and nothing else removed.
    */
  lemma AnnouncedText(g: Guards, history: seq<MessageRecord>, o: Outcome) returns (before: string, after: string)
    requires AnswerOf(g, history, o).Answered?
    ensures var a := AnswerOf(g, history, o);
            && Concat(a.sent) == before + Strip(Concat(a.sent)) + after && AllSpace(before) && AllSpace(after)
            && if g.forbidden(Strip(Concat(a.sent))) then a.final == g.fallback
               else Concat(a.sent) == before + a.final + after && Stripped(a.final)
  {
    before, after := StripDecomposes(Concat(AnswerOf(g, history, o).sent));
  }

  /** History grows only after `text_done` has been sent, and then by one pair with that text. */
  lemma GrowthFollowsTextDone(history: seq<MessageRecord>, a: Answer, id: nat, media: Media, now: int, pulls: nat)
    requires HistoryAfter(history, a, now, pulls) != history
    ensures var h, t := HistoryAfter(history, a, now, pulls), Take(FullTrace(a, id, media), pulls);
            && |h| == |history| + 2 && history <= h
            && h[|history|].role == User && h[|history| + 1].role == Assistant
            && TextDone(id, h[|history| + 1].text) in t
  {
    assert Take(FullTrace(a, id, media), pulls)[|a.sent|] == TextDone(id, a.final);
  }

  // ------------------------------------------------------------------ what is ever stored

  ghost predicate CleanMessage(g: Guards, history: seq<MessageRecord>, i: nat)
    requires i < |history|
  {
    if i % 2 == 0 then history[i].role == User && g.crisis(history[i].text).None?
    else history[i].role == Assistant && !g.forbidden(history[i].text)
  }

  /** User and assistant alternate in whole pairs, and no stored text trips its guard. */
  ghost predicate Chat(g: Guards, history: seq<MessageRecord>)
  {
    |history| % 2 == 0 && forall i: nat | i < |history| :: CleanMessage(g, history, i)
  }

  lemma ChatGrows(g: Guards, history: seq<MessageRecord>, user: string, assistant: string, now: int)
    requires Chat(g, history) && g.crisis(user).None? && !g.forbidden(assistant)
    ensures Chat(g, history + Pair(user, assistant, now))
  {
    var h := history + Pair(user, assistant, now);
    forall i: nat | i < |h| ensures CleanMessage(g, h, i) {
      if i < |history| { assert h[i] == history[i] && CleanMessage(g, history, i); }
    }
  }

  /** The history after any messages, each with its own outcome and its own moment of closing. */
  function Converse(g: Guards, history: seq<MessageRecord>, messages: seq<(Outcome, nat)>): seq<MessageRecord>
    decreases |messages|
  {
    if messages == [] then history
    else
      var (o, pulls) := messages[0];
      Converse(g, HistoryAfter(history, AnswerOf(g, history, o), o.now, pulls), messages[1..])
  }

  /** Every conversation, however its messages end, keeps the history clean and paired. */
  lemma {:induction false} ConversationStaysClean(g: Guards, history: seq<MessageRecord>, messages: seq<(Outcome, nat)>)
    requires g.Coherent() && Chat(g, history)
    ensures Chat(g, Converse(g, history, messages))
    ensures history <= Converse(g, history, messages)
    decreases |messages|
  {
    if messages != [] {
      var (o, pulls) := messages[0];
      var a := AnswerOf(g, history, o);
      if Recorded(a, pulls) { ChatGrows(g, history, a.user, a.final, o.now); }
      ConversationStaysClean(g, HistoryAfter(history, a, o.now, pulls), messages[1..]);
    }
  }
}

/** The guards this service runs with. */
module SafeConversation {
  import opened Sessions
  import opened Conversation
  import InputGuard
  import OutputGuard

  const FALLBACK: string := "(이 주제는 답변드리기 어려워요. 다른 이야기를 나눌까요?)"

  function Configured(): Guards
  {
    Guards((t: string) => InputGuard.CheckCrisis(t).matchedKeyword,
           (t: string) => OutputGuard.FilterResponse(t).matched,
           FALLBACK)
  }

  lemma FallbackClean()
    ensures !OutputGuard.FilterResponse(FALLBACK).matched
  {
    OutputGuard.NoComparisonNoMatch(FALLBACK);
  }

  /** From an empty history, no crisis text and no forbidden answer is ever stored. */
  lemma NothingUnsafeIsStored(messages: seq<(Outcome, nat)>, i: nat)
    requires i < |Converse(Configured(), [], messages)|
    ensures var m := Converse(Configured(), [], messages)[i];
            if i % 2 == 0 then m.role == User && !InputGuard.CheckCrisis(m.text).matched
            else m.role == Assistant && !OutputGuard.FilterResponse(m.text).matched
  {
    FallbackClean();
    ConversationStaysClean(Configured(), [], messages);
    assert CleanMessage(Configured(), Converse(Configured(), [], messages), i);
  }
}
