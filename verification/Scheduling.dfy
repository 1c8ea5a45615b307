/**
  * The tasks of the single event loop, stepping between awaits: message requests, end requests
  * and persona runs, with the session starts, sweeps and deletions that happen around them.
  */
module Scheduling {

  type SessionId = nat
  type TaskId = nat

  const MAX_CONCURRENT_MESSAGES: nat := 5

  /** What a task can hold. Both semaphores have width one. */
  datatype Resource = Counter | Gpu | Ditto | SessionLock(sid: SessionId)

  datatype MessagePc =
    | Lookup          // store.get
    | AdmitWait       // awaiting the counter lock
    | Admitting       // holds the counter lock: test and increment
    | Saving          // admitted: writing the upload to a temporary file
    | RollbackWait    // saving failed: awaiting the counter lock
    | RollingBack     // holds the counter lock: decrement
    | Ready           // response returned, generator not started yet
    | LockWait        // generator started: awaiting the session lock
    | Transcribing    // holds the session lock from here to Leaving
    | Streaming       // suspended between tokens
    | TextDone        // suspended on text_done
    | GpuWait
    | Synthesising    // holds the gpu semaphore
    | DittoWait
    | Rendering       // holds the ditto semaphore
    | Leaving         // suspended on its last event
    | ReleaseWait     // left the session lock: awaiting the counter lock
    | Releasing       // holds the counter lock: decrement
    | NotFound | Busy | SaveFailed | Served
    | Dropped         // cancelled after admission and before the generator started

  datatype EndPc =
    | EndLookup
    | EndLockWait
    | Popping         // holds the session lock: store.end
    | Removing        // holds the session lock: rmtree
    | EndNotFound | Ended | EndCancelled
    | EndInterrupted  // cancelled inside rmtree: the session is gone, the tree may not be

  datatype PersonaPc =
    | Start | PersonaGpuWait | PersonaTranscribing | Clip | PersonaDittoWait | PersonaRendering | PersonaDone

  /** `tokens` are the tokens still to stream, `clips` the idle clips still to render. */
  datatype Task =
    | Message(sid: SessionId, mpc: MessagePc, tokens: nat)
    | End(sid: SessionId, epc: EndPc)
    | Persona(ppc: PersonaPc, clips: nat)

  datatype State = State(
    active: int,
    owner: map<Resource, TaskId>,
    created: set<SessionId>,
    store: set<SessionId>,
    swept: set<SessionId>,
    dirs: set<SessionId>,
    tasks: seq<Task>)

  /**
    * How an await or a yield comes back: normally, with an exception, with cancellation (or the
    * generator being closed), or by the other normal path where there are two.
    */
  datatype Choice = Ok | Fail | Cancel | Other

  /** What one step does to the shared state. */
  datatype Effect = Effect(
    take: set<Resource>, drop: set<Resource>, count: int, pop: set<SessionId>,
    mkdir: set<SessionId>, rmdir: set<SessionId>)

  const QUIET: Effect := Effect({}, {}, 0, {}, {}, {})

  datatype Move = Blocked | Move(to: Task, does: Effect)

  // ------------------------------------------------------------------ the handlers, await by await

  function MessageMove(s: State, task: Task, c: Choice): Move
    requires task.Message?
  {
    var mine := {SessionLock(task.sid)};
    match task.mpc
    case Lookup =>
      if !c.Ok? then Blocked
      else if task.sid in s.store then Move(task.(mpc := AdmitWait), QUIET)
      else Move(task.(mpc := NotFound), QUIET)
    case AdmitWait => if c.Ok? then Move(task.(mpc := Admitting), QUIET.(take := {Counter})) else Blocked
    case Admitting =>
      if !c.Ok? then Blocked
      else if s.active >= MAX_CONCURRENT_MESSAGES then Move(task.(mpc := Busy), QUIET.(drop := {Counter}))
      else Move(task.(mpc := Saving), QUIET.(drop := {Counter}, count := 1))
    case Saving =>
      (match c
       case Ok => Move(task.(mpc := Ready), QUIET)
       case Fail => Move(task.(mpc := RollbackWait), QUIET)
       case Cancel => Move(task.(mpc := Dropped), QUIET)
       case Other => Blocked)
    case RollbackWait => if c.Ok? then Move(task.(mpc := RollingBack), QUIET.(take := {Counter})) else Blocked
    case RollingBack =>
      if c.Ok? then Move(task.(mpc := SaveFailed), QUIET.(drop := {Counter}, count := -1)) else Blocked
    case Ready =>
      (match c
       case Ok => Move(task.(mpc := LockWait), QUIET)
       case Cancel => Move(task.(mpc := Dropped), QUIET)
       case _ => Blocked)
    case LockWait =>
      (match c
       case Ok => Move(task.(mpc := Transcribing), QUIET.(take := mine))
       case Cancel => Move(task.(mpc := ReleaseWait), QUIET)
       case _ => Blocked)
    case Transcribing =>
      (match c
       case Ok => Move(task.(mpc := Streaming), QUIET)
       case Cancel => Move(task.(mpc := ReleaseWait), QUIET.(drop := mine))
       case _ => Move(task.(mpc := Leaving), QUIET))        // transcription error, or crisis
    case Streaming =>
      (match c
       case Ok => Move(if task.tokens > 0 then task.(tokens := task.tokens - 1) else task.(mpc := TextDone), QUIET)
       case Fail => Move(task.(mpc := Leaving), QUIET)
       case Cancel => Move(task.(mpc := ReleaseWait), QUIET.(drop := mine))
       case Other => Blocked)
    case TextDone =>
      (match c
       case Ok => Move(task.(mpc := GpuWait), QUIET.(mkdir := {task.sid}))
       case Fail => Move(task.(mpc := Leaving), QUIET.(mkdir := {task.sid}))      // no voice reference
       case Cancel => Move(task.(mpc := ReleaseWait), QUIET.(drop := mine))
       case Other => Move(task.(mpc := ReleaseWait), QUIET.(drop := mine)))       // mkdir fails: escapes
    case GpuWait =>
      (match c
       case Ok => Move(task.(mpc := Synthesising), QUIET.(take := {Gpu}))
       case Cancel => Move(task.(mpc := ReleaseWait), QUIET.(drop := mine))
       case _ => Blocked)
    case Synthesising =>
      (match c
       case Ok => Move(task.(mpc := DittoWait), QUIET.(drop := {Gpu}))
       case Fail => Move(task.(mpc := Leaving), QUIET.(drop := {Gpu}))
       case Cancel => Move(task.(mpc := ReleaseWait), QUIET.(drop := mine + {Gpu}))
       case Other => Blocked)
    case DittoWait =>
      (match c
       case Ok => Move(task.(mpc := Rendering), QUIET.(take := {Ditto}))
       case Cancel => Move(task.(mpc := ReleaseWait), QUIET.(drop := mine))
       case _ => Blocked)
    case Rendering =>
      (match c
       case Cancel => Move(task.(mpc := ReleaseWait), QUIET.(drop := mine + {Ditto}))
       case Other => Blocked
       case _ => Move(task.(mpc := Leaving), QUIET.(drop := {Ditto})))
    case Leaving =>
      if c.Ok? || c.Cancel? then Move(task.(mpc := ReleaseWait), QUIET.(drop := mine)) else Blocked
    case ReleaseWait => if c.Ok? then Move(task.(mpc := Releasing), QUIET.(take := {Counter})) else Blocked
    case Releasing =>
      if c.Ok? then Move(task.(mpc := Served), QUIET.(drop := {Counter}, count := -1)) else Blocked
    case _ => Blocked
  }

  function EndMove(s: State, task: Task, c: Choice): Move
    requires task.End?
  {
    var mine := {SessionLock(task.sid)};
    match task.epc
    case EndLookup =>
      if !c.Ok? then Blocked
      else if task.sid in s.store then Move(task.(epc := EndLockWait), QUIET)
      else Move(task.(epc := EndNotFound), QUIET)
    case EndLockWait =>
      (match c
       case Ok => Move(task.(epc := Popping), QUIET.(take := mine))
       case Cancel => Move(task.(epc := EndCancelled), QUIET)
       case _ => Blocked)
    case Popping =>
      if !c.Ok? then Blocked
      else if task.sid !in s.store then Move(task.(epc := EndNotFound), QUIET.(drop := mine))
      else if task.sid in s.dirs then Move(task.(epc := Removing), QUIET.(pop := {task.sid}))
      else Move(task.(epc := Ended), QUIET.(pop := {task.sid}, drop := mine))
    case Removing =>
      (match c
       case Ok => Move(task.(epc := Ended), QUIET.(drop := mine, rmdir := {task.sid}))
       case Cancel => Move(task.(epc := EndInterrupted), QUIET.(drop := mine))
       case _ => Blocked)
    case _ => Blocked
  }

  function PersonaMove(task: Task, c: Choice): Move
    requires task.Persona?
  {
    match task.ppc
    case Start =>
      (match c
       case Ok => Move(task.(ppc := PersonaGpuWait), QUIET)
       case Other => Move(task.(ppc := Clip), QUIET)          // ref_text is there already
       case _ => Move(task.(ppc := PersonaDone), QUIET))
    case PersonaGpuWait =>
      (match c
       case Ok => Move(task.(ppc := PersonaTranscribing), QUIET.(take := {Gpu}))
       case Cancel => Move(task.(ppc := PersonaDone), QUIET)
       case _ => Blocked)
    case PersonaTranscribing =>
      (match c
       case Ok => Move(task.(ppc := Clip), QUIET.(drop := {Gpu}))
       case Other => Blocked
       case _ => Move(task.(ppc := PersonaDone), QUIET.(drop := {Gpu})))
    case Clip =>
      if task.clips == 0 || c.Fail? || c.Cancel? then Move(task.(ppc := PersonaDone), QUIET)
      else if c.Ok? then Move(task.(ppc := PersonaDittoWait, clips := task.clips - 1), QUIET)
      else Move(task.(clips := task.clips - 1), QUIET)          // the clip is there already
    case PersonaDittoWait =>
      (match c
       case Ok => Move(task.(ppc := PersonaRendering), QUIET.(take := {Ditto}))
       case Cancel => Move(task.(ppc := PersonaDone), QUIET)
       case _ => Blocked)
    case PersonaRendering =>
      (match c
       case Ok => Move(task.(ppc := Clip), QUIET.(drop := {Ditto}))
       case Other => Blocked
       case _ => Move(task.(ppc := PersonaDone), QUIET.(drop := {Ditto})))
    case PersonaDone => Blocked
  }

  function TaskMove(s: State, task: Task, c: Choice): Move
  {
    match task
    case Message(_, _, _) => MessageMove(s, task, c)
    case End(_, _) => EndMove(s, task, c)
    case Persona(_, _) => PersonaMove(task, c)
  }

  // ------------------------------------------------------------------ the transition system

  /**
    * A task steps, a session starts, the sweeper removes expired sessions, or a persona is deleted
    * together with the directories of its sessions, which takes no session lock.
    */
  datatype Label =
    | Run(t: TaskId, c: Choice)
    | Begin(sid: SessionId)
    | Sweep(expired: set<SessionId>)
    | DeletePersona(sessions: set<SessionId>)

  predicate Enabled(s: State, l: Label)
  {
    match l
    case Run(t, c) =>
      && t < |s.tasks|
      && TaskMove(s, s.tasks[t], c).Move?
      && TaskMove(s, s.tasks[t], c).does.take !! s.owner.Keys
    case Begin(sid) => sid !in s.created
    case Sweep(expired) => expired <= s.store
    case DeletePersona(_) => true
  }

  function Apply(s: State, t: TaskId, m: Move): State
    requires m.Move? && t < |s.tasks|
  {
    var d := m.does;
    s.(active := s.active + d.count,
       owner := (map r | r in s.owner && r !in d.drop :: s.owner[r]) + (map r | r in d.take :: t),
       store := s.store - d.pop,
       dirs := s.dirs + d.mkdir - d.rmdir,
       tasks := s.tasks[t := m.to])
  }

  function Next(s: State, l: Label): State
    requires Enabled(s, l)
  {
    match l
    case Run(t, c) => Apply(s, t, TaskMove(s, s.tasks[t], c))
    case Begin(sid) => s.(created := s.created + {sid}, store := s.store + {sid})
    case Sweep(expired) => s.(store := s.store - expired, swept := s.swept + expired)
    case DeletePersona(sessions) => s.(dirs := s.dirs - sessions)
  }

  predicate Fresh(task: Task)
  {
    match task
    case Message(_, mpc, _) => mpc == Lookup
    case End(_, epc) => epc == EndLookup
    case Persona(ppc, _) => ppc == Start
  }

  /** Any number of tasks of any kind, none started yet; left-over directories may exist. */
  ghost predicate Initial(s: State)
  {
    && s.active == 0 && s.owner == map[]
    && s.created == {} && s.store == {} && s.swept == {}
    && forall t | 0 <= t < |s.tasks| :: Fresh(s.tasks[t])
  }

  ghost predicate Valid(s: State, run: seq<Label>)
    decreases |run|
  {
    run != [] ==> Enabled(s, run[0]) && Valid(Next(s, run[0]), run[1..])
  }

  ghost function After(s: State, run: seq<Label>): State
    requires Valid(s, run)
    decreases |run|
  {
    if run == [] then s else After(Next(s, run[0]), run[1..])
  }

  ghost predicate Reachable(s: State)
  {
    exists start: State, run: seq<Label> :: Initial(start) && Valid(start, run) && After(start, run) == s
  }
}
