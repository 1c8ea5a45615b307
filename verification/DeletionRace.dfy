/**
  * Deletions of personas interleaved with whoever writes below a persona's directory: uploads, which
  * look at the tables once and store later, and messages, which never look.
  */
module DeletionRace {
  import opened Deletion

  type TaskId = nat

  datatype WriterPc =
    | AtGuard         // `_ensure_writable_persona`
    | Writing         // past it, or a message about to write one of its files
    | WriterDone

  datatype DeleterPc =
    | Guarding        // the persona is there and not PROCESSING
    | Removing        // awaiting rmtree
    | Untabling       // the files are gone: awaiting the transaction
    | DeleterDone

  datatype Task = Writer(id: PersonaId, wpc: WriterPc) | Deleter(id: PersonaId, dpc: DeleterPc)

  /** The personas that have files, and those that have a row. */
  datatype State = State(dirs: set<PersonaId>, rows: set<PersonaId>, tasks: seq<Task>)

  /** A step succeeds or fails; `Torn` fails after removing everything. */
  datatype Choice = Proceed | Fail | Torn

  datatype Label = Label(t: TaskId, c: Choice)

  predicate Enabled(s: State, l: Label)
  {
    l.t < |s.tasks| && match s.tasks[l.t]
      case Writer(_, wpc) => wpc != WriterDone
      case Deleter(_, dpc) => dpc != DeleterDone
  }

  /** The step puts files into the persona's directory. */
  predicate Stores(s: State, l: Label, id: PersonaId)
    requires Enabled(s, l)
  {
    s.tasks[l.t] == Writer(id, Writing) && l.c.Proceed?
  }

  /** The step empties the persona's directory. */
  predicate Clears(s: State, l: Label, id: PersonaId)
    requires Enabled(s, l)
  {
    s.tasks[l.t] == Deleter(id, Removing) && (l.c.Proceed? || l.c.Torn?)
  }

  /** The step commits the transaction on the tables. */
  predicate Untables(s: State, l: Label, id: PersonaId)
    requires Enabled(s, l)
  {
    s.tasks[l.t] == Deleter(id, Untabling) && l.c.Proceed?
  }

  function TaskNext(s: State, task: Task, c: Choice): Task
  {
    match task
    case Writer(id, AtGuard) => Writer(id, if c.Proceed? && id in s.rows then Writing else WriterDone)
    case Writer(id, Writing) => Writer(id, WriterDone)
    case Deleter(id, Guarding) => Deleter(id, if c.Proceed? && id in s.rows then Removing else DeleterDone)
    case Deleter(id, Removing) => Deleter(id, if c.Proceed? then Untabling else DeleterDone)
    case Deleter(id, Untabling) => Deleter(id, DeleterDone)
    case _ => task
  }

  function Next(s: State, l: Label): State
    requires Enabled(s, l)
  {
    var id := s.tasks[l.t].id;
    State(if Stores(s, l, id) then s.dirs + {id} else if Clears(s, l, id) then s.dirs - {id} else s.dirs,
          if Untables(s, l, id) then s.rows - {id} else s.rows,
          s.tasks[l.t := TaskNext(s, s.tasks[l.t], l.c)])
  }

  ghost predicate Valid(s: State, run: seq<Label>)
    decreases |run|
  {
    run != [] ==> Enabled(s, run[0]) && Valid(Next(s, run[0]), run[1..])
  }

  ghost function After(s: State, run: seq<Label>): State
    requires Valid(s, run)
    decreases |run|
  {
    if run == [] then s else After(Next(s, run[0]), run[1..])
  }

  /** Files whose persona row is gone. */
  predicate Orphan(s: State, id: PersonaId)
  {
    id in s.dirs && id !in s.rows
  }

  /** No step of the run empties the persona's directory. */
  ghost predicate NeverCleared(s: State, run: seq<Label>, id: PersonaId)
    requires Valid(s, run)
    decreases |run|
  {
    run != [] ==> !Clears(s, run[0], id) && NeverCleared(Next(s, run[0]), run[1..], id)
  }

  /** Some step stores files of the persona, and no later one empties its directory. */
  ghost predicate StoredLast(s: State, run: seq<Label>, id: PersonaId)
    requires Valid(s, run)
    decreases |run|
  {
    run != [] &&
    ((Stores(s, run[0], id) && NeverCleared(Next(s, run[0]), run[1..], id))
     || StoredLast(Next(s, run[0]), run[1..], id))
  }

  /** Some step deletes the persona from the tables. */
  ghost predicate Untabled(s: State, run: seq<Label>, id: PersonaId)
    requires Valid(s, run)
    decreases |run|
  {
    run != [] && (Untables(s, run[0], id) || Untabled(Next(s, run[0]), run[1..], id))
  }

  lemma {:induction false} FilesAre(s: State, run: seq<Label>, id: PersonaId)
    requires Valid(s, run)
    ensures id in After(s, run).dirs <==> StoredLast(s, run, id) || (id in s.dirs && NeverCleared(s, run, id))
    decreases |run|
  {
    if run != [] { FilesAre(Next(s, run[0]), run[1..], id); }
  }

  lemma {:induction false} RowsAre(s: State, run: seq<Label>, id: PersonaId)
    requires Valid(s, run)
    ensures id in After(s, run).rows <==> id in s.rows && !Untabled(s, run, id)
    decreases |run|
  {
    if run != [] { RowsAre(Next(s, run[0]), run[1..], id); }
  }

  /** No deletion of this persona is past its rmtree. */
  ghost predicate NonePastRemoval(s: State, id: PersonaId)
  {
    forall t: TaskId | t < |s.tasks| :: s.tasks[t] != Deleter(id, Untabling)
  }

  /** The disk goes first: a deletion reaches the tables only by emptying the directory. */
  lemma {:induction false} ClearedBeforeUntabled(s: State, run: seq<Label>, id: PersonaId)
    requires Valid(s, run) && NonePastRemoval(s, id) && NeverCleared(s, run, id)
    ensures !Untabled(s, run, id)
    decreases |run|
  {
    if run != [] { ClearedBeforeUntabled(Next(s, run[0]), run[1..], id); }
  }

  /**
    * When interleaved deletions leave files without a row: exactly when the persona was deleted from
    * the tables and somebody stored files of it after the last time its directory was emptied.
    */
  lemma OrphansExactly(s: State, run: seq<Label>, id: PersonaId)
    requires Valid(s, run) && NonePastRemoval(s, id) && id in s.rows
    ensures Orphan(After(s, run), id) <==> Untabled(s, run, id) && StoredLast(s, run, id)
  {
    FilesAre(s, run, id);
    RowsAre(s, run, id);
    if NeverCleared(s, run, id) { ClearedBeforeUntabled(s, run, id); }
  }

  /** So while nobody writes, any number of deletions, failing or not, leave none. */
  lemma {:induction false} NobodyStores(s: State, run: seq<Label>, id: PersonaId)
    requires Valid(s, run) && forall t: TaskId | t < |s.tasks| && s.tasks[t].Writer? :: s.tasks[t].id != id
    ensures !StoredLast(s, run, id)
    decreases |run|
  {
    if run != [] { NobodyStores(Next(s, run[0]), run[1..], id); }
  }

  lemma DeletionsAloneLeaveNoOrphans(s: State, run: seq<Label>, id: PersonaId)
    requires Valid(s, run) && NonePastRemoval(s, id) && id in s.rows
    requires forall t: TaskId | t < |s.tasks| && s.tasks[t].Writer? :: s.tasks[t].id != id
    ensures !Orphan(After(s, run), id)
  {
    NobodyStores(s, run, id);
    OrphansExactly(s, run, id);
  }

  /** Everybody who has yet to do something for a persona that is gone is still before its guard. */
  ghost predicate AllAtGuard(s: State, id: PersonaId)
  {
    && id !in s.rows
    && forall t: TaskId | t < |s.tasks| && s.tasks[t].id == id ::
         match s.tasks[t]
         case Writer(_, wpc) => wpc != Writing
         case Deleter(_, dpc) => dpc in {Guarding, DeleterDone}
  }

  /** Uploads and deletions that begin after the persona has left the tables are refused: they change nothing. */
  lemma {:induction false} LateRequestsRefused(s: State, run: seq<Label>, id: PersonaId)
    requires Valid(s, run) && AllAtGuard(s, id)
    ensures AllAtGuard(After(s, run), id)
    ensures (id in After(s, run).dirs <==> id in s.dirs) && !StoredLast(s, run, id) && NeverCleared(s, run, id)
    decreases |run|
  {
    if run != [] { LateRequestsRefused(Next(s, run[0]), run[1..], id); }
  }

  /** A request that begins while the persona has its row, and does not fail, goes through. */
  lemma EarlyRequestsPass(s: State, t: TaskId)
    requires Enabled(s, Label(t, Proceed)) && s.tasks[t].id in s.rows
    ensures s.tasks[t] == Writer(s.tasks[t].id, AtGuard) ==>
              Next(s, Label(t, Proceed)).tasks[t] == Writer(s.tasks[t].id, Writing)
    ensures s.tasks[t] == Deleter(s.tasks[t].id, Guarding) ==>
              Next(s, Label(t, Proceed)).tasks[t] == Deleter(s.tasks[t].id, Removing)
  {
  }

  lemma RunFrom(s: State, l: Label, rest: seq<Label>)
    requires Enabled(s, l) && Valid(Next(s, l), rest)
    ensures Valid(s, [l] + rest) && After(s, [l] + rest) == After(Next(s, l), rest)
  {
    assert ([l] + rest)[1..] == rest;
  }

  /** And it happens: an upload passes its guard, the persona is deleted, the upload is stored. */
  lemma UploadOutlivesPersona(id: PersonaId) returns (s: State, run: seq<Label>)
    ensures s == State({id}, {id}, [Writer(id, AtGuard), Deleter(id, Guarding)]) && Valid(s, run)
    ensures run == [Label(0, Proceed), Label(1, Proceed), Label(1, Proceed), Label(1, Proceed), Label(0, Proceed)]
    ensures Orphan(After(s, run), id)
  {
    s := State({id}, {id}, [Writer(id, AtGuard), Deleter(id, Guarding)]);
    var up, del := Label(0, Proceed), Label(1, Proceed);
    var s1 := Next(s, up);
    var s2 := Next(s1, del);
    var s3 := Next(s2, del);
    var s4 := Next(s3, del);
    var s5 := Next(s4, up);
    RunFrom(s4, up, []);
    RunFrom(s3, del, [up]);
    RunFrom(s2, del, [del, up]);
    RunFrom(s1, del, [del, del, up]);
    RunFrom(s, up, [del, del, del, up]);
    run := [up] + [del, del, del, up];
    assert After(s, run) == s5;
  }
}
