/**
  * The sections of the handlers that run without an await, over the shared variables they change.
  * Each is one step of the transition system, so the variables always form a reachable state.
  */
module EventLoop {
  import opened Scheduling
  import opened SchedulingSafety

  class Loop {
    const ttl: int
    var active: int
    var owner: map<Resource, TaskId>
    var created: set<SessionId>
    var store: map<SessionId, int>      // each stored session with its last activity
    var swept: set<SessionId>
    var dirs: set<SessionId>
    var tasks: seq<Task>

    function Snapshot(): State
      reads this
    {
      State(active, owner, created, store.Keys, swept, dirs, tasks)
    }

    constructor (ttl: int, dirs: set<SessionId>, tasks: seq<Task>)
      requires forall t | 0 <= t < |tasks| :: Fresh(tasks[t])
      ensures Reachable(Snapshot()) && this.ttl == ttl && this.tasks == tasks
    {
      this.ttl := ttl;
      active, owner, created, store, swept := 0, map[], {}, map[], {};
      this.dirs, this.tasks := dirs, tasks;
      new;
      assert Initial(Snapshot()) && After(Snapshot(), []) == Snapshot();
    }

    /** `start_session`: registers a session under a new id. */
    method StartSession(sid: SessionId, now: int)
      requires Reachable(Snapshot()) && sid !in created
      modifies this
      ensures Reachable(Snapshot()) && Snapshot() == Next(old(Snapshot()), Begin(sid))
      ensures store == old(store)[sid := now]
    {
      ghost var was := Snapshot();
      created := created + {sid};
      store := store[sid := now];
      assert store.Keys == old(store).Keys + {sid};
      assert Snapshot() == Next(was, Begin(sid));
      ReachableNext(was, Begin(sid));
    }

    /** `post_message`, under the counter lock: refuse, or count the request in. */
    method Admit(t: TaskId) returns (admitted: bool)
      requires Reachable(Snapshot())
      requires t < |tasks| && tasks[t].Message? && tasks[t].mpc.Admitting?
      modifies this
      ensures Reachable(Snapshot()) && Enabled(old(Snapshot()), Run(t, Ok))
      ensures Snapshot() == Next(old(Snapshot()), Run(t, Ok))
      ensures admitted <==> old(active) < MAX_CONCURRENT_MESSAGES
      ensures old(active) <= active <= MAX_CONCURRENT_MESSAGES && active == old(active) + (if admitted then 1 else 0)
    {
      ghost var was := Snapshot();
      admitted := active < MAX_CONCURRENT_MESSAGES;
      if !admitted {
        tasks := tasks[t := tasks[t].(mpc := Busy)];
      } else {
        active := active + 1;
        tasks := tasks[t := tasks[t].(mpc := Saving)];
      }
      owner := owner - {Counter};
      assert Snapshot() == Next(was, Run(t, Ok));
      ReachableNext(was, Run(t, Ok));
      CounterIsExact(Snapshot());
    }

    /** The decrement under the counter lock, after a failed save or in the generator's `finally`. */
    method Release(t: TaskId)
      requires Reachable(Snapshot())
      requires t < |tasks| && tasks[t].Message? && (tasks[t].mpc.RollingBack? || tasks[t].mpc.Releasing?)
      modifies this
      ensures Reachable(Snapshot()) && Enabled(old(Snapshot()), Run(t, Ok))
      ensures Snapshot() == Next(old(Snapshot()), Run(t, Ok))
      ensures 0 <= active == old(active) - 1
    {
      ghost var was := Snapshot();
      var task := tasks[t];
      active := active - 1;
      tasks := tasks[t := task.(mpc := if task.mpc.RollingBack? then SaveFailed else Served)];
      owner := owner - {Counter};
      assert Snapshot() == Next(was, Run(t, Ok));
      ReachableNext(was, Run(t, Ok));
      CounterIsExact(Snapshot());
    }

    /** `end_session` from the session lock to its next await, or to its answer. */
    method EndUnderLock(t: TaskId)
      requires Reachable(Snapshot())
      requires t < |tasks| && tasks[t].End? && tasks[t].epc.Popping?
      modifies this
      ensures Reachable(Snapshot()) && Enabled(old(Snapshot()), Run(t, Ok))
      ensures Snapshot() == Next(old(Snapshot()), Run(t, Ok))
      ensures tasks[t].epc.EndNotFound? <==> old(tasks)[t].sid !in old(store)
    {
      ghost var was := Snapshot();
      var task := tasks[t];
      if task.sid !in store {
        tasks := tasks[t := task.(epc := EndNotFound)];
        owner := owner - {SessionLock(task.sid)};
      } else {
        store := store - {task.sid};
        if task.sid in dirs {
          tasks := tasks[t := task.(epc := Removing)];
        } else {
          tasks := tasks[t := task.(epc := Ended)];
          owner := owner - {SessionLock(task.sid)};
        }
      }
      assert store.Keys == was.store - (if task.sid in was.store then {task.sid} else {});
      assert Snapshot() == Next(was, Run(t, Ok));
      ReachableNext(was, Run(t, Ok));
    }

    /** `end_session` once `rmtree` has returned: the session is gone, and so is its directory. */
    method EndAfterRemoval(t: TaskId)
      requires Reachable(Snapshot())
      requires t < |tasks| && tasks[t].End? && tasks[t].epc.Removing?
      modifies this
      ensures Reachable(Snapshot()) && Enabled(old(Snapshot()), Run(t, Ok))
      ensures Snapshot() == Next(old(Snapshot()), Run(t, Ok))
      ensures old(tasks)[t].sid !in store && old(tasks)[t].sid !in dirs
    {
      ghost var was := Snapshot();
      dirs := dirs - {tasks[t].sid};
      owner := owner - {SessionLock(tasks[t].sid)};
      tasks := tasks[t := tasks[t].(epc := Ended)];
      assert Snapshot() == Next(was, Run(t, Ok));
      ReachableNext(was, Run(t, Ok));
      EndSucceedsClean(was, t, Ok);
    }

    /**
      * A message is recorded: its session will expire later, unless it has left the store already,
      * and no task moves.
      */
    method RecordActivity(sid: SessionId, now: int)
      modifies `store
      ensures store == if sid in old(store) then old(store)[sid := now] else old(store)
      ensures Snapshot() == old(Snapshot())
    {
      if sid in store { store := store[sid := now]; }
      assert store.Keys == old(store).Keys;
    }

    /** `_sweep_once`: exactly the sessions that have been idle for too long are swept. */
    method Sweep(now: int)
      requires Reachable(Snapshot())
      modifies this
      ensures var expired := set sid | sid in old(store) && old(store)[sid] < now - ttl;
              && Enabled(old(Snapshot()), Label.Sweep(expired))
              && Snapshot() == Next(old(Snapshot()), Label.Sweep(expired))
      ensures Reachable(Snapshot()) && forall sid | sid in store :: store[sid] == old(store)[sid] >= now - ttl
    {
      var expired := set sid | sid in store && store[sid] < now - ttl;
      ghost var was := Snapshot();
      store := store - expired;
      swept := swept + expired;
      assert store.Keys == old(store).Keys - expired;
      assert Snapshot() == Next(was, Label.Sweep(expired));
      ReachableNext(was, Label.Sweep(expired));
    }
  }
}
