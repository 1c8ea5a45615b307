/** The in-memory session dictionary and its expiry. Times are integers on a nondecreasing clock. */
module SessionStore {
  import opened Text
  import opened Sessions

  const DEFAULT_TTL_SECONDS: int := 30 * 60

  class Store {
    const ttl: int
    var sessions: map<nat, SessionState>

    constructor (ttl: int := DEFAULT_TTL_SECONDS)
      ensures this.ttl == ttl && sessions == map[]
    {
      this.ttl := ttl;
      sessions := map[];
    }

    /** Each session is filed under its own id. */
    ghost predicate Valid()
      reads this
    {
      forall sid | sid in sessions :: sessions[sid].sessionId == sid
    }

    method Create(session: SessionState)
      requires Valid()
      modifies this
      ensures Valid() && sessions == old(sessions)[session.sessionId := session]
    {
      sessions := sessions[session.sessionId := session];
    }

    function Get(sid: nat): (r: Option<SessionState>)
      reads this
      ensures r.Some? <==> sid in sessions
      ensures r.Some? ==> r.value == sessions[sid]
    {
      if sid in sessions then Some(sessions[sid]) else None
    }

    method Touch(sid: nat, now: int) returns (found: bool)
      requires Valid()
      modifies if sid in sessions then {sessions[sid]} else {}
      ensures found <==> sid in sessions
      ensures found ==> sessions[sid].lastActivityAt == now && sessions[sid].history == old(sessions[sid].history)
    {
      if sid !in sessions { return false; }
      sessions[sid].lastActivityAt := now;
      return true;
    }

    /** A message dated in the past must not make a session look older than it is. */
    method AddMessage(sid: nat, message: MessageRecord) returns (found: bool)
      requires Valid()
      modifies if sid in sessions then {sessions[sid]} else {}
      ensures found <==> sid in sessions
      ensures found ==> sessions[sid].history == old(sessions[sid].history) + [message]
      ensures found ==> && sessions[sid].lastActivityAt >= old(sessions[sid].lastActivityAt)
                        && sessions[sid].lastActivityAt >= message.createdAt
                        && sessions[sid].lastActivityAt in {old(sessions[sid].lastActivityAt), message.createdAt}
    {
      if sid !in sessions { return false; }
      var session := sessions[sid];
      session.history := session.history + [message];
      if session.lastActivityAt < message.createdAt {
        session.lastActivityAt := message.createdAt;
      }
      return true;
    }

    /** The first of several calls gets the session, every later one gets nothing. */
    method End(sid: nat) returns (ended: Option<SessionState>)
      requires Valid()
      modifies this
      ensures Valid() && sessions == old(sessions) - {sid}
      ensures ended == old(Get(sid))
    {
      ended := Get(sid);
      sessions := sessions - {sid};
    }

    predicate Expired(sid: nat, now: int)
      requires sid in sessions
      reads this, sessions[sid]
    {
      sessions[sid].lastActivityAt < now - ttl
    }

    /** The ids whose session has been idle for longer than the time to live. */
    method ExpiredIds(now: int) returns (expired: set<nat>)
      ensures expired <= sessions.Keys
      ensures forall sid | sid in sessions :: sid in expired <==> Expired(sid, now)
    {
      var todo := sessions.Keys;
      expired := {};
      while todo != {}
        invariant todo <= sessions.Keys && expired <= sessions.Keys - todo
        invariant forall sid | sid in sessions && sid !in todo :: sid in expired <==> Expired(sid, now)
        decreases todo
      {
        var sid :| sid in todo;
        if sessions[sid].lastActivityAt < now - ttl { expired := expired + {sid}; }
        todo := todo - {sid};
      }
    }

    method DeleteAll(ids: set<nat>)
      requires ids <= sessions.Keys
      modifies this
      ensures sessions == old(sessions) - ids
    {
      var left := ids;
      while left != {}
        invariant left <= ids && sessions == old(sessions) - (ids - left)
        decreases left
      {
        var sid :| sid in left;
        assert sid in sessions;
        sessions := sessions - {sid};
        left := left - {sid};
        assert ids - left == (ids - (left + {sid})) + {sid};
      }
      assert ids - {} == ids;
    }

    /** `_sweep_once`: deletes exactly the expired sessions and says how many there were. */
    method SweepOnce(now: int) returns (count: nat)
      requires Valid()
      modifies this
      ensures Valid()
      ensures forall sid | sid in old(sessions) :: sid in sessions <==> old(sessions[sid].lastActivityAt) + ttl >= now
      ensures forall sid | sid in sessions :: sid in old(sessions) && sessions[sid] == old(sessions)[sid]
      ensures count + |sessions| == |old(sessions)|
    {
      var expired := ExpiredIds(now);
      RemainderSize(sessions, expired);
      DeleteAll(expired);
      count := |expired|;
    }
  }

  lemma RemainderSize<K, V>(m: map<K, V>, ids: set<K>)
    requires ids <= m.Keys
    ensures |ids| + |m - ids| == |m|
  {
    var rest := (m - ids).Keys;
    assert m.Keys == ids + rest && ids !! rest;
    assert |m.Keys| == |m| && |rest| == |m - ids|;
  }
}
