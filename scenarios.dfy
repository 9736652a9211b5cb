/** A client of the model: the counter endpoint of the demo program, replayed three
    times, with a forced sweep before the third request. */
module Scenarios {
  import opened Wrappers
  import opened Expiry
  import opened Sessions
  import opened Stores
  import opened Managers

  /** The handler: read "count" (absent counts as 0), increment it, store it back. */
  method Increment(s: Session<int>, now: int) returns (count: int)
    modifies s`lastActivityAt, s`data
    ensures count == (if "count" in old(s.data) then old(s.data)["count"] else 0) + 1
    ensures s.data == old(s.data)["count" := count] && s.lastActivityAt == now
  {
    var v := s.Get("count", now);
    count := if v.Some? then v.value else 0;
    count := count + 1;
    s.Put("count", count, now);
  }

  /** One request as this client drives it: start, handler, save. The middleware's own
      order is start, save, cookie, then handler; because the table holds the session by
      reference and one instant is used throughout, the resulting state is the same. */
  method Request(m: SessionManager<int>, cookie: Option<string>, now: int, ids: IdSource)
    returns (s: Session<int>, count: int)
    requires ids.Valid() && ids.pending != []
    modifies m.store, ids, m.store.sessions.Values
    ensures ids.Valid()
    ensures Found(old(m.store.sessions), cookie)
            && !Expired(old(m.store.sessions[cookie.value].Stamp()), now, m.idleExpiration, m.absoluteExpiration)
      ==> && s == old(m.store.sessions[cookie.value]) && ids.pending == old(ids.pending)
          && count == (if "count" in old(s.data) then old(s.data)["count"] else 0) + 1
          && s.data == old(s.data)["count" := count]
          && m.store.sessions == old(m.store.sessions)[s.id := s]
    ensures !Found(old(m.store.sessions), cookie)
      ==> && fresh(s) && s.id == old(ids.pending[0]) && count == 1 && ids.pending == old(ids.pending[1..])
          && s.createdAt == now && s.data == map["count" := 1] && m.store.sessions == old(m.store.sessions)[s.id := s]
    ensures s.lastActivityAt == now
  {
    var r := m.Start(cookie, now, ids);
    s := r.value;
    count := Increment(s, now);
    var _ := m.Save(s, now);
  }

  method CounterScenario(t0: int)
  {
    var made := NewSessionManager<int>([]);
    assert made.Success?;
    var m := made.value;
    ghost var st :| Configure(Defaults(st), []) == Success(m.Config());
    assert m.idleExpiration == 10 * Minute && m.absoluteExpiration == Hour;
    var ids := new IdSource(["first-id", "second-id", "third-id"]);

    // First request: no cookie, so a new session; the handler answers 1.
    var s, count := Request(m, None, t0, ids);
    assert s.id == "first-id" && count == 1;

    // Second request, one second later, replays the cookie: same session, answer 2.
    var s1;
    s1, count := Request(m, Some("first-id"), t0 + Second, ids);
    assert s1 == s && count == 2;

    // A sweep with idle timeout 0 a second later deletes it.
    var _ := m.store.Gc(0, Hour, t0 + 2 * Second);
    assert "first-id" !in m.store.sessions;

    // Third request: the cookie names nothing, so a fresh empty session; answer 1.
    var s2;
    s2, count := Request(m, Some("first-id"), t0 + 2 * Second, ids);
    assert s2.id == "second-id" && count == 1;
  }

  /** Store round trips: a written record is read back, others are untouched, and a
      destroyed id reads as absent. */
  method StoreRoundTrip(store: InMemorySessionStore<int>, a: Session<int>, b: Session<int>)
    requires a.id != b.id
    modifies store
  {
    var _ := store.Write(a);
    var _ := store.Write(b);
    var got, _ := store.Read(a.id);
    assert got == Some(a);
    var _ := store.Destroy(b.id);
    var gone, _ := store.Read(b.id);
    assert gone == None;
    var kept, _ := store.Read(a.id);
    assert kept == Some(a);
    ghost var before := store.sessions;
    var _ := store.Destroy(b.id);
    assert store.sessions == before;
  }

  /** Payload round trips: Put then Get yields the value, Delete removes only its key. */
  method PayloadRoundTrip(s: Session<int>, k1: string, v1: int, k2: string, v2: int, now: int)
    requires k1 != k2
    modifies s
  {
    s.Put(k1, v1, now);
    s.Put(k2, v2, now + 1);
    s.Delete(k2, now + 2);
    var a := s.Get(k1, now + 3);
    var b := s.Get(k2, now + 3);
    assert a == Some(v1) && b == None && s.lastActivityAt == now + 3;
  }

  /** An expired record is rejected by validate and cannot be read afterwards; a
      rotated session keeps its payload and is no longer stored under its old id. */
  method ValidateAndRotate(m: SessionManager<int>, s: Session<int>, now: int, ids: IdSource)
    requires ids.Valid() && ids.pending != [] && s.id in ids.issued
    requires now - s.lastActivityAt > m.idleExpiration
    modifies m.store, s`id, s`lastActivityAt, ids
  {
    var live := m.Validate(s, now);
    assert !live;
    var got, _ := m.store.Read(s.id);
    assert got == None;
    var oldId := s.id;
    ghost var payload := s.data;
    var _ := m.Save(s, now);
    var err := m.Migrate(s, ids);
    assert err == Pass && s.id != oldId && s.data == payload;
    var stale, _ := m.store.Read(oldId);
    assert stale == None;
  }

  /** Ids stay unique across a rotation: a session handed out by start and then rotated
      never shares its id with a session created afterwards. */
  method RotationKeepsIdsUnique(m: SessionManager<int>, ids: IdSource, now: int)
    requires ids.Valid() && |ids.pending| >= 3
    modifies m.store, ids
  {
    var r := m.Start(None, now, ids);
    var s := r.value;
    assert s.id in ids.issued;
    var first := s.id;
    var err := m.Migrate(s, ids);
    assert err == Pass && s.id != first && s.id in ids.issued;
    var n := NewSession<int>(ids, now);
    assert n.Success? && n.value.id != s.id && n.value.id != first;
  }
}
