/** InMemorySessionStore: the table from session id to session record. */
module Stores {
  import opened Wrappers
  import opened Expiry
  import opened Sessions

  /** The table holds references: a record read out of it is the same object that was
      written, so later changes to that object are visible through the table. */
  class InMemorySessionStore<V> {
    var sessions: map<string, Session<V>>

    constructor ()
      ensures sessions == map[]
    {
      sessions := map[];
    }

    /** The timestamps of every stored record, keyed as the table is. */
    function Stamps(): map<string, Stamp>
      reads this, sessions.Values
    {
      map id | id in sessions :: sessions[id].Stamp()
    }

    /** read: a missing id is the normal "no session" answer, not an error. */
    method Read(id: string) returns (s: Option<Session<V>>, err: Outcome<Error>)
      ensures err == Pass
      ensures s.Some? <==> id in sessions
      ensures s.Some? ==> s.value == sessions[id]
    {
      s := if id in sessions then Some(sessions[id]) else None;
      err := Pass;
    }

    /** write: upsert keyed by the record's own id; last writer wins. */
    method Write(session: Session<V>) returns (err: Outcome<Error>)
      modifies this`sessions
      ensures err == Pass
      ensures sessions == old(sessions)[session.id := session]
    {
      sessions := sessions[session.id := session];
      err := Pass;
    }

    /** destroy: delete; an absent id is a no-op. */
    method Destroy(id: string) returns (err: Outcome<Error>)
      modifies this`sessions
      ensures err == Pass
      ensures sessions == old(sessions) - {id}
    {
      sessions := sessions - {id};
      err := Pass;
    }

    /** gc: delete every record whose idle or absolute timeout has elapsed at `now`,
        visiting the keys one at a time as the range loop does. */
    method Gc(idle: int, absolute: int, now: int) returns (err: Outcome<Error>)
      modifies this`sessions
      ensures err == Pass
      ensures sessions == map id | id in old(sessions) && !Expired(old(sessions)[id].Stamp(), now, idle, absolute)
                                  :: old(sessions)[id]
      ensures Stamps() == Sweep(old(Stamps()), now, idle, absolute)
    {
      var unvisited := sessions.Keys;
      while unvisited != {}
        invariant unvisited <= old(sessions).Keys
        invariant sessions == map id | id in old(sessions)
                                        && (id in unvisited || !Expired(old(sessions)[id].Stamp(), now, idle, absolute))
                                     :: old(sessions)[id]
        decreases unvisited
      {
        var id :| id in unvisited;
        var session := sessions[id];
        if Expired(session.Stamp(), now, idle, absolute) {
          sessions := sessions - {id};
        }
        unvisited := unvisited - {id};
      }
      err := Pass;
    }
  }
}
