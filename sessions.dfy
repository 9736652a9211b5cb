/** The session record, the source of session identifiers and newSession. */
module Sessions {
  import opened Wrappers
  import Expiry

  /** A session: identifier, two timestamps and the key/value payload. The payload
      accessors count as activity and stamp lastActivityAt with the current instant. */
  class Session<V> {
    var id: string
    var createdAt: int
    var lastActivityAt: int
    var data: map<string, V>

    /** The timestamps the expiration policy looks at. */
    function Stamp(): Expiry.Stamp
      reads this
    {
      Expiry.Stamp(createdAt, lastActivityAt)
    }

    /** The struct literal of newSession: empty payload, both timestamps at `now`. */
    constructor (id: string, now: int)
      ensures this.id == id && data == map[]
      ensures createdAt == now && lastActivityAt == now
    {
      this.id := id;
      data := map[];
      createdAt := now;
      lastActivityAt := now;
    }

    /** The stored value, or None for a key that is absent. */
    method Get(key: string, now: int) returns (v: Option<V>)
      modifies this`lastActivityAt
      ensures lastActivityAt == now
      ensures key in data <==> v.Some?
      ensures v.Some? ==> v.value == data[key]
    {
      lastActivityAt := now;
      v := if key in data then Some(data[key]) else None;
    }

    method Put(key: string, value: V, now: int)
      modifies this`lastActivityAt, this`data
      ensures lastActivityAt == now
      ensures data == old(data)[key := value]
    {
      lastActivityAt := now;
      data := data[key := value];
    }

    method Delete(key: string, now: int)
      modifies this`lastActivityAt, this`data
      ensures lastActivityAt == now
      ensures data == old(data) - {key}
    {
      lastActivityAt := now;
      data := data - {key};
    }
  }

  /** The secure random source behind generateSessionID. `pending` holds the encoded
      identifiers it will still deliver, in order; each is distinct and none was issued
      before (the modelled guarantee of 32 random bytes). When it is exhausted,
      generation fails fatally. */
  class IdSource {
    var pending: seq<string>
    ghost var issued: set<string>

    ghost predicate Valid()
      reads this
    {
      && (forall i, j :: 0 <= i < j < |pending| ==> pending[i] != pending[j])
      && (forall i :: 0 <= i < |pending| ==> pending[i] !in issued)
    }

    constructor (draws: seq<string>)
      requires forall i, j :: 0 <= i < j < |draws| ==> draws[i] != draws[j]
      ensures Valid() && pending == draws && issued == {}
    {
      pending := draws;
      issued := {};
    }

    /** generateSessionID: the next identifier, never one handed out before. */
    method Generate() returns (r: Result<string, Error>)
      requires Valid()
      modifies this
      ensures Valid()
      ensures old(pending) == [] ==> r == Failure(RandomSourceFailed) && pending == [] && issued == old(issued)
      ensures old(pending) != [] ==>
        && r == Success(old(pending)[0])
        && pending == old(pending)[1..]
        && issued == old(issued) + {old(pending)[0]}
      ensures r.Success? ==> r.value !in old(issued) && r.value in issued
    {
      if pending == [] {
        r := Failure(RandomSourceFailed);
      } else {
        r := Success(pending[0]);
        issued := issued + {pending[0]};
        pending := pending[1..];
      }
    }
  }

  /** newSession: a fresh record under a freshly generated id, or the fatal
      failure of the random source. */
  method NewSession<V>(ids: IdSource, now: int) returns (r: Result<Session<V>, Error>)
    requires ids.Valid()
    modifies ids
    ensures ids.Valid()
    ensures r.Failure? <==> old(ids.pending) == []
    ensures r.Failure? ==> r.error == RandomSourceFailed && ids.pending == [] && ids.issued == old(ids.issued)
    ensures r.Success? ==>
      && fresh(r.value)
      && r.value.id == old(ids.pending)[0] && r.value.id !in old(ids.issued)
      && ids.pending == old(ids.pending)[1..] && ids.issued == old(ids.issued) + {r.value.id}
      && r.value.data == map[] && r.value.createdAt == now && r.value.lastActivityAt == now
  {
    var id := ids.Generate();
    if id.Failure? {
      return Failure(id.error);
    }
    var s := new Session(id.value, now);
    r := Success(s);
  }
}
