/** SessionManager: construction from options, validation, lookup-or-create, save,
    identifier rotation, one tick of the sweep loop, and the once-only session cookie. */
module Managers {
  import opened Wrappers
  import opened Expiry
  import opened Sessions
  import opened Stores

  /** The functional options of NewSessionManager. The ticker is reduced to its period. */
  datatype ManagerOption<V> =
    | WithStore(store: InMemorySessionStore<V>)
    | WithIdleExpiration(idle: int)
    | WithAbsoluteExpiration(absolute: int)
    | WithCookieName(cookieName: string)
    | WithCookieDomain(domain: string)
    | WithValidationTicker(period: int)

  /** The manager's configuration. */
  datatype Settings<V> = Settings(
    store: InMemorySessionStore<V>,
    idleExpiration: int,
    absoluteExpiration: int,
    cookieName: string,
    domain: string,
    tickerPeriod: int)

  /** The defaults of NewSessionManager, around the in-memory store it creates. */
  function Defaults<V>(store: InMemorySessionStore<V>): Settings<V> {
    Settings(store, 10 * Minute, Hour, "session", "", 5 * Minute)
  }

  /** What one option does to the configuration; an empty cookie name is fatal. */
  function ApplyOption<V>(s: Settings<V>, o: ManagerOption<V>): Result<Settings<V>, Error> {
    match o
    case WithStore(st) => Success(s.(store := st))
    case WithIdleExpiration(d) => Success(s.(idleExpiration := d))
    case WithAbsoluteExpiration(d) => Success(s.(absoluteExpiration := d))
    case WithCookieName(n) => if n == "" then Failure(EmptyCookieName) else Success(s.(cookieName := n))
    case WithCookieDomain(d) => Success(s.(domain := d))
    case WithValidationTicker(p) => Success(s.(tickerPeriod := p))
  }

  /** The options applied in order, stopping at the first fatal one. A configuration
      that starts with a cookie name keeps one. */
  function Configure<V>(s: Settings<V>, opts: seq<ManagerOption<V>>): (r: Result<Settings<V>, Error>)
    ensures r.Failure? ==> r.error == EmptyCookieName
    ensures r.Success? && s.cookieName != "" ==> r.value.cookieName != ""
    decreases |opts|
  {
    if opts == [] then Success(s)
    else
      match Configure(s, opts[..|opts| - 1])
      case Failure(e) => Failure(e)
      case Success(s') => ApplyOption(s', opts[|opts| - 1])
  }

  /** Which field of the configuration an option sets. */
  function Target<V>(o: ManagerOption<V>): nat {
    match o
    case WithStore(_) => 0
    case WithIdleExpiration(_) => 1
    case WithAbsoluteExpiration(_) => 2
    case WithCookieName(_) => 3
    case WithCookieDomain(_) => 4
    case WithValidationTicker(_) => 5
  }

  /** The configuration holds the value that option `o` sets. */
  predicate Carries<V>(s: Settings<V>, o: ManagerOption<V>) {
    match o
    case WithStore(st) => s.store == st
    case WithIdleExpiration(d) => s.idleExpiration == d
    case WithAbsoluteExpiration(d) => s.absoluteExpiration == d
    case WithCookieName(n) => s.cookieName == n
    case WithCookieDomain(d) => s.domain == d
    case WithValidationTicker(p) => s.tickerPeriod == p
  }

  /** Construction fails exactly when some option is WithCookieName(""). */
  lemma {:induction false} ConfigureFailsIff<V>(s: Settings<V>, opts: seq<ManagerOption<V>>)
    ensures Configure(s, opts).Failure? <==> exists i :: 0 <= i < |opts| && opts[i] == WithCookieName("")
    decreases |opts|
  {
    if opts != [] {
      var init := opts[..|opts| - 1];
      ConfigureFailsIff(s, init);
      if exists i :: 0 <= i < |init| && init[i] == WithCookieName("") {
        var i :| 0 <= i < |init| && init[i] == WithCookieName("");
        assert opts[i] == WithCookieName("");
      } else if exists i :: 0 <= i < |opts| && opts[i] == WithCookieName("") {
        var i :| 0 <= i < |opts| && opts[i] == WithCookieName("");
        assert i == |opts| - 1;
      }
    }
  }

  /** Options override in order: what a successful construction holds for each field is
      the value of the last option that sets it. */
  lemma {:induction false} LastOptionWins<V>(s: Settings<V>, opts: seq<ManagerOption<V>>, i: nat)
    requires i < |opts|
    requires forall j :: i < j < |opts| ==> Target(opts[j]) != Target(opts[i])
    requires Configure(s, opts).Success?
    ensures Carries(Configure(s, opts).value, opts[i])
    decreases |opts|
  {
    var init := opts[..|opts| - 1];
    if i < |opts| - 1 {
      LastOptionWins(s, init, i);
    }
  }

  /** A field no option sets keeps its default. */
  lemma {:induction false} UnsetFieldKeepsDefault<V>(s: Settings<V>, opts: seq<ManagerOption<V>>, o: ManagerOption<V>)
    requires Carries(s, o)
    requires forall j :: 0 <= j < |opts| ==> Target(opts[j]) != Target(o)
    requires Configure(s, opts).Success?
    ensures Carries(Configure(s, opts).value, o)
    decreases |opts|
  {
    if opts != [] {
      UnsetFieldKeepsDefault(s, opts[..|opts| - 1], o);
    }
  }

  /** The manager: its configuration is set by the options during construction. */
  class SessionManager<V> {
    var store: InMemorySessionStore<V>
    var idleExpiration: int
    var absoluteExpiration: int
    var cookieName: string
    var domain: string
    var tickerPeriod: int

    function Config(): Settings<V>
      reads this
    {
      Settings(store, idleExpiration, absoluteExpiration, cookieName, domain, tickerPeriod)
    }

    constructor (s: Settings<V>)
      ensures Config() == s
    {
      store := s.store;
      idleExpiration := s.idleExpiration;
      absoluteExpiration := s.absoluteExpiration;
      cookieName := s.cookieName;
      domain := s.domain;
      tickerPeriod := s.tickerPeriod;
    }

    /** opt(m): one option closure run against the manager. */
    method Apply(o: ManagerOption<V>) returns (r: Outcome<Error>)
      modifies this
      ensures ApplyOption(old(Config()), o).Success? <==> r.Pass?
      ensures r.Pass? ==> Config() == ApplyOption(old(Config()), o).value
      ensures r.Fail? ==> r.error == EmptyCookieName && Config() == old(Config())
    {
      r := Pass;
      match o
      case WithStore(st) => store := st;
      case WithIdleExpiration(d) => idleExpiration := d;
      case WithAbsoluteExpiration(d) => absoluteExpiration := d;
      case WithCookieName(n) =>
        if n == "" {
          r := Fail(EmptyCookieName);
        } else {
          cookieName := n;
        }
      case WithCookieDomain(d) => domain := d;
      case WithValidationTicker(p) => tickerPeriod := p;
    }

    /** validate: an expired record is destroyed in the store and rejected; a live one
        is accepted and the store is left alone. */
    method Validate(session: Session<V>, now: int) returns (live: bool)
      modifies store
      ensures live <==> !Expired(session.Stamp(), now, idleExpiration, absoluteExpiration)
      ensures live ==> store.sessions == old(store.sessions)
      ensures !live ==> store.sessions == old(store.sessions) - {session.id}
    {
      if now - session.createdAt > absoluteExpiration || now - session.lastActivityAt > idleExpiration {
        var _ := store.Destroy(session.id);
        return false;
      }
      return true;
    }

    /** start (its store part): `cookie` is the session cookie the request carried, if any.
        The stored record is reused when it exists and is live; otherwise a new session is
        created (an expired one is destroyed first). */
    method Start(cookie: Option<string>, now: int, ids: IdSource) returns (r: Result<Session<V>, Error>)
      requires ids.Valid()
      modifies store, ids
      ensures ids.Valid()
      ensures Found(old(store.sessions), cookie) && !Expired(old(store.sessions)[cookie.value].Stamp(), now, idleExpiration, absoluteExpiration)
        ==> && r == Success(old(store.sessions)[cookie.value]) && store.sessions == old(store.sessions)
            && ids.pending == old(ids.pending) && ids.issued == old(ids.issued)
      ensures Found(old(store.sessions), cookie) && Expired(old(store.sessions)[cookie.value].Stamp(), now, idleExpiration, absoluteExpiration)
        ==> store.sessions == old(store.sessions) - {old(store.sessions)[cookie.value].id}
      ensures !Found(old(store.sessions), cookie) ==> store.sessions == old(store.sessions)
      ensures !Found(old(store.sessions), cookie) || Expired(old(store.sessions)[cookie.value].Stamp(), now, idleExpiration, absoluteExpiration)
        ==> && (r.Failure? <==> old(ids.pending) == [])
            && (r.Failure? ==> r.error == RandomSourceFailed && r.error.IsFatal()
                               && ids.pending == old(ids.pending) && ids.issued == old(ids.issued))
            && (r.Success? ==> && fresh(r.value) && r.value.id == old(ids.pending)[0]
                               && r.value.id !in old(ids.issued)
                               && ids.pending == old(ids.pending)[1..]
                               && ids.issued == old(ids.issued) + {r.value.id}
                               && r.value.data == map[] && r.value.createdAt == now && r.value.lastActivityAt == now)
    {
      var session: Option<Session<V>> := None;
      if cookie.Some? {
        var err;
        session, err := store.Read(cookie.value);
      }
      var live := false;
      if session.Some? {
        live := Validate(session.value, now);
      }
      if live {
        r := Success(session.value);
      } else {
        r := NewSession(ids, now);
      }
    }

    /** save: stamp activity and write the record back; a store failure is returned. */
    method Save(session: Session<V>, now: int) returns (err: Outcome<Error>)
      modifies session`lastActivityAt, store
      ensures session.lastActivityAt == now
      ensures err == Pass
      ensures store.sessions == old(store.sessions)[session.id := session]
    {
      session.lastActivityAt := now;
      err := store.Write(session);
      if err.Fail? {
        return err;
      }
      return Pass;
    }

    /** migrate: destroy the old id in the store, then give the session a fresh id, which
        is not written. Payload and timestamps are kept. A store failure is returned before
        the id changes; a failing random source is fatal. */
    method Migrate(session: Session<V>, ids: IdSource) returns (err: Outcome<Error>)
      requires ids.Valid()
      modifies store, session`id, ids
      ensures ids.Valid()
      ensures store.sessions == old(store.sessions) - {old(session.id)}
      ensures err.Pass? <==> old(ids.pending) != []
      ensures err.Fail? ==> err.error == RandomSourceFailed && err.error.IsFatal() && session.id == old(session.id)
      ensures err.Fail? ==> ids.pending == old(ids.pending) && ids.issued == old(ids.issued)
      ensures err.Pass? ==> session.id == old(ids.pending)[0] && session.id !in old(ids.issued)
      ensures err.Pass? ==> ids.pending == old(ids.pending)[1..] && ids.issued == old(ids.issued) + {session.id}
      ensures err.Pass? && old(session.id) in old(ids.issued) ==> session.id != old(session.id)
    {
      err := store.Destroy(session.id);
      if err.Fail? {
        return err;
      }
      var id := ids.Generate();
      if id.Failure? {
        return Fail(id.error);
      }
      session.id := id.value;
    }

    /** One tick of the background loop: sweep the store with the configured timeouts. */
    method SweepTick(now: int)
      modifies store
      ensures store.Stamps() == Sweep(old(store.Stamps()), now, idleExpiration, absoluteExpiration)
      ensures store.sessions.Keys <= old(store.sessions).Keys
      ensures forall id :: id in store.sessions ==> store.sessions[id] == old(store.sessions)[id]
    {
      var _ := store.Gc(idleExpiration, absoluteExpiration, now);
    }
  }

  /** The cookie was presented and names a stored record. */
  predicate Found<V>(sessions: map<string, Session<V>>, cookie: Option<string>) {
    cookie.Some? && cookie.value in sessions
  }

  /** NewSessionManager: the defaults around a new in-memory store, then the options in
      order; an empty cookie name aborts construction. */
  method NewSessionManager<V>(opts: seq<ManagerOption<V>>) returns (r: Result<SessionManager<V>, Error>)
    ensures r.Failure? <==> exists i :: 0 <= i < |opts| && opts[i] == WithCookieName("")
    ensures r.Failure? ==> r.error == EmptyCookieName && r.error.IsFatal()
    ensures r.Success? ==> fresh(r.value) && r.value.cookieName != ""
    ensures r.Success? ==> exists st: InMemorySessionStore<V> :: Configure(Defaults(st), opts) == Success(r.value.Config())
    ensures r.Success? && (forall i :: 0 <= i < |opts| ==> !opts[i].WithStore?) ==>
      fresh(r.value.store) && r.value.store.sessions == map[]
  {
    var store := new InMemorySessionStore();
    var m := new SessionManager(Defaults(store));
    var i := 0;
    while i < |opts|
      invariant 0 <= i <= |opts|
      invariant fresh(m) && fresh(store) && store.sessions == map[]
      invariant (forall j :: 0 <= j < i ==> !opts[j].WithStore?) ==> m.store == store
      invariant Configure(Defaults(store), opts[..i]) == Success(m.Config())
    {
      assert opts[..i + 1][..i] == opts[..i];
      var ok := m.Apply(opts[i]);
      if ok.Fail? {
        assert Configure(Defaults(store), opts[..i + 1]).Failure?;
        ConfigureFailsIff(Defaults(store), opts);
        return Failure(ok.error);
      }
      i := i + 1;
    }
    assert opts[..i] == opts;
    ConfigureFailsIff(Defaults(store), opts);
    r := Success(m);
  }

  /** A Set-Cookie instruction. */
  datatype Cookie = Cookie(
    name: string, value: string, maxAge: int, path: string, domain: string, secure: bool, httpOnly: bool)

  /** The session cookie of writeCookieIfNecessary: Max-Age is the idle timeout in whole seconds. */
  function SessionCookie(name: string, id: string, domain: string, idle: int): Cookie {
    Cookie(name, id, WholeSeconds(idle), "/", domain, true, true)
  }

  /** sessionContextWriter: `bound` is the session the request context holds under
      "session"; `sent` lists the cookies set on the response so far. */
  class SessionContextWriter<V> {
    const manager: SessionManager<V>
    const bound: Option<Session<V>>
    const domain: string
    var done: bool
    var sent: seq<Cookie>

    /** At most one cookie, and `done` exactly when it has been set. */
    ghost predicate Valid()
      reads this
    {
      |sent| <= 1 && (done <==> |sent| == 1)
    }

    constructor (manager: SessionManager<V>, bound: Option<Session<V>>)
      ensures Valid() && !done && sent == []
      ensures this.manager == manager && this.bound == bound && domain == manager.domain
    {
      this.manager := manager;
      this.bound := bound;
      this.domain := manager.domain;
      done := false;
      sent := [];
    }

    /** writeCookieIfNecessary: sets the session cookie the first time only. */
    method WriteCookieIfNecessary() returns (r: Outcome<Error>)
      requires Valid()
      modifies this`done, this`sent
      ensures Valid()
      ensures old(done) ==> r == Pass && done && sent == old(sent)
      ensures !old(done) && bound.None? ==> r == Fail(SessionNotInContext) && !done && sent == old(sent)
      ensures !old(done) && bound.Some? ==>
        && r == Pass && done
        && sent == [SessionCookie(manager.cookieName, bound.value.id, domain, manager.idleExpiration)]
    {
      if done {
        return Pass;
      }
      if bound.None? {
        return Fail(SessionNotInContext);
      }
      sent := sent + [SessionCookie(manager.cookieName, bound.value.id, domain, manager.idleExpiration)];
      done := true;
      r := Pass;
    }
  }
}
