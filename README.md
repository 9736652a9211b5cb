# In-memory session store and expiration engine, in Dafny

This project models the session package of a Gin middleware (`sessions/sessions.go`):
a server-side table from opaque session id to a mutable session record, the
expiration policy (idle timeout and absolute lifetime, both strict `>` comparisons),
the garbage-collection sweep over the table, and the `SessionManager` that looks a
session up or creates one, validates it, saves it, rotates its id, and writes the
session cookie at most once per response.

Layout, one Dafny module per component:

- `wrappers.dfy` — `Wrappers`: `Option`, `Result`, `Outcome` and the package's `Error`
  taxonomy (the panics become fatal errors; a store failure is an ordinary error).
- `expiry.dfy` — `Expiry`: the expiry predicate shared by `validate` and `gc`, the
  value-level `Sweep` of a table of timestamps with its properties, and the
  truncating conversion of the idle timeout to whole seconds for the cookie's Max-Age.
- `sessions.dfy` — `Sessions`: the `Session` class (`Get`/`Put`/`Delete` stamp
  activity), the random id source behind `generateSessionID`, and `newSession`.
- `stores.dfy` — `Stores`: `InMemorySessionStore`, a class whose `sessions` field is a
  `map<string, Session<V>>` of references, with `read`, `write`, `destroy` and `gc`
  (a loop that deletes while visiting the keys).
- `managers.dfy` — `Managers`: the functional options as a datatype, their meaning as
  `Configure`, the `SessionManager` class, `NewSessionManager`, and
  `sessionContextWriter` with its `done` flag.
- `scenarios.dfy` — `Scenarios`: client methods that replay the demo's counter
  endpoint (1, then 2, then 1 again after a sweep with idle timeout 0) and the
  store, payload, validate and rotation round trips, and id uniqueness across a rotation,
  using only the contracts above.

Time is an explicit `now: int` parameter in nanoseconds, so `time.Since(t)` is
`now - t`; durations are integers in nanoseconds (`time.Second` is 10^9). The session
payload type `any` is a type parameter `V`.

`Handle` saves the session and writes the cookie before the downstream handler runs,
and never installs the wrapping writer, so the cookie is written eagerly rather than
on the first response write. `Handle` is outside this model (see below); the once-only
logic of `writeCookieIfNecessary` is modelled as written.

## Model

| member | source | states |
|---|---|---|
| `Expiry.SweepRemovesExactlyExpired` | sessions/sessions.go:278-283 | an id survives the sweep iff it was in the table and neither `now - lastActivityAt > idle` nor `now - createdAt > absolute`; survivors keep their record |
| `Expiry.SweepThreshold` | sessions/sessions.go:279-280 | a record exactly at the idle threshold survives (strict comparison) and is removed one nanosecond later |
| `Expiry.SweepIdempotent` | sessions/sessions.go:274-286 | a second sweep at the same instant removes nothing more |
| `Expiry.SweepLaterRemovesMore` | sessions/sessions.go:274-286 | a later sweep keeps a subset of what an earlier one keeps |
| `Expiry.SweepAfterWrite` | sessions/sessions.go:256-263 | sweeping after an upsert equals upserting a live record into the swept table, or dropping the key if the new record is expired |
| `Expiry.SweepAfterDestroy` | sessions/sessions.go:265-272 | sweeping after a delete equals deleting from the swept table |
| `Expiry.WholeSeconds` | sessions/sessions.go:327 | `int(d / time.Second)` truncates toward zero: the result has the sign of `d` and is the whole number of seconds in `abs(d)` |
| `Sessions.Session.constructor` | sessions/sessions.go:92-99 | a new record has the given id, empty data and `createdAt == lastActivityAt == now` |
| `Sessions.Session.Get` | sessions/sessions.go:101-104 | sets `lastActivityAt` to `now`; returns `Some(data[key])` iff the key is present, `None` otherwise; data unchanged |
| `Sessions.Session.Put` | sessions/sessions.go:106-109 | sets `lastActivityAt` to `now`; data becomes the old data with `key` bound to `value` |
| `Sessions.Session.Delete` | sessions/sessions.go:111-114 | sets `lastActivityAt` to `now`; data becomes the old data without `key` (no-op if absent) |
| `Sessions.IdSource.Generate` | sessions/sessions.go:81-90 | returns the next random id, never one issued before, and records it as issued; an exhausted source is the fatal `RandomSourceFailed` |
| `Sessions.NewSession` | sessions/sessions.go:92-99 | a fresh session under a never-issued id with empty data and both timestamps at `now`, or the fatal failure of the id source |
| `Stores.InMemorySessionStore.constructor` | sessions/sessions.go:232-237 | the table starts empty |
| `Stores.InMemorySessionStore.Read` | sessions/sessions.go:248-254 | returns the stored reference iff the id is present, `None` for a missing id, and never an error |
| `Stores.InMemorySessionStore.Write` | sessions/sessions.go:256-263 | the table becomes the old table with `session.id` bound to `session` (insert or replace; other ids unchanged); no error |
| `Stores.InMemorySessionStore.Destroy` | sessions/sessions.go:265-272 | the table becomes the old table without `id`, unchanged if it was absent; no error |
| `Stores.InMemorySessionStore.Gc` | sessions/sessions.go:274-286 | the table keeps exactly the entries that are not expired at `now`, as the same references, and its timestamps are `Sweep` of the old ones; no error |
| `Managers.Configure` | sessions/sessions.go:126-128 | applying options in order fails only with `EmptyCookieName`, and a successful configuration that started with a cookie name still has a non-empty one |
| `Managers.ConfigureFailsIff` | sessions/sessions.go:60-67 | construction fails exactly when some option is `WithCookieName("")` |
| `Managers.LastOptionWins` | sessions/sessions.go:126-128 | after a successful construction, each field holds the value of the last option that sets it |
| `Managers.UnsetFieldKeepsDefault` | sessions/sessions.go:116-128 | a field that no option sets keeps its default |
| `Managers.SessionManager.Apply` | sessions/sessions.go:40-79 | one option closure changes the manager's configuration as `ApplyOption` says, or fails with `EmptyCookieName` leaving it unchanged |
| `Managers.NewSessionManager` | sessions/sessions.go:116-133 | fails iff an option is `WithCookieName("")`; otherwise a fresh manager whose configuration is `Configure` of the defaults (idle 10 min, absolute 1 h, cookie `"session"`, domain `""`, ticker 5 min) and whose store is a fresh empty one unless `WithStore` was given |
| `Managers.SessionManager.Validate` | sessions/sessions.go:141-155 | returns false iff the record is expired at `now`; then its id is destroyed in the store, otherwise the store is untouched |
| `Managers.SessionManager.Start` | sessions/sessions.go:157-172 | reuses the stored record when the cookie names one that is live (store untouched); destroys it when expired; in that case and when there is no cookie or no record, returns a fresh empty session stamped `now` under the next never-issued id, which the id source now records as issued, or the fatal id-source failure with the source unchanged |
| `Managers.SessionManager.Save` | sessions/sessions.go:179-188 | stamps `lastActivityAt = now` and leaves the store with `session.id` bound to the session; the store's result is returned |
| `Managers.SessionManager.Migrate` | sessions/sessions.go:190-199 | the old id is removed from the store and the new id is not written; on success the session's id is the next never-issued id (so it differs from an issued old id), the id source advances past it and records it as issued, payload and timestamps unchanged; an exhausted id source is fatal after the destroy and leaves the id and the source unchanged |
| `Managers.SessionManager.SweepTick` | sessions/sessions.go:135-139 | one tick of the background loop sweeps the store with the configured timeouts, keeping the same references |
| `Managers.SessionContextWriter.constructor` | sessions/sessions.go:207-211 | a writer starts with `done` false, no cookie sent, and the manager's domain |
| `Managers.SessionContextWriter.WriteCookieIfNecessary` | sessions/sessions.go:311-331 | keeps the invariant "at most one cookie, and `done` exactly when sent"; the first call with a bound session sends the cookie (configured name, session id, Max-Age the idle timeout in whole seconds, path `/`, secure, HTTP-only) and later calls do nothing; no bound session is the fatal `SessionNotInContext` |
| `Scenarios.Increment` | example/main/main.go:14-21 | the demo handler reads `count` (absent counts as 0), and stores and returns one more |

## Left out

- `Handle`, `GetSession`, and the `Write`, `WriteHeader` and `Unwrap` methods of the
  wrapping writer: Gin request and response plumbing. The request context is reduced to
  the `bound` session a writer sees; the cookie's value is the session id.
- The ticker goroutine started by `NewSessionManager` and the `for range t.C` loop: one
  iteration is `SweepTick`; the `go` statement, the channel and the timer are concurrency.
  The ticker option is kept as a period only.
- `sync.RWMutex` locking: the model is sequential, so each store operation is atomic by
  construction. The race between a sweep and a concurrent save is not modelled.
- `crypto/rand` and `base64.RawURLEncoding`: the id source is a sequence of distinct,
  never-issued identifiers; running out stands for the random source failing.
- `time.Now`: replaced by the `now` parameter. `newSession` reads the clock twice; the
  model uses one instant for both timestamps. Because `now` is free, the invariant
  `lastActivityAt >= createdAt` (which holds in the program only because the clock is
  monotonic) is not stated.
- `log.Printf` of a store read error: the in-memory store never returns one.
- Managers.SessionManager.Save: states that the error is always `Pass`, because the only
  store backend never fails; the branch that returns a write error is kept but cannot be taken.
- Managers.SessionManager.Migrate: the same holds for a destroy error.
- Managers.SessionManager.Validate: the panic on a destroy error cannot happen with the
  in-memory store and is not modelled.
- Other `SessionStore` implementations: the interface has one implementation, which is
  the one modelled.
- `int64` overflow of durations and of `time.Since`: integers are unbounded.
- A payload value of `nil` stored with `Put` reads back in the program as "absent"; the
  model's `Get` returns `Some` of the stored value instead.
