# Captcha memory store

A model of the default in-memory captcha store: a table from captcha id to
a record holding the expected solution and an absolute expiry instant. `Set`
inserts or overwrites a record, `Get(id, clear)` returns the solution of a
record that has not expired (optionally deleting the record), and a periodic
sweep (`collect`) deletes every record whose expiry lies strictly before the
instant the sweep read from the clock. Creating the store picks the sweep
interval, 5 minutes when 0 is given.

Instants and durations are integers counting nanoseconds (the unit of Go's
`time.Duration`). Every operation that reads the clock takes the reading as
an explicit `now` parameter. The table is the field `captchaMap` of the class
`MemoryStore`, which `Set`, `Get` and `Collect` update in place; each method
is proved to leave exactly the table given by a pure function of the old
table (`Stored`, `AfterGet`, `Swept`), and the lemmas state the store's
promises about those functions. `Op` and `Replay` describe a sequence of
calls, so that properties spanning several calls can be stated.

The two expiry tests of the code differ, and the model keeps them apart:
a lookup treats a record as live only while `expireTime > now`
(store.go:92), while the sweep deletes only when `now > expireTime`
(store.go:105). A record whose `expireTime == now` is therefore invisible to
`Get` but survives a sweep at `now` (`ExpiryBoundary`).

## Model

| member | source | states |
|---|---|---|
| CaptchaStore.EffectiveInterval | store.go:45-48 | an interval of 0 becomes 5 minutes, any other interval is kept, and a non-negative request always yields a positive period |
| CaptchaStore.Stored | store.go:68-75 | after Set the id maps to the given solution with expiry now + afterExpire, the key set gains only id, every other record is unchanged |
| CaptchaStore.Solution | store.go:82-98 | a lookup returns either "" or the stored solution of id: the stored solution whenever the record is live, and "" when it is absent or not live |
| CaptchaStore.AfterGet | store.go:84-91 | a lookup with clear removes id (expired or not) and nothing else; without clear the table is unchanged |
| CaptchaStore.Swept | store.go:100-110 | after a sweep the table holds exactly the earlier records that have not expired, with unchanged contents, and no new key |
| CaptchaStore.MemoryStore.constructor | store.go:42-50 | a new store has an empty table and a ticker period given by the interval default |
| CaptchaStore.MemoryStore.Set | store.go:68-75 | the table becomes the old table with the record for id replaced |
| CaptchaStore.MemoryStore.Get | store.go:82-98 | returns the live solution of the old table and leaves the table with id removed exactly when clear is set |
| CaptchaStore.MemoryStore.Collect | store.go:100-110 | the loop over all keys, with one clock reading, leaves exactly the swept table |
| CaptchaStore.SetThenGet | store.go:68-93 | after Set(id, c, d) at t a lookup at u returns c when u < t + d and "" otherwise |
| CaptchaStore.SetReplacesRecord | store.go:70-73 | a second Set on the same id replaces solution and expiry together, leaving nothing of the first |
| CaptchaStore.GetEmptyUnlessLive | store.go:86-97 | a lookup returns "" for an absent id or an expiry <= now, and the solution otherwise |
| CaptchaStore.GetClearIsSingleUse | store.go:89-91 | after a lookup with clear, a later lookup of the same id returns "" and lookups of other ids answer as before |
| CaptchaStore.ExpiryBoundary | store.go:92-105 | a record expiring exactly at now is not returned by a lookup at now but survives a sweep at now, unchanged |
| CaptchaStore.SweepRemovesOnlyDead | store.go:103-109 | every record the sweep deletes was already invisible to a lookup at the sweep's instant |
| CaptchaStore.SweepInvisibleToGet | store.go:100-110 | a sweep at or before a lookup's instant never changes what the lookup returns |
| CaptchaStore.SweepIdempotent | store.go:101-109 | a second sweep at the same instant removes nothing more |
| CaptchaStore.SweepNeverGrows | store.go:103-109 | a sweep never increases the number of records |
| CaptchaStore.PeeksNeverChangeTable | store.go:84-97 | any sequence of lookups without clear leaves the table exactly as it was, whatever the expiry state |
| CaptchaStore.SparedRecordSurvives | store.go:68-110 | a record stays in the table, unchanged, through any calls that name other ids and sweeps at or before its expiry |
| CaptchaStore.SetThenGetAfterOtherCalls | store.go:68-110 | after Set(id, c, d) at t, calls on other ids and sweeps up to t + d still leave a lookup of id at u < t + d returning c |

## Left out

- The ticker goroutine and its `select` loop (store.go:50-63): background scheduling; `Collect` is an ordinary method called with an explicit `now`.
- `Stop` (store.go:78-80): it only stops the ticker and never touches the table.
- Concurrency of `sync.Map`: the table is a plain sequential map, and each operation runs alone.
- `time.Now()` and `time.Time` arithmetic: the clock is the `now` parameter; monotonic versus wall-clock readings are not distinguished.
- CaptchaStore.Stored: `afterExpire` is any integer, whereas Go's `time.Duration` is a 64-bit count of nanoseconds (about ±292 years); the model does not restrict it to that range.
- CaptchaStore.EffectiveInterval: Go's `time.NewTicker` panics for a non-positive period, so a negative interval makes store creation fail; the model records the period and does not model that panic.
- The `Store` interface and custom-store registration (store.go:12-26): polymorphism only, no logic.
- Attempt counting and verification (`Verify`, `SetID`, `DefaultLeftTimes`, exercised by captcha_test.go:54-109): that code is not part of this model, and the record in store.go carries no attempt counter.
- Random digit generation, `New` and `Reload`: they are callers of the store whose code is not part of this model.
