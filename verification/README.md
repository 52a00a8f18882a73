# PxProxy, verified

A Dafny model of the parts of PxProxy (a reverse proxy written in Go) whose behaviour is a matter of state,
time or interleaving, with proofs about them.

- **The failed-login limiter** (`security.dfy`, `limiter_runs.dfy`, `brute_force.dfy`, `login.dfy`). Every key has a
  record: a count of wrong passwords, the time of the first one, and the time until which the key is locked. The
  window is anchored at the first failure; it does not slide. The limiter is a class over records updated in place,
  tied to specification functions on the table of records; the theorems are about whole runs of those functions. The
  bound on wrong passwords holds for requests that overlap: each asks first and records its failure later.
- **Its replication** (`lock_store.dfy`, `limiter_persist.dfy`, `cluster.dfy`). Nodes push snapshots into a shared
  row and pull the row back. The cluster is a state machine over N nodes, in which a node's exchange is four
  separate steps and anything may happen in between. The class that a node runs is proved to take those steps.
- **Routing, load balancing and health** (`routes.dfy`, `load_balancer.dfy`, `health.dfy`, `monitoring.dfy`).
- **The configuration store** (`sealing.dfy`, `config_store.dfy`): secrets sealed at rest, and the
  interleavings of concurrent updates and reloads.
- **Smaller pieces** (`metrics.dfy`, `decimal.dfy`, `totp.dfy`, `streams.dfy`; `text.dfy` holds string operations).

`prelude.dfy` holds what all parts share. `dafny verify dfyconfig.toml` checks everything.

## Conventions

Times are integer nanoseconds on one clock, 0 being Go's zero time. Every operation takes the clock reading it
works with; gc, which reads the clock per entry, is a sweep over an arbitrary part of the table in the run theorems.
Asking and recording the outcome of a login are separate steps, each reading the clock. A network, disk or start
outcome, the random source, the password check, HMAC, base32, the ciphers and URL parsing are parameters; the session
secret that the random source gives is hex, so it is taken to be non-empty and not to look sealed. The database
transaction is one atomic step, and JSON encodes well-formed values faithfully.

## Where the code differs from what one would expect

- The technical document (DOCUMENTO_TECNICO.md:346) gives the one-time password window as one step to each side.
  The code accepts two (`totpSkew`), and so does the model.
- The technical document (DOCUMENTO_TECNICO.md:202) says that locks converge on all nodes. Restore never overwrites
  a record that a node already holds, so a lock arrives exactly at nodes without a record of the key
  (`Cluster.AdoptedLock`; `Cluster.LockNotAdopted` is a run in which it does not).
- A Reset is local. The node's next exchange undoes it if and only if the row holds a lock
  (`Cluster.ResetThenExchange`), and some later run undoes it if and only if a copy of the lock is left anywhere in
  the cluster (`Cluster.ResetFinal`).
- Requests that overlap all pass Allowed before the first of them fails, so `crowd` of them get up to `crowd`
  guesses per lockout and not one (`BruteForce.CrowdBound`, attained by `BruteForce.WindowBoundAttained`). One that
  fails late can even replace a lock by a fresh record: `LimiterRuns.UnguardedFailKeepsLock` says exactly when, and
  `BruteForce.LockLost` is such a run for all parameters with max > 1 and a lockout over one nanosecond.
- `normalize` turns a negative backup interval into 0, which the next load reads as "not set" and turns into 360
  (`Sealing.NormalizeSettles`, `Sealing.BackupsComeBack`); a saved configuration reads back unchanged if and only if
  it has no such field and no secret looks sealed (`Sealing.SaveLoadRoundTrip`).
- `NormalizeHost` is not idempotent on names with a blank before the colon (`Routes.NormalizeHostIdempotent`,
  `Routes.BlankBeforePort`).
- From ticket 2^63 on, round-robin mostly panics and weighted sends everything to the first backend
  (`LoadBalancer.TicketsPastSignedRange`, `LoadBalancer.FirstTicketPastRange`).
- Two rebuilds that overlap can leave an enabled route with a backend that nobody watches
  (`Monitoring.RoutedIsWatched` says exactly when, `Monitoring.OverlapLosesBackend` is such a run).

## Model

| member | source | states |
|---|---|---|
| Security.Defaulted | internal/security/security.go:42-55 | NewLimiter only ever works with positive max, window and lockout |
| Security.Limiter.constructor | internal/security/security.go:42-55 | a new limiter holds nothing and has the defaulted parameters |
| Security.Limiter.Allowed | internal/security/security.go:78-94 | denies exactly while now is before lockedUntil, and drops a record whose window is over |
| Security.Limiter.Fail | internal/security/security.go:96-111 | counts one failure on this key only, in a new record if the window is over, and locks from the max-th on |
| Security.AttemptRecord.Bump | internal/security/security.go:105-110 | the in-place update of one record by one failure |
| Security.Limiter.Reset | internal/security/security.go:113-117 | forgets this key and no other |
| Security.Limiter.Gc | internal/security/security.go:57-74 | in any visiting order, removes exactly the records that are neither locked nor in their window |
| Security.Limiter.ActiveLocks | internal/security/security.go:119-129 | the number of keys locked now |
| Security.Limiter.Snapshot | internal/security/security.go:144-164 | exactly the live records, by value |
| Security.Limiter.Restore | internal/security/security.go:166-184 | takes over exactly the live records of named keys not held yet, in any visiting order |
| LimiterRuns.Perform | internal/security/security.go:57-117 | one operation of a run, done by the limiter's own methods: they leave what Effect says and return what Observed says |
| LimiterRuns.PerformAll | internal/security/security.go:57-117 | a whole run on a limiter leaves the table and returns the answers that the run theorems are about |
| BruteForce.CrowdBound | internal/server/admin.go:944-955 | with at most `crowd` requests on a key under way at a time, overlapping in any way, and gc anywhere, wrong passwords on it number at most (T/window + 1) * (max - 1 + (window/lockout + 1) * crowd) until somebody logs in |
| BruteForce.BruteForceBound | internal/security/security.go:78-111 | for requests that do not overlap, guesses on one key number at most (T/window + 1) * (max + window/lockout) |
| BruteForce.StepCharged | internal/security/security.go:78-111 | the bound's invariant: windows start more than one window apart, and from the max-th failure on rounds of at most `crowd` failures start one lockout apart |
| BruteForce.WindowBoundAttained | internal/security/security.go:78-111 | for all parameters and every `crowd` some series of requests reaches the bound inside one window |
| BruteForce.LockLost | internal/server/admin.go:944-955 | with two requests under way a lock can be lost: a late failure replaces it and the key is free |
| LimiterRuns.UnguardedFailKeepsLock | internal/security/security.go:96-111 | an unguarded failure keeps a lock if and only if it falls in the record's window, or max is 1 |
| LimiterRuns.SimilarAnswers | internal/security/security.go:57-111 | two limiters that agree on live records answer the same calls alike for ever, each sweeping when it likes |
| LimiterRuns.SnapshotTakesOver | internal/security/security.go:144-184 | a limiter restored from a snapshot answers every later series of calls as the original would have |
| LimiterRuns.SweepsInvisible | internal/security/security.go:57-74 | no answer depends on when gc runs or how far it gets |
| LimiterRuns.RunCounted | internal/security/security.go:96-111 | every record in every table that runs and restores produce counts at least one failure |
| Login.Ask | internal/server/admin.go:944-951 | refuses exactly when one of the two keys is locked, the IP address first, and does not ask the second limiter if the first refuses |
| Login.RecordOutcome | internal/server/admin.go:952-963 | one failure on both limiters, or both keys forgotten |
| Login.PasswordLogin | internal/server/admin.go:944-963 | a login on its own is blocked exactly when one of its two keys is locked, and leaves each limiter as its moves do |
| Login.CodeLogin | internal/server/admin.go:1263-1278 | the same for the second factor |
| Login.LoginIsMoves | internal/server/admin.go:1594-1611 | a login is an Enter and a Wrong or Leave on each limiter, one failure per rejection, so the bound applies to logins |
| LockStore.MergeLockStates | internal/store/pg.go:144-169 | the loop computes the join, under the pushed parameters; undecodable or missing states leave the incoming one |
| LockStore.MergeAssociativeIdempotent | internal/store/pg.go:144-169 | the join is associative and idempotent on full records |
| LockStore.MergeCommutes | internal/store/pg.go:157-162 | it commutes up to the window start, and fully if and only if no tie differs in it |
| LockStore.PushedMaximum | internal/store/pg.go:144-169 | after any pushes the row holds, per key, an offered record, and no record ever offered locks for longer, or as long with more failures |
| LockStore.PushOrderIrrelevant | internal/store/pg.go:117-169 | any permutation of the same pushes gives every key the same lock time and count |
| LockStore.LockTable.SaveLocks | internal/store/pg.go:117-142 | a committed transaction joins every named row with its push and leaves the others, a failed one changes nothing |
| LockStore.StatesFromLimiter | internal/store/pg.go:406-416 | encodes every state under its name |
| LockStore.StatesToLimiter | internal/store/pg.go:418-429 | decodes every row that decodes and drops the others |
| LimiterPersistence.LimiterPersist.Snapshots | main.go:76-85 | the live records of every limiter at this time, with its parameters, and a total that is zero exactly when there are none |
| LimiterPersistence.LimiterPersist.Load | main.go:87-132 | restores each limiter from the state under its own name and touches no other |
| LimiterPersistence.LimiterPersist.Save | main.go:134-158 | joins the live records of every limiter into its row, or writes a file from which each gets exactly those records back, and no file if there are none; a failing write leaves the old file or a broken one |
| LimiterPersistence.LimiterPersist.Sync | main.go:160-176 | every row becomes the join with the limiter's live records, and every limiter gets its row restored into it; nothing without a database |
| LimiterPersistence.FileRoundTrip | main.go:87-158 | a new process restores from the file exactly the snapshots that were saved, also when the file was removed |
| LimiterPersistence.RestartUnobservable | main.go:87-158 | after a save and a restart every limiter answers every later series of calls as before |
| LimiterPersistence.Restart | main.go:87-158 | the same of the methods: a Save by one process and a Load by the next |
| LimiterPersistence.SyncIsClusterSteps | main.go:134-176 | for each limiter name, a Sync with any database outcome is a Take, Push, Pull and Adopt of its node in the cluster model |
| LimiterPersistence.SyncAsNode | main.go:134-176 | the same of the method: what Sync leaves in the row and in a limiter is what those steps leave |
| LimiterPersistence.LoadIsClusterSteps | main.go:87-107 | the load of a new process is a pull and adopt by a fresh node |
| Cluster.StepBacked | main.go:134-176 | every record anywhere in the cluster stands for as many distinct failures on its key, all in its window; every step keeps this |
| Cluster.RunBacked | main.go:134-176 | the same over every run |
| Cluster.NoInventedLocks | internal/security/security.go:96-184 | in every reachable state a lock stands for at least max real failures in one window, and ends within one lockout |
| Cluster.RowKeepsLock | internal/store/pg.go:117-169 | the shared row never forgets a lock |
| Cluster.PushedLock | main.go:134-146 | a snapshot of a locked key, once pushed, puts the lock in the row |
| Cluster.PulledLock | main.go:160-170 | whatever happened since, what a node pulls holds the lock |
| Cluster.AdoptedLock | internal/security/security.go:166-184 | a pulled lock takes effect if and only if the node holds no record of the key, or one locked as long |
| Cluster.NodeKeepsLock | internal/security/security.go:78-94 | a held lock survives every step but a Reset, an unguarded failure or a restart of that node |
| Cluster.LockPropagates | main.go:134-176 | from one node's lock to another node's refusal until the same time, through any interleaving |
| Cluster.LockNotAdopted | internal/security/security.go:178-182 | a run in which the row holds a lock and a node that has exchanged still lets the key in |
| Cluster.ResetThenExchange | main.go:160-176 | after a Reset and the node's exchange it answers for the key as the row does, so the Reset holds if and only if the row holds no lock |
| Cluster.ResetFinal | main.go:134-176 | without another failure, some run locks the key on that node again if and only if a copy of the lock is left in the row, at a node, or in an exchange under way |
| Cluster.ExchangeEffect | main.go:160-176 | an undisturbed exchange leaves the join in the row and adds it to the node |
| Cluster.ExchangeIdempotent | main.go:160-176 | exchanging again at once changes neither the node nor the row |
| LoadBalancer.Balancer.RoundRobin | internal/rules/engine.go:61-65 | one ticket, converted to a signed int before the remainder |
| LoadBalancer.Balancer.Weighted | internal/rules/engine.go:67-85 | the loop picks by cumulated weights; no ticket is taken when they sum to zero |
| LoadBalancer.Balancer.LeastConns | internal/rules/engine.go:87-98 | the first of the backends with the fewest connections |
| LoadBalancer.Balancer.Next | internal/rules/engine.go:47-59 | dispatch on the strategy, round-robin for every other name, nothing without backends; a first minimum and no ticket for least-connections, and otherwise a ticket exactly when the strategy needs one |
| LoadBalancer.PositionOwner | internal/rules/engine.go:76-84 | every position below the total is answered by the one backend whose slice holds it, so the final return is not reached |
| LoadBalancer.ExactShares | internal/rules/engine.go:67-85 | any W consecutive tickets serve backend i exactly w_i times |
| LoadBalancer.ShareDeviation | internal/rules/engine.go:67-85 | after N tickets, W*count_i differs from N*w_i by at most w_i*(W - w_i) |
| LoadBalancer.RoundRobinIsUnitWeighted | internal/rules/engine.go:61-85 | round-robin picks as weighted does with every weight 1 |
| LoadBalancer.NextTimes | internal/rules/engine.go:47-85 | k calls in a row below 2^63 take the next k tickets, and a full round of them serves each backend its weight (round-robin: once) |
| LoadBalancer.TicketsPastSignedRange | internal/rules/engine.go:61-75 | round-robin answers if and only if the ticket is below 2^63 or divides evenly; weighted is right if and only if the ticket is below 2^63 or it is the first backend's turn |
| LoadBalancer.FirstTicketPastRange | internal/rules/engine.go:61-75 | ticket 2^63 over three equal backends: a panic, and a wrong pick |
| LoadBalancer.LeastConnectionsBalance | internal/rules/engine.go:87-98 | from idle without completions, every backend holds floor(N/n) or ceil(N/n), dealt out as round-robin would |
| LoadBalancer.ConnectTimes | internal/rules/engine.go:51-55 | k calls in a row under least-connections, each followed by a connection, pick a least connected backend each time, and from idle deal them out evenly |
| Routes.NormalizeHostIdempotent | internal/rules/engine.go:137-143 | normalising twice is normalising once if and only if no blank stands before the colon |
| Routes.BlankBeforePort | internal/rules/engine.go:137-143 | "a :80" is such a host |
| Routes.HostName | internal/rules/engine.go:137-143 | a host is looked up by its name in small letters, whatever port follows and whatever blanks stand around it |
| Routes.DestinationsExact | internal/rules/engine.go:145-158 | the backends of a rule are its http and https targets with a host, each once and in order, with their weights or 1 |
| Routes.RuleDestinationsExact | internal/rules/engine.go:186-201 | a rule is served by its list of targets, or else by its single target, and by nothing when switched off |
| Routes.HandedOverIsConfigured | internal/rules/engine.go:163-176 | the checker is handed nothing but destinations of enabled rules with a host |
| Routes.Engine.BuildMultiBackends | internal/rules/engine.go:203-225 | exactly the usable targets in order, weights at least 1, the configured strategy or round-robin, no balancer without a backend |
| Routes.Engine.BuildSingleBackend | internal/rules/engine.go:193-201 | the one target, or nothing if it is not usable |
| Routes.Engine.SetHealthChecker | internal/rules/engine.go:133-135 | attaches the checker and leaves the routes alone |
| Routes.Engine.Publish | internal/rules/engine.go:160-181 | routes and targets are replaced by what the list stands for |
| Routes.Engine.Rebuild | internal/rules/engine.go:160-184 | and the attached checker then watches every backend of every route |
| Routes.Engine.Lookup | internal/rules/engine.go:250-270 | in any visiting order: the exact route, else the unique longest matching wildcard, else nothing |
| Routes.EqualLengthWildcards | internal/rules/engine.go:258-268 | two matching wildcards of equal length are equal |
| Routes.WildcardExact | internal/rules/engine.go:258-268 | a wildcard matches exactly the names that end in a dot and its domain |
| Routes.MostSpecific | internal/rules/engine.go:256-269 | of all wildcards that cover a host, the most specific one answers |
| Routes.ResolvesUnique | internal/rules/engine.go:250-270 | at most one answer fits, so map order cannot show |
| Routes.LastRuleFound | internal/rules/engine.go:160-176 | the last rule for a normalised host is the one that answers it |
| Routes.ConfiguredHosts | internal/rules/engine.go:160-176 | a host has an exact route if and only if some rule normalises to it |
| Routes.Engine.ServeRoute | internal/rules/engine.go:311-358 | exactly when each answer is given: proxied if and only if the rule is enabled, a backend was picked, the checker does not report it down, and the session is there if required; a backend that is down is answered 503 and not skipped, before the session check; only a proxied request counts a connection, and a ticket is taken only if there is a choice |
| Health.Checker.SetTargets | internal/health/health.go:77-96 | targets that stay keep their status object and verdict, new ones start healthy, the rest are forgotten |
| Health.Checker.IsHealthy | internal/health/health.go:98-106 | unknown targets count as healthy |
| Health.Checker.Record | internal/health/health.go:167-199 | the effect of one probe, and the onChange call exactly when the verdict changed |
| Health.Checker.MarkAllHealthy | internal/health/health.go:201-212 | every target healthy with no failures counted, in any visiting order |
| Health.VerdictIsRecentProbes | internal/health/health.go:77-212 | over any run, a target is down if and only if its last `failures` probes since registration or amnesty all failed |
| Health.CountsAreHistory | internal/health/health.go:77-212 | over any run, the counts and the error shown are those of the probes since registration, and an amnesty clears only the error |
| Health.ChangeIsFlip | internal/health/health.go:175-198 | onChange fires on a probe exactly when that verdict flips with it |
| Monitoring.WatchesHanded | internal/rules/engine.go:178-183 | after any rebuilds, overlapping or not, and probes the checker watches exactly what was last handed over |
| Monitoring.RoutedIsWatched | internal/rules/engine.go:160-184 | every backend of every enabled route is watched if the last list handed over is the one published, and in general if and only if that list names it |
| Monitoring.OverlapLosesBackend | internal/rules/engine.go:178-183 | two overlapping rebuilds leave every backend unwatched that only the newer list names |
| Monitoring.RebuildKeepsReport | internal/health/health.go:77-96 | a rebuild changes nothing about a backend that was watched and still is routed to |
| Routes.RuleDestinationsNamed | internal/rules/engine.go:203-225 | balancers only ever get positive weights and named targets |
| Sealing.SealOpens | internal/secrets/secrets.go:28-71 | a secret survives sealing and opening, even if sealing fails; one that looks sealed already does if and only if the cipher rejects it |
| Sealing.SealChoice | internal/secrets/secrets.go:28-45 | DPAPI seals where it works, the key file where it does not, and only what neither can seal stays in the clear |
| Sealing.ForeignStaysSealed | internal/secrets/secrets.go:47-71 | under another key a sealed secret stays sealed |
| Sealing.SettledIsUnchanged | internal/config/config.go:183-232 | exactly which configurations normalize leaves alone |
| Sealing.DefaultsFilled | internal/config/config.go:192-230 | each field that is not set gets its own default, and each that is set stays |
| Sealing.NormalizedExact | internal/config/config.go:183-211 | fails exactly when a random secret or a hash is needed and there is none; otherwise makes up what is missing and keeps the rest |
| Sealing.NormalizeSettles | internal/config/config.go:183-232 | one pass settles a configuration if and only if its backup interval is not negative; otherwise the next pass makes it 360 |
| Sealing.LoadGivesNormalized | internal/config/config.go:163-262 | what is sealed and written reads back as normalize would leave it |
| Sealing.SealedInPlace | internal/config/config.go:163-171 | every secret is sealed in its own place |
| Sealing.SaveLoadRoundTrip | internal/config/config.go:163-262 | it reads back as the same configuration if and only if normalize leaves that alone and no plaintext secret looks sealed |
| Sealing.BackupsComeBack | internal/config/config.go:213-218 | an interval of -1 is 0 after one load and 360 after the next |
| Sealing.OtherKeyRefuses | internal/config/config.go:234-262 | decoding with another key fails with the key mismatch exactly when one secret was really sealed, for every configuration that can be normalised |
| Sealing.NothingInClear | internal/config/config.go:163-171 | while the key file works, no secret is written in the clear |
| Sealing.SealSensitive | internal/config/config.go:163-171 | seals every secret in place, in any visiting order |
| Sealing.OpenSensitive | internal/config/config.go:173-181 | opens every secret in place |
| Sealing.Marshal | internal/config/config.go:374-385 | what Save writes; the live configuration and its map of secrets are untouched |
| Sealing.NormalizeRest | internal/config/config.go:192-230 | fills in each default of the fields that hold no secret, or fails without a password hash |
| Sealing.Normalize | internal/config/config.go:183-232 | fills in the defaults in place, or fails without randomness |
| Sealing.DecodeConfig | internal/config/config.go:248-262 | normalise, open, and refuse what is still sealed |
| ConfigStore.StepCovered | internal/config/config.go:337-436 | a difference between memory and disk is always covered by a thread that has changed memory and not yet marshalled |
| ConfigStore.RunCovered | internal/config/config.go:337-436 | the same over every interleaving, with saveMu held by one thread at a time |
| ConfigStore.QuietMeansDurable | internal/config/config.go:371-436 | in every interleaving, once all calls have returned and the latest write worked, the file holds the configuration in memory |
| ConfigStore.QuietReadsBack | internal/config/config.go:248-262 | and decoding that file gives the configuration in memory, if and only if normalize leaves that alone and no secret in it looks sealed |
| ConfigStore.LoneUpdate | internal/config/config.go:489-494 | a single call changes memory at once, and the file if and only if its write works |
| ConfigStore.LoneSetBackend | internal/config/config.go:307-336 | a SetBackend takes over the backend's configuration in memory, and in the file if its write works; one that gives up changes nothing |
| Metrics.StepKeeps | internal/metrics/metrics.go:32-59 | in every interleaving each installed counter holds exactly what was added to it, modulo 2^64 |
| Metrics.CountersStay | internal/metrics/metrics.go:42-53 | installed counters are never replaced |
| Metrics.NoLostCounts | internal/metrics/metrics.go:32-59 | when all calls have finished, totals and counts equal the number of calls per key and durations their sum, modulo 2^64 |
| Decimal.Itoa | internal/metrics/metrics.go:200-212 | stays inside the 20-byte buffer, terminates, no leading zero, and the digits stand for the number |
| Decimal.CanonicalUnique | internal/metrics/metrics.go:200-212 | a number has only one such spelling |
| Totp.BigEndianExact | internal/auth/totp.go:42-43 | different counters are authenticated as different messages |
| Totp.TruncatedExact | internal/auth/totp.go:46-50 | the digest's last four bits name the place of four bytes whose number, without the top bit, is the code |
| Totp.WorkedExample | internal/auth/totp.go:46-57 | the example of section 5.4 of RFC 4226 |
| Totp.CodeShape | internal/auth/totp.go:46-57 | a code is six digits standing for the truncated digest modulo a million |
| Totp.Hotp | internal/auth/totp.go:41-58 | computes six digits that stand for those four bytes, without the top bit, modulo a million |
| Totp.SeparatorsIrrelevant | internal/auth/totp.go:29-39 | spaces and dashes anywhere in a secret do not matter |
| Totp.CaseIrrelevant | internal/auth/totp.go:29-39 | small letters in a secret stand for capitals |
| Totp.PlainSecret | internal/auth/totp.go:29-39 | a secret in capitals and digits is decoded as it is, unless it has fewer than 16 characters |
| Totp.VerifyTOTPCodeAt | internal/auth/totp.go:76-96 | accepts exactly the codes of the five nearest steps, counting modulo 2^64 |
| Totp.AcceptanceWindow | internal/auth/totp.go:76-96 | from the first minute on, exactly the codes of counters within 2 of floor(t/30) |
| Totp.CodeLifetime | internal/auth/totp.go:60-96 | a code is good for a minute each way; from 90 seconds away only another step's equal code is accepted |
| Streams.Manager.Apply | internal/stream/stream.go:63-99 | reconciles with any start failures; surviving listeners are the same objects and removed ones are stopped |
| Streams.Manager.Close | internal/stream/stream.go:231-239 | stops every listener |
| Streams.RunningHasNoError | internal/stream/stream.go:63-99 | after any series of calls, no key is both running and in error |
| Streams.WantedExact | internal/stream/stream.go:63-75 | a key is wanted if and only if an enabled rule with an address and a target has it, and the last such rule counts |
| Streams.ApplySettles | internal/stream/stream.go:63-99 | after an Apply only wanted keys run, and every wanted key runs or has an error on record |
| Streams.StatusAfterApply | internal/stream/stream.go:242-266 | what the panel shows for each enabled rule after an Apply, including errors left from earlier ones |
| Streams.DisabledShowsNothing | internal/stream/stream.go:242-266 | a rule that is switched off shows neither a listener nor an error |
| Streams.ReapplyOnlyRetries | internal/stream/stream.go:61-99 | repeating an Apply stops nothing and retries exactly what failed; with the same outcomes it changes nothing |

## Left out

- HTTP, HTML, TLS, certificates, LDAP, OIDC, sessions, self-update and the audit log: I/O or libraries.
- Saturation of time differences at 292 years, overflow of failure counts, and overflow of summed weights: integers are unbounded there.
- Login.PasswordLogin: no other request comes between its two halves; overlapping requests are the moves of BruteForce.CrowdBound.
- Login.CodeLogin: the same.
- Restoring the lock table from a backup, and nodes with different limiter parameters: the cluster theorems exclude both.
- Routes.Engine.Rebuild: is one call on its own; rebuilds that overlap are steps in Monitoring.
- Routes.Engine.ServeRoute: does not model the end of a request, which decrements connections from reverse-proxy callbacks.
- LoadBalancer.LeastConnectionsBalance: does not model picks that overlap, since the connection is counted after the pick.
- Config replication between nodes by version polling and notifications: a failed push leaves the version unchanged.
- ConfigStore.QuietMeansDurable: does not model the push to the remote backend, which happens after the local write.
- Routes.NormalizeHostIdempotent: does not model case folding of letters outside ASCII and Latin-1.
- Checker.Snapshot, LoadBalancingInfo and the printing of floating-point metrics: read-only views.
- Timestamps and error counters of the metrics and health pages that no decision reads.
- Updating a running stream listener whose target changed: the code keeps the old one, and so does the model.
