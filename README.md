# Active Directory attack lab: a verified model of the event store and simulations

The lab service simulates four Active Directory attack techniques against a
fixed domain inventory: password spray, Kerberoasting, pass-the-hash and
golden ticket. Each simulation appends attack logs and detection events to an
in-memory event store. A statistics read summarises the store: the counts,
a tally of attack logs by type, the detection rate and the number of
CRITICAL events. A logs read returns the newest twenty entries of each log,
and a reset empties both logs.

This Dafny project models that core. It is split into these modules:

- `Text` (`text.dfy`): decimal formatting of the drawn integers, and
  Python's `s[:n]` and `s[-n:]` slices.
- `Inventory` (`inventory.dfy`): the domain users and controllers, the
  privileged pool and the environment summary.
- `Mitigation` (`mitigation.dfy`): the catalog of recommended defenses.
- `Records` (`records.dfy`): the attack-log and detection-event records and
  how one of each is built.
- `Simulations` (`simulations.dfy`): for each simulation, a pure function
  giving the result it returns and the records it appends. Each simulation
  also has an `...Outcome` lemma stating what the source promises about that
  result and those records.
- `Aggregator` (`aggregator.dfy`): the tally, the critical-event count, the
  detection rate and `StatsOf`, which gives the statistics of a pair of logs.
- `Store` (`store.dfy`): the `EventStore` class. Its fields are the two logs,
  which its methods append to and reset. Each simulation method follows the
  source step by step, and its contract ties the new state and the result to
  the function in `Simulations`. In the source the two logs are module-level
  lists; here they are fields of one object.
- `Scenarios` (`scenarios.dfy`): runs of the store, seen from a client.

The source draws random numbers and reads the clock and hash functions. In
the model these values are inputs, collected in one `...Draws` value per
simulation. A validity predicate on each `...Draws` value pins every draw to
the range the source draws from:

- a `randint` result lies within its bounds;
- a `random.random()` result lies in [0, 1);
- a `random.sample` draw is a sequence of distinct positions of the pool;
- an md5 digest is 32 lowercase hex digits;
- a sha256 digest is 64 lowercase hex digits.

The simulations are stated over any inventory with unique usernames. The
service's store uses `DomainUsers`.

Two behaviours of the code are easy to miss, and the model keeps both:

- **The code does not keep the detection rate within [0, 100].** A password spray always
  records a detection event, but it records an attack log only for each
  successful attempt. `Scenarios.RateAboveHundred` exhibits a run whose rate
  is 200. No contract claims that the rate lies in [0, 100].
- **The code has no configuration-error result for an empty pool.** With no privileged user,
  `random.choice` in the Kerberoasting and pass-the-hash simulations raises
  an exception; there is no typed configuration-error result. The model
  therefore requires the draw to pick a position of a non-empty privileged
  pool. The lab's own pool is never empty: `Inventory.ServiceAccountsAre`
  shows it is exactly admin.service and alice.williams.

Two behaviours of the displayed digests follow from the digest lengths:

- An md5 digest has 32 characters, so the Kerberoasting ticket shows the
  whole digest, and so does the pass-the-hash `head...tail` display.
- The golden-ticket display of the 64-character sha256 digest hides only its
  third quarter.

## Model

| member | source | states |
|---|---|---|
| Text.DecimalString | app.py:35 | `f"{n}"` yields a non-empty string of decimal digits with no leading zero |
| Text.ParseDecimalString | app.py:35 | reading a formatted number back gives the number, so the address's last octet is the drawn integer |
| Text.DecimalStringLength | app.py:35 | a number in [10^(k-1), 10^k) has exactly k digits: three for an octet in [100, 250], four for a suffix in [1000, 9999] |
| Text.Prefix | app.py:148 | `s[:n]` has length min(n, len) and is the start of `s` |
| Text.Suffix | app.py:255-256 | `s[-n:]` has length min(n, len) and `s` is what precedes it followed by it |
| Inventory.InventoryUsernamesUnique | app.py:10-17 | no two users of the lab inventory share a username |
| Inventory.Privileged | app.py:124 | the privileged pool is no larger than the inventory |
| Inventory.PrivilegedMembers | app.py:124 | a user is in the pool exactly when it is in the inventory and privileged |
| Inventory.ServiceAccountsAre | app.py:10-17 | the lab's privileged pool is exactly admin.service then alice.williams, so it is never empty |
| Inventory.GetEnvironment | app.py:66-75 | the summary reports the domain, 6 users, both controllers, status "healthy" and 2 privileged accounts, no more than the users |
| Mitigation.GetMitigation | app.py:52-60 | the advice is never empty; a catalog key gets its own entry and never the fallback; any other string gets the fallback |
| Mitigation.CatalogEntries | app.py:54-59 | the exact advice text for each of the four technique keys |
| Records.MakeAttackLog | app.py:28-36 | the log carries the given type, status, details and timestamp; its source address is "192.168.1." followed by the drawn octet, three digits in [100, 250] |
| Records.MakeDetectionEvent | app.py:40-48 | the event carries the given type, severity, message and timestamp; its recommended action is the catalog's advice for its own type and is non-empty |
| Records.WellFormedLogsAppend | app.py:37 | appending well-formed logs to well-formed logs keeps every source address well formed |
| Records.WellFormedEventsAppend | app.py:49 | appending keeps every event's recommended action equal to the advice for its type |
| Simulations.Select | app.py:80 | a sample taken by positions has one element per position, the pool's element at that position; every element comes from the pool; distinct positions of a pool without repeats give a sample without repeats, as `random.sample` draws without replacement |
| Simulations.PoolMemberIsPrivileged | app.py:124-125 | any position of the privileged pool names a privileged inventory user |
| Simulations.TargetSystemsDistinct | app.py:174-179 | the four lateral-movement systems are pairwise distinct |
| Simulations.SprayAttempts | app.py:86-96 | the `results` list has one attempt per target, in target order, with the target's username, the drawn password and success exactly when the roll is under 0.1 |
| Simulations.SprayLogs | app.py:98-103 | a spray appends as many logs as there are successful attempts, all "Password Spray" with status "Success" and a well-formed address |
| Simulations.SprayLogsFromSuccesses | app.py:98-103 | every spray log names, in its details, a target whose attempt succeeded |
| Simulations.SuccessesAreLogged | app.py:98-103 | conversely, every target whose attempt succeeded is named by some spray log |
| Simulations.SprayLogsInOrder | app.py:86-103 | there are as many logs as successful targets, and the j-th log names the j-th successful target in attempt order |
| Simulations.SuccessCountPositive | app.py:84-104 | the number of successes is positive exactly when some attempt succeeded, which is when `detected` ends true |
| Simulations.SuccessCountAll | app.py:98-103 | when every attempt succeeds, there is one log per attempt |
| Simulations.SuccessCountNone | app.py:98-103 | when no attempt succeeds, no log is appended |
| Simulations.SprayEffect | app.py:77-111 | a spray appends one "Password Spray" log per success and exactly one HIGH "password_spray" event |
| Simulations.SprayOutcome | app.py:80-118 | three attempts on pairwise distinct users drawn from the inventory; `detected` exactly when some attempt succeeded; `total_attempts` is 3; `detection_triggered` holds; every log is a "Success" and well formed; the event carries the catalog's advice |
| Simulations.KerberoastEffect | app.py:121-162 | two "Kerberoasting" logs when the roll is under 0.3 and one otherwise, and exactly one MEDIUM "kerberoasting" event |
| Simulations.KerberoastOutcome | app.py:124-160 | the target is privileged; the ticket is the prefix, the whole digest and "..."; crack time and password are present exactly when cracked, the time in [30, 300], the password "ServicePass123!"; an "In Progress" log first, a "Success" log second when cracked |
| Simulations.PassTheHashEffect | app.py:164-193 | exactly one "Pass-the-Hash" log and one CRITICAL "pass_the_hash" event |
| Simulations.PassTheHashOutcome | app.py:167-201 | the account is privileged; 2 to 4 pairwise distinct systems, all from the catalog, with their count reported; the hash display is the digest's 16 first characters, "..." and the 16 last; lateral movement and detection are reported; the log is a "Success" |
| Simulations.GoldenTicketEffect | app.py:204-226 | exactly one "Golden Ticket" log and one CRITICAL "golden_ticket" event |
| Simulations.GoldenTicketOutcome | app.py:208-248 | lifetime 87600 hours; 6 accessible resources; the fake account is "fake_admin_" and four digits reading as the drawn suffix in [1000, 9999]; every flag true; severity CRITICAL; the hash display is the digest's first 32 characters, "..." and its last 16; the log has status "Critical" and names the first 32 characters |
| Aggregator.BumpProperties | app.py:268 | one increment adds one to the total and to that key's count, leaves every other count alone, and keeps the entries a dictionary with positive counts |
| Aggregator.TallyProperties | app.py:265-268 | the tally is a dictionary with positive counts; each type's count is the number of logs of that type; the counts sum to the number of logs |
| Aggregator.CountAllOfType | app.py:265-268 | when every log has one type, its count is the number of logs |
| Aggregator.Criticals | app.py:275 | the CRITICAL events are exactly the events of severity CRITICAL, and there are no more of them than events |
| Aggregator.CriticalsAppend | app.py:275 | the CRITICAL events of two logs appended are those of the first followed by those of the second |
| Aggregator.DetectionRate | app.py:273 | the rate is 0 with no attack log, and otherwise the exact ratio with rate × total = detected × 100; it is never negative |
| Aggregator.StatsOf | app.py:259-276 | total and detected are the two log lengths; the tally's values sum to the total and count each type; critical ≤ detected; the rate is the detection rate of the two counts |
| Store.RecentAfterAppend | app.py:255-256 | after an append the window ends with the new entry, and it drops its oldest entry once it holds 20 |
| Store.EventStore.constructor | app.py:25-26 | a new store has both logs empty |
| Store.EventStore.GenerateAttackLog | app.py:28-38 | exactly one log is appended at the end and returned; earlier entries and the event log are unchanged |
| Store.EventStore.GenerateDetectionEvent | app.py:40-50 | exactly one event is appended at the end and returned; earlier entries and the attack log are unchanged |
| Store.EventStore.SprayTry | app.py:87-104 | one pass of the loop returns the target's attempt and appends its log exactly when it succeeds |
| Store.EventStore.SimulatePasswordSpray | app.py:77-119 | the loop returns and appends exactly what `SprayEffect` gives, after the existing entries |
| Store.EventStore.SimulateKerberoasting | app.py:121-162 | returns and appends exactly what `KerberoastEffect` gives, after the existing entries |
| Store.EventStore.SimulatePassTheHash | app.py:164-202 | returns and appends exactly what `PassTheHashEffect` gives, after the existing entries |
| Store.EventStore.SimulateGoldenTicket | app.py:204-249 | returns and appends exactly what `GoldenTicketEffect` gives, after the existing entries |
| Store.EventStore.GetLogs | app.py:251-257 | each log's window holds its last min(20, len) entries in insertion order |
| Store.EventStore.GetStats | app.py:259-276 | the one-pass tally loop yields `StatsOf` the two logs: counts equal to their lengths, tally summing to the total, critical ≤ detected |
| Store.EventStore.ClearLogs | app.py:278-284 | both logs become empty, and the statistics then report zero counts, rate 0, an empty tally and no CRITICAL event |
| Scenarios.RateAboveHundred | app.py:98-111 | an uncracked Kerberoasting run then a spray with no success leave 1 attack log and 2 events, a rate of 200 |
| Scenarios.ForcedSpraySuccess | app.py:86-111 | a spray with every attempt succeeding leaves 3 "Password Spray" logs, tallied as 3, 1 event and no CRITICAL event |
| Scenarios.AllFourSimulations | app.py:77-249 | the four simulations once each append the number of successes plus 1 or 2 plus 2 logs, and 4 events of which 2 are CRITICAL |
| Scenarios.SingleCritical | app.py:275 | a log of one event has one CRITICAL event or none, by its severity |
| Scenarios.ClearAfterRun | app.py:204-284 | after a golden ticket the statistics show 1 attack, 1 CRITICAL event and rate 100; after a reset everything is zero |

## Left out

- Flask routing, `jsonify`, `render_template`, `index` and `app.run` are transport and UI. Each simulation's result is a datatype with the JSON object's fields. `clear_logs`'s fixed success message is not modelled.
- The random generator is not modelled: each draw is an input whose range the validity predicates state.
- Timestamps (`datetime.now().strftime`) are opaque input strings.
- `hashlib.md5` and `hashlib.sha256` are foreign calls. Their hex digests are inputs of the right length and alphabet. The digest of the fixed krbtgt seed is therefore not pinned to its one value.
- Severity is a four-valued datatype rather than the strings "HIGH", "MEDIUM" and "CRITICAL"; the CRITICAL count compares against the datatype value.
- Aggregator.DetectionRate: the rate is an exact ratio. `round(..., 2)` and floating-point division are left out.
- Concurrency: the service has no locking, and the model is sequential.
- The configuration-error result for an empty privileged pool does not exist in the code. The model makes a non-empty pool a precondition.
- Domain-controller health is fixed data and is reported as given.
- The message texts of events and logs are modelled, but no contract states their wording beyond the golden-ticket log's details and each spray log's username.
