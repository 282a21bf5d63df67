/** The four attack simulations, each specified as the records it appends to
    the event store and the result it returns. Every random draw, clock
    reading and hash digest a simulation uses is an input, collected in one
    `...Draws` value per simulation whose validity predicate states the range
    the source draws from. The simulations are stated over an inventory of
    users; the service runs them over `DomainUsers`. */
module Simulations {
  import opened Text
  import opened Inventory
  import opened Records

  datatype Option<T> = None | Some(value: T)

  /** What one simulation run appends to each log, and what it returns. */
  datatype Effect<R> = Effect(result: R, logs: seq<AttackLog>, events: seq<DetectionEvent>)

  /** `random.sample(pool, size)` as positions: `size` distinct positions of the pool. */
  predicate ValidSample(picks: seq<nat>, size: int, poolSize: nat)
  {
    && |picks| == size
    && (forall i :: 0 <= i < |picks| ==> picks[i] < poolSize)
    && (forall i, j :: 0 <= i < j < |picks| ==> picks[i] != picks[j])
  }

  /** The elements of the pool at the given positions, in draw order. */
  function Select<T>(pool: seq<T>, picks: seq<nat>): (r: seq<T>)
    requires forall i :: 0 <= i < |picks| ==> picks[i] < |pool|
    ensures |r| == |picks|
    ensures forall i :: 0 <= i < |picks| ==> r[i] == pool[picks[i]]
    ensures forall x :: x in r ==> x in pool
    ensures (forall i, j :: 0 <= i < j < |picks| ==> picks[i] != picks[j]) &&
            (forall i, j :: 0 <= i < j < |pool| ==> pool[i] != pool[j]) ==>
            forall i, j :: 0 <= i < j < |r| ==> r[i] != r[j]
  {
    seq(|picks|, i requires 0 <= i < |picks| => pool[picks[i]])
  }

  /** A `hexdigest()` of the given length, as md5 (32) and sha256 (64) produce. */
  predicate IsHexDigest(s: string, n: nat)
  {
    |s| == n && forall i :: 0 <= i < |s| ==> IsHexChar(s[i])
  }

  predicate IsHexChar(c: char) { '0' <= c <= '9' || 'a' <= c <= 'f' }

  predicate IsPrivilegedUsername(users: seq<User>, name: string)
  {
    exists u :: u in users && u.privileged && u.username == name
  }

  /** Every position of the privileged pool names a privileged inventory user. */
  lemma PoolMemberIsPrivileged(users: seq<User>, pick: nat)
    requires pick < |Privileged(users)|
    ensures IsPrivilegedUsername(users, Privileged(users)[pick].username)
  {
    var u := Privileged(users)[pick];
    PrivilegedMembers(users);
    assert u in Privileged(users);
  }

  predicate AllLogsAre(logs: seq<AttackLog>, attackType: string)
  {
    forall i :: 0 <= i < |logs| ==> logs[i].attackType == attackType
  }

  // ---------------------------------------------------------------- password spray

  const SprayTargetCount: nat := 3
  const SprayDetectionThreshold: nat := 3
  const SpraySuccessRate: real := 0.1
  const CommonPasswords: seq<string> := ["Password123!", "Summer2024!", "Welcome1!", "Company123!"]

  /** The draws of one attempt: `random.choice(common_passwords)`,
      `random.random()`, the attempt's clock reading and the draws of the
      log it appends on success. */
  datatype SprayDraw = SprayDraw(passwordIndex: nat, roll: real, clock: string, log: LogDraw)

  predicate ValidSprayDraw(t: SprayDraw)
  {
    t.passwordIndex < |CommonPasswords| && 0.0 <= t.roll < 1.0 && ValidLogDraw(t.log)
  }

  predicate Succeeds(t: SprayDraw) { t.roll < SpraySuccessRate }

  datatype SprayDraws = SprayDraws(picks: seq<nat>, tries: seq<SprayDraw>, eventTime: string)

  predicate ValidSprayDraws(users: seq<User>, d: SprayDraws)
  {
    && ValidSample(d.picks, SprayTargetCount, |users|)
    && |d.tries| == SprayTargetCount
    && forall i :: 0 <= i < |d.tries| ==> ValidSprayDraw(d.tries[i])
  }

  datatype Attempt = Attempt(username: string, passwordTried: string, success: bool, timestamp: string)

  datatype SprayResult = SprayResult(
    success: bool,
    results: seq<Attempt>,
    detected: bool,
    totalAttempts: nat,
    detectionTriggered: bool)

  function SprayLogDetails(username: string): string
  {
    "Successfully authenticated as " + username + " using password spray"
  }

  function SprayEventMessage(targets: nat): string
  {
    "Detected password spray attack targeting " + DecimalString(targets) + " accounts from same source IP"
  }

  function SprayAttempt(u: User, t: SprayDraw): Attempt
    requires ValidSprayDraw(t)
  {
    Attempt(u.username, CommonPasswords[t.passwordIndex], Succeeds(t), t.clock)
  }

  function SprayLog(u: User, t: SprayDraw): AttackLog
    requires ValidSprayDraw(t)
  {
    MakeAttackLog("Password Spray", "Success", SprayLogDetails(u.username), t.log)
  }

  function SuccessCount(tries: seq<SprayDraw>): nat
  {
    if tries == [] then 0
    else SuccessCount(tries[..|tries| - 1]) + (if Succeeds(tries[|tries| - 1]) then 1 else 0)
  }

  /** The `results` list after the given targets have been tried. */
  function SprayAttempts(users: seq<User>, tries: seq<SprayDraw>): (r: seq<Attempt>)
    requires |users| == |tries|
    requires forall i :: 0 <= i < |tries| ==> ValidSprayDraw(tries[i])
    ensures |r| == |users|
    ensures forall i :: 0 <= i < |users| ==> r[i] == SprayAttempt(users[i], tries[i])
    decreases |users|
  {
    if users == [] then []
    else
      var n := |users| - 1;
      SprayAttempts(users[..n], tries[..n]) + [SprayAttempt(users[n], tries[n])]
  }

  /** The attack logs appended after the given targets have been tried:
      one per successful attempt, in attempt order. */
  function SprayLogs(users: seq<User>, tries: seq<SprayDraw>): (r: seq<AttackLog>)
    requires |users| == |tries|
    requires forall i :: 0 <= i < |tries| ==> ValidSprayDraw(tries[i])
    ensures |r| == SuccessCount(tries)
    ensures AllLogsAre(r, "Password Spray")
    ensures forall j :: 0 <= j < |r| ==> r[j].status == "Success"
    ensures WellFormedLogs(r)
    decreases |users|
  {
    if users == [] then []
    else
      var n := |users| - 1;
      var t := tries[n];
      assert tries[..n] == tries[..|tries| - 1];
      var prev := SprayLogs(users[..n], tries[..n]);
      var r := prev + (if Succeeds(t) then [SprayLog(users[n], t)] else []);
      assert WellFormedLogs(r) by {
        WellFormedLogsAppend(prev, if Succeeds(t) then [SprayLog(users[n], t)] else []);
      }
      r
  }

  /** Every log of a password spray names a user whose attempt succeeded. */
  lemma {:induction false} SprayLogsFromSuccesses(users: seq<User>, tries: seq<SprayDraw>, j: nat)
    requires |users| == |tries|
    requires forall i :: 0 <= i < |tries| ==> ValidSprayDraw(tries[i])
    requires j < |SprayLogs(users, tries)|
    ensures exists i ::
              0 <= i < |users| && Succeeds(tries[i]) &&
              SprayLogs(users, tries)[j].details == SprayLogDetails(users[i].username)
    decreases |users|
  {
    var n := |users| - 1;
    var prev := SprayLogs(users[..n], tries[..n]);
    if j < |prev| {
      SprayLogsFromSuccesses(users[..n], tries[..n], j);
      var i :| 0 <= i < n && Succeeds(tries[..n][i]) && prev[j].details == SprayLogDetails(users[..n][i].username);
      assert tries[..n][i] == tries[i] && users[..n][i] == users[i];
    } else {
      assert Succeeds(tries[n]);
    }
  }

  /** Every successful attempt is named by one of the spray's logs. */
  lemma {:induction false} SuccessesAreLogged(users: seq<User>, tries: seq<SprayDraw>, i: nat)
    requires |users| == |tries|
    requires forall k :: 0 <= k < |tries| ==> ValidSprayDraw(tries[k])
    requires i < |users| && Succeeds(tries[i])
    ensures exists j :: 0 <= j < |SprayLogs(users, tries)| &&
              SprayLogs(users, tries)[j].details == SprayLogDetails(users[i].username)
    decreases |users|
  {
    var n := |users| - 1;
    var prev := SprayLogs(users[..n], tries[..n]);
    assert SprayLogs(users, tries) == prev + (if Succeeds(tries[n]) then [SprayLog(users[n], tries[n])] else []);
    if i < n {
      assert users[..n][i] == users[i] && tries[..n][i] == tries[i];
      SuccessesAreLogged(users[..n], tries[..n], i);
      var j :| 0 <= j < |prev| && prev[j].details == SprayLogDetails(users[i].username);
      assert SprayLogs(users, tries)[j] == prev[j];
    } else {
      assert SprayLogs(users, tries)[|prev|] == SprayLog(users[n], tries[n]);
    }
  }

  /** The targets whose attempt succeeded, in attempt order. */
  function SuccessfulTargets(users: seq<User>, tries: seq<SprayDraw>): seq<User>
    requires |users| == |tries|
    decreases |users|
  {
    if users == [] then []
    else
      var n := |users| - 1;
      SuccessfulTargets(users[..n], tries[..n]) + (if Succeeds(tries[n]) then [users[n]] else [])
  }

  /** The j-th log of a spray names the j-th successful target: the logs
      follow the attempt order. */
  lemma {:induction false} SprayLogsInOrder(users: seq<User>, tries: seq<SprayDraw>)
    requires |users| == |tries|
    requires forall k :: 0 <= k < |tries| ==> ValidSprayDraw(tries[k])
    ensures |SprayLogs(users, tries)| == |SuccessfulTargets(users, tries)|
    ensures forall j :: 0 <= j < |SprayLogs(users, tries)| ==>
              SprayLogs(users, tries)[j].details == SprayLogDetails(SuccessfulTargets(users, tries)[j].username)
    decreases |users|
  {
    if users != [] {
      var n := |users| - 1;
      SprayLogsInOrder(users[..n], tries[..n]);
      var prev := SprayLogs(users[..n], tries[..n]);
      var done := SuccessfulTargets(users[..n], tries[..n]);
      assert SprayLogs(users, tries) == prev + (if Succeeds(tries[n]) then [SprayLog(users[n], tries[n])] else []);
      assert SuccessfulTargets(users, tries) == done + (if Succeeds(tries[n]) then [users[n]] else []);
    }
  }

  /** The loop's `detected` flag is set exactly when some attempt succeeded. */
  lemma {:induction false} SuccessCountPositive(tries: seq<SprayDraw>)
    ensures SuccessCount(tries) > 0 <==> exists i :: 0 <= i < |tries| && Succeeds(tries[i])
    decreases |tries|
  {
    if tries != [] {
      var n := |tries| - 1;
      SuccessCountPositive(tries[..n]);
      if exists i :: 0 <= i < |tries| && Succeeds(tries[i]) {
        var i :| 0 <= i < |tries| && Succeeds(tries[i]);
        if i < n { assert Succeeds(tries[..n][i]); }
      }
      if exists i :: 0 <= i < n && Succeeds(tries[..n][i]) {
        var i :| 0 <= i < n && Succeeds(tries[..n][i]);
        assert Succeeds(tries[i]);
      }
    }
  }

  /** `simulate_password_spray`: a "Password Spray" log per successful
      attempt and exactly one HIGH detection event, since three attempts
      always reach the threshold. */
  function SprayEffect(users: seq<User>, d: SprayDraws): (e: Effect<SprayResult>)
    requires UniqueUsernames(users) && ValidSprayDraws(users, d)
    ensures |e.logs| == SuccessCount(d.tries) && AllLogsAre(e.logs, "Password Spray")
    ensures |e.events| == 1 && e.events[0].attackType == "password_spray" && e.events[0].severity == High
  {
    var targets := Select(users, d.picks);
    var results := SprayAttempts(targets, d.tries);
    var detected := SuccessCount(d.tries) > 0;
    var n := |results|;
    var triggered := detected || n >= SprayDetectionThreshold;
    Effect(
      SprayResult(true, results, detected, n, triggered),
      SprayLogs(targets, d.tries),
      if triggered then [MakeDetectionEvent("password_spray", High, SprayEventMessage(n), d.eventTime)] else [])
  }

  /** The password spray's effect spelled out: the set of attempts, the logs
      of the successful ones, the detection flag and the one HIGH event. */
  lemma SprayEffectUnfold(users: seq<User>, d: SprayDraws)
    requires UniqueUsernames(users) && ValidSprayDraws(users, d)
    ensures var targets := Select(users, d.picks);
            SprayEffect(users, d) == Effect(
              SprayResult(true, SprayAttempts(targets, d.tries), SuccessCount(d.tries) > 0, 3, true),
              SprayLogs(targets, d.tries),
              [MakeDetectionEvent("password_spray", High, SprayEventMessage(3), d.eventTime)])
  {
  }

  /** What a password spray returns and records: three attempts on distinct
      users of the inventory, each succeeding exactly when its roll is under
      the success rate; `detected` exactly when one of them succeeded; every
      log a "Success" with a well-formed address, the event carrying the
      catalog's advice. */
  lemma SprayOutcome(users: seq<User>, d: SprayDraws, e: Effect<SprayResult>)
    requires UniqueUsernames(users) && ValidSprayDraws(users, d) && e == SprayEffect(users, d)
    ensures e.result.success && e.result.totalAttempts == |e.result.results| == 3
    ensures forall i, j :: 0 <= i < j < 3 ==> e.result.results[i].username != e.result.results[j].username
    ensures forall i :: 0 <= i < 3 ==> e.result.results[i].username == users[d.picks[i]].username
    ensures forall i :: 0 <= i < 3 ==> e.result.results[i].success == Succeeds(d.tries[i])
    ensures e.result.detected <==> exists i :: 0 <= i < 3 && Succeeds(d.tries[i])
    ensures e.result.detectionTriggered
    ensures forall j :: 0 <= j < |e.logs| ==> e.logs[j].status == "Success"
    ensures WellFormedLogs(e.logs) && WellFormedEvents(e.events)
  {
    SuccessCountPositive(d.tries);
  }

  /** When every attempt succeeds, the run appends one log per attempt. */
  lemma {:induction false} SuccessCountAll(tries: seq<SprayDraw>)
    requires forall i :: 0 <= i < |tries| ==> Succeeds(tries[i])
    ensures SuccessCount(tries) == |tries|
    decreases |tries|
  {
    if tries != [] {
      SuccessCountAll(tries[..|tries| - 1]);
    }
  }

  /** When no attempt succeeds, the run appends no log. */
  lemma {:induction false} SuccessCountNone(tries: seq<SprayDraw>)
    requires forall i :: 0 <= i < |tries| ==> !Succeeds(tries[i])
    ensures SuccessCount(tries) == 0
    decreases |tries|
  {
    if tries != [] {
      SuccessCountNone(tries[..|tries| - 1]);
    }
  }

  // ---------------------------------------------------------------- Kerberoasting

  const CrackSuccessRate: real := 0.3
  const CrackedPassword: string := "ServicePass123!"
  const KerberosTicketPrefix: string := "$krb5tgs$23$"

  /** `random.choice(service_accounts)` as a position, the md5 hex digest of
      the ticket, `random.randint(30, 300)`, `random.random()`, and the
      clock and address draws of the records. */
  datatype KerberoastDraws = KerberoastDraws(
    pick: nat,
    ticketDigest: string,
    crackTime: int,
    roll: real,
    requestLog: LogDraw,
    eventTime: string,
    crackLog: LogDraw)

  predicate ValidKerberoastDraws(users: seq<User>, d: KerberoastDraws)
  {
    && d.pick < |Privileged(users)|
    && IsHexDigest(d.ticketDigest, 32)
    && 30 <= d.crackTime <= 300
    && 0.0 <= d.roll < 1.0
    && ValidLogDraw(d.requestLog)
    && ValidLogDraw(d.crackLog)
  }

  datatype KerberoastResult = KerberoastResult(
    targetAccount: string,
    ticketExtracted: bool,
    ticketHash: string,
    crackAttempted: bool,
    cracked: bool,
    crackTimeSeconds: Option<int>,
    password: Option<string>)

  function KerberoastRequestDetails(username: string): string { "Requested TGS ticket for " + username }

  function KerberoastEventMessage(username: string): string
  {
    "Unusual TGS-REP request pattern detected for service account " + username
  }

  function KerberoastCrackDetails(username: string): string { "Successfully cracked password for " + username }

  /** `simulate_kerberoasting`: one privileged target; an "In Progress" log
      and a MEDIUM event always, a "Success" log only when cracked; the
      crack time and password are reported exactly when cracked. */
  function KerberoastEffect(users: seq<User>, d: KerberoastDraws): (e: Effect<KerberoastResult>)
    requires ValidKerberoastDraws(users, d)
    ensures |e.logs| == (if d.roll < CrackSuccessRate then 2 else 1) && AllLogsAre(e.logs, "Kerberoasting")
    ensures |e.events| == 1 && e.events[0].attackType == "kerberoasting" && e.events[0].severity == Medium
  {
    var target := Privileged(users)[d.pick];
    var cracked := d.roll < CrackSuccessRate;
    var request := MakeAttackLog("Kerberoasting", "In Progress", KerberoastRequestDetails(target.username), d.requestLog);
    var crack := MakeAttackLog("Kerberoasting", "Success", KerberoastCrackDetails(target.username), d.crackLog);
    var event := MakeDetectionEvent("kerberoasting", Medium, KerberoastEventMessage(target.username), d.eventTime);
    Effect(
      KerberoastResult(
        target.username, true, KerberosTicketPrefix + Prefix(d.ticketDigest, 32) + "...", true, cracked,
        if cracked then Some(d.crackTime) else None,
        if cracked then Some(CrackedPassword) else None),
      [request] + (if cracked then [crack] else []),
      [event])
  }

  /** What a Kerberoasting run returns and records: a privileged target, the
      whole ticket digest behind the ticket prefix, crack time and password
      reported exactly when cracked, the "In Progress" log first and the
      "Success" log after it, all with well-formed addresses. */
  lemma KerberoastOutcome(users: seq<User>, d: KerberoastDraws, e: Effect<KerberoastResult>)
    requires ValidKerberoastDraws(users, d) && e == KerberoastEffect(users, d)
    ensures IsPrivilegedUsername(users, e.result.targetAccount)
    ensures e.result.ticketExtracted && e.result.crackAttempted
    ensures e.result.ticketHash == KerberosTicketPrefix + d.ticketDigest + "..."
    ensures e.result.cracked <==> d.roll < CrackSuccessRate
    ensures e.result.crackTimeSeconds.Some? <==> e.result.cracked
    ensures e.result.password.Some? <==> e.result.cracked
    ensures e.result.crackTimeSeconds.Some? ==> 30 <= e.result.crackTimeSeconds.value <= 300
    ensures e.result.password.Some? ==> e.result.password.value == CrackedPassword
    ensures |e.logs| == (if e.result.cracked then 2 else 1)
    ensures e.logs[0].status == "In Progress"
    ensures e.result.cracked ==> e.logs[1].status == "Success"
    ensures WellFormedLogs(e.logs) && WellFormedEvents(e.events)
  {
    PoolMemberIsPrivileged(users, d.pick);
    PrefixOfShort(d.ticketDigest, 32);
    WellFormedLogsAppend([e.logs[0]], e.logs[1..]);
    assert e.logs == [e.logs[0]] + e.logs[1..];
  }

  // ---------------------------------------------------------------- pass-the-hash

  const TargetSystems: seq<string> := ["FILE-SERVER-01", "APP-SERVER-02", "DATABASE-01", "WEB-SERVER-03"]

  /** No system is listed twice: their first letters already differ. */
  lemma TargetSystemsDistinct()
    ensures forall i, j :: 0 <= i < j < |TargetSystems| ==> TargetSystems[i] != TargetSystems[j]
  {
    assert TargetSystems[0][0] == 'F' && TargetSystems[1][0] == 'A';
    assert TargetSystems[2][0] == 'D' && TargetSystems[3][0] == 'W';
  }

  /** `random.choice(admin_accounts)` as a position, the md5 hex digest of
      the NTLM hash, `random.randint(2, 4)`, `random.sample(target_systems, k)`
      as positions, and the record draws. */
  datatype PassTheHashDraws = PassTheHashDraws(
    pick: nat,
    ntlmDigest: string,
    systemCount: int,
    systemPicks: seq<nat>,
    log: LogDraw,
    eventTime: string)

  predicate ValidPassTheHashDraws(users: seq<User>, d: PassTheHashDraws)
  {
    && d.pick < |Privileged(users)|
    && IsHexDigest(d.ntlmDigest, 32)
    && 2 <= d.systemCount <= 4
    && ValidSample(d.systemPicks, d.systemCount, |TargetSystems|)
    && ValidLogDraw(d.log)
  }

  datatype PassTheHashResult = PassTheHashResult(
    accountCompromised: string,
    ntlmHash: string,
    lateralMovement: bool,
    compromisedSystems: seq<string>,
    totalSystemsAccessed: nat,
    detectionTriggered: bool)

  function NtlmLogDetails(username: string): string { "Extracted NTLM hash for " + username }

  function NtlmEventMessage(username: string): string
  {
    "Detected NTLM authentication without Kerberos pre-authentication for " + username
  }

  /** `simulate_pass_the_hash`: one privileged target; 2 to 4 distinct
      systems of the catalog compromised; one "Success" log and one CRITICAL
      event. */
  function PassTheHashEffect(users: seq<User>, d: PassTheHashDraws): (e: Effect<PassTheHashResult>)
    requires ValidPassTheHashDraws(users, d)
    ensures |e.logs| == 1 && e.logs[0].attackType == "Pass-the-Hash"
    ensures |e.events| == 1 && e.events[0].attackType == "pass_the_hash" && e.events[0].severity == Critical
  {
    var target := Privileged(users)[d.pick];
    var systems := Select(TargetSystems, d.systemPicks);
    Effect(
      PassTheHashResult(
        target.username, Prefix(d.ntlmDigest, 16) + "..." + Suffix(d.ntlmDigest, 16), true, systems, |systems|, true),
      [MakeAttackLog("Pass-the-Hash", "Success", NtlmLogDetails(target.username), d.log)],
      [MakeDetectionEvent("pass_the_hash", Critical, NtlmEventMessage(target.username), d.eventTime)])
  }

  /** What a pass-the-hash run returns and records: a privileged account, 2
      to 4 distinct systems of the catalog, the digest around the
      ellipsis, a "Success" log with a well-formed address. */
  lemma PassTheHashOutcome(users: seq<User>, d: PassTheHashDraws, e: Effect<PassTheHashResult>)
    requires ValidPassTheHashDraws(users, d) && e == PassTheHashEffect(users, d)
    ensures IsPrivilegedUsername(users, e.result.accountCompromised)
    ensures 2 <= |e.result.compromisedSystems| <= 4
    ensures e.result.totalSystemsAccessed == |e.result.compromisedSystems|
    ensures forall i :: 0 <= i < |e.result.compromisedSystems| ==> e.result.compromisedSystems[i] in TargetSystems
    ensures forall i, j :: 0 <= i < j < |e.result.compromisedSystems| ==>
      e.result.compromisedSystems[i] != e.result.compromisedSystems[j]
    ensures e.result.lateralMovement && e.result.detectionTriggered
    ensures e.result.ntlmHash == d.ntlmDigest[..16] + "..." + d.ntlmDigest[16..]
    ensures e.logs[0].status == "Success"
    ensures WellFormedLogs(e.logs) && WellFormedEvents(e.events)
  {
    PoolMemberIsPrivileged(users, d.pick);
    SlicesOf(d.ntlmDigest, 16);
    TargetSystemsDistinct();
  }

  // ---------------------------------------------------------------- golden ticket

  const TicketLifetimeHours: nat := 10 * 365 * 24
  const FakeAdminPrefix: string := "fake_admin_"
  const GoldenTicketMessage: string := "Detected TGT with unusual lifetime and properties. Possible Golden Ticket attack!"
  const AccessibleResources: seq<string> := [
    "All Domain Controllers",
    "All File Servers",
    "All Database Servers",
    "All User Workstations",
    "Azure AD Connect Server",
    "Backup Systems"
  ]

  /** The sha256 hex digest of the fixed krbtgt seed, `random.randint(1000, 9999)`
      and the record draws. */
  datatype GoldenTicketDraws = GoldenTicketDraws(krbtgtDigest: string, suffix: int, log: LogDraw, eventTime: string)

  predicate ValidGoldenTicketDraws(d: GoldenTicketDraws)
  {
    IsHexDigest(d.krbtgtDigest, 64) && 1000 <= d.suffix <= 9999 && ValidLogDraw(d.log)
  }

  datatype GoldenTicketResult = GoldenTicketResult(
    krbtgtCompromised: bool,
    krbtgtHash: string,
    goldenTicketCreated: bool,
    fakeAccount: string,
    ticketLifetimeHours: nat,
    domainAdminAccess: bool,
    accessibleResources: seq<string>,
    persistenceAchieved: bool,
    detectionTriggered: bool,
    severity: Severity)

  function KrbtgtLogDetails(digest: string): string
  {
    "KRBTGT account hash extracted - " + Prefix(digest, 32) + "..."
  }

  /** `simulate_golden_ticket`: a ten-year ticket for a fabricated admin whose
      suffix is a four-digit number in [1000, 9999]; six accessible resources;
      one "Critical" log and one CRITICAL event. */
  function GoldenTicketEffect(d: GoldenTicketDraws): (e: Effect<GoldenTicketResult>)
    requires ValidGoldenTicketDraws(d)
    ensures |e.logs| == 1 && e.logs[0].attackType == "Golden Ticket"
    ensures |e.events| == 1 && e.events[0].attackType == "golden_ticket" && e.events[0].severity == Critical
  {
    var fakeAdmin := FakeAdminPrefix + DecimalString(d.suffix);
    Effect(
      GoldenTicketResult(
        true, Prefix(d.krbtgtDigest, 32) + "..." + Suffix(d.krbtgtDigest, 16), true, fakeAdmin,
        TicketLifetimeHours, true, AccessibleResources, true, true, Critical),
      [MakeAttackLog("Golden Ticket", "Critical", KrbtgtLogDetails(d.krbtgtDigest), d.log)],
      [MakeDetectionEvent("golden_ticket", Critical, GoldenTicketMessage, d.eventTime)])
  }

  /** What a golden-ticket run returns and records: a ten-year ticket, six
      resources, a fabricated admin named by the prefix and the four-digit
      suffix drawn, the sha256 digest with its third quarter hidden, and a
      "Critical" log naming the digest's first half. */
  lemma GoldenTicketOutcome(d: GoldenTicketDraws, e: Effect<GoldenTicketResult>)
    requires ValidGoldenTicketDraws(d) && e == GoldenTicketEffect(d)
    ensures e.result.ticketLifetimeHours == 87600
    ensures |e.result.accessibleResources| == 6
    ensures |e.result.fakeAccount| == 15 && e.result.fakeAccount[..11] == FakeAdminPrefix
    ensures AllDigits(e.result.fakeAccount[11..]) && 1000 <= ParseDecimal(e.result.fakeAccount[11..]) <= 9999
    ensures ParseDecimal(e.result.fakeAccount[11..]) == d.suffix
    ensures e.result.krbtgtCompromised && e.result.goldenTicketCreated
    ensures e.result.persistenceAchieved && e.result.domainAdminAccess && e.result.detectionTriggered
    ensures e.result.severity == Critical
    ensures e.result.krbtgtHash == d.krbtgtDigest[..32] + "..." + d.krbtgtDigest[48..]
    ensures e.logs[0].status == "Critical"
    ensures e.logs[0].details == "KRBTGT account hash extracted - " + d.krbtgtDigest[..32] + "..."
    ensures WellFormedLogs(e.logs) && WellFormedEvents(e.events)
  {
    ParseDecimalString(d.suffix);
    Pow10Values();
    DecimalStringLength(d.suffix, 4);
    assert e.result.fakeAccount[11..] == DecimalString(d.suffix);
  }
}
