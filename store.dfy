/** The service's event store: the two append-only logs every simulation
    writes to, their bounded-window read, the statistics read and the reset.
    In the service the two logs are module-level lists; here they are the
    fields of one `EventStore` object. */
module Store {
  import opened Text
  import opened Inventory
  import opened Records
  import opened Simulations
  import opened Aggregator

  /** How many of the newest entries of each log a read returns. */
  const LogWindow: nat := 20

  datatype LogsView = LogsView(attackLogs: seq<AttackLog>, detectionEvents: seq<DetectionEvent>)

  /** The newest entries a read returns: the last `LogWindow`, oldest first. */
  function Recent<T>(s: seq<T>): seq<T>
  {
    Suffix(s, LogWindow)
  }

  /** After an append the window holds the new entry last; the oldest entry
      drops out once the window is full. */
  lemma {:induction false} RecentAfterAppend<T>(s: seq<T>, x: T)
    ensures Recent(s + [x]) == (if |s| < LogWindow then Recent(s) else Recent(s)[1..]) + [x]
  {
    var t := s + [x];
    if |s| >= LogWindow {
      assert Recent(t) == t[|t| - LogWindow..];
      assert Recent(s) == s[|s| - LogWindow..];
      assert t[|t| - LogWindow..] == s[|s| - LogWindow..][1..] + [x];
    }
  }

  /** One more iteration of the password-spray loop extends each loop
      variable by the attempt's contribution. */
  lemma SprayStep(users: seq<User>, tries: seq<SprayDraw>, i: nat)
    requires |users| == |tries| && i < |users|
    requires forall k :: 0 <= k < |tries| ==> ValidSprayDraw(tries[k])
    ensures SprayAttempts(users[..i + 1], tries[..i + 1]) ==
      SprayAttempts(users[..i], tries[..i]) + [SprayAttempt(users[i], tries[i])]
    ensures SprayLogs(users[..i + 1], tries[..i + 1]) ==
      SprayLogs(users[..i], tries[..i]) + (if Succeeds(tries[i]) then [SprayLog(users[i], tries[i])] else [])
    ensures SuccessCount(tries[..i + 1]) == SuccessCount(tries[..i]) + (if Succeeds(tries[i]) then 1 else 0)
  {
    assert users[..i + 1][..i] == users[..i];
    assert tries[..i + 1][..i] == tries[..i];
  }

  class EventStore {
    /** The domain inventory the simulations draw their targets from. */
    const inventory: seq<User>
    var attackLogs: seq<AttackLog>
    var detectionEvents: seq<DetectionEvent>

    /** Every stored log has a well-formed source address and every stored
        event carries the catalog's advice for its technique. */
    ghost predicate Valid()
      reads this
    {
      UniqueUsernames(inventory) && WellFormedLogs(attackLogs) && WellFormedEvents(detectionEvents)
    }

    /** A store over the given inventory, with both logs empty; the service
        has one, over `DomainUsers` (see `InventoryUsernamesUnique`). */
    constructor (users: seq<User>)
      requires UniqueUsernames(users)
      ensures Valid() && inventory == users && attackLogs == [] && detectionEvents == []
    {
      inventory := users;
      attackLogs := [];
      detectionEvents := [];
    }

    /** `generate_attack_log`: one record at the end of the attack log. */
    method GenerateAttackLog(attackType: string, status: string, details: string, d: LogDraw) returns (log: AttackLog)
      requires Valid() && ValidLogDraw(d)
      modifies this
      ensures Valid()
      ensures log == MakeAttackLog(attackType, status, details, d)
      ensures attackLogs == old(attackLogs) + [log]
      ensures detectionEvents == old(detectionEvents)
    {
      log := MakeAttackLog(attackType, status, details, d);
      WellFormedLogsAppend(attackLogs, [log]);
      attackLogs := attackLogs + [log];
    }

    /** `generate_detection_event`: one record at the end of the detection log. */
    method GenerateDetectionEvent(attackType: string, severity: Severity, message: string, timestamp: string)
      returns (event: DetectionEvent)
      requires Valid()
      modifies this
      ensures Valid()
      ensures event == MakeDetectionEvent(attackType, severity, message, timestamp)
      ensures detectionEvents == old(detectionEvents) + [event]
      ensures attackLogs == old(attackLogs)
    {
      event := MakeDetectionEvent(attackType, severity, message, timestamp);
      WellFormedEventsAppend(detectionEvents, [event]);
      detectionEvents := detectionEvents + [event];
    }

    /** One pass of the password-spray loop: the attempt on one target, and
        its "Success" log when the roll is under the success rate. */
    method SprayTry(user: User, t: SprayDraw) returns (a: Attempt)
      requires Valid() && ValidSprayDraw(t)
      modifies this
      ensures Valid()
      ensures a == SprayAttempt(user, t)
      ensures attackLogs == old(attackLogs) + (if Succeeds(t) then [SprayLog(user, t)] else [])
      ensures detectionEvents == old(detectionEvents)
    {
      var password := CommonPasswords[t.passwordIndex];
      var success := t.roll < SpraySuccessRate;
      a := Attempt(user.username, password, success, t.clock);
      if success {
        var log := GenerateAttackLog("Password Spray", "Success", SprayLogDetails(user.username), t.log);
      }
    }

    /** `simulate_password_spray`. */
    method SimulatePasswordSpray(d: SprayDraws) returns (r: SprayResult)
      requires Valid() && ValidSprayDraws(inventory, d)
      modifies this
      ensures Valid()
      ensures r == SprayEffect(inventory, d).result
      ensures attackLogs == old(attackLogs) + SprayEffect(inventory, d).logs
      ensures detectionEvents == old(detectionEvents) + SprayEffect(inventory, d).events
    {
      var targetUsers := Select(inventory, d.picks);
      var results: seq<Attempt> := [];
      var detected := false;
      var i := 0;
      while i < |targetUsers|
        invariant 0 <= i <= |targetUsers|
        invariant Valid()
        invariant results == SprayAttempts(targetUsers[..i], d.tries[..i])
        invariant attackLogs == old(attackLogs) + SprayLogs(targetUsers[..i], d.tries[..i])
        invariant detected == (SuccessCount(d.tries[..i]) > 0)
        invariant detectionEvents == old(detectionEvents)
      {
        SprayStep(targetUsers, d.tries, i);
        ghost var done := SprayLogs(targetUsers[..i], d.tries[..i]);
        var attempt := SprayTry(targetUsers[i], d.tries[i]);
        AppendAssociative(old(attackLogs), done, if Succeeds(d.tries[i]) then [SprayLog(targetUsers[i], d.tries[i])] else []);
        results := results + [attempt];
        detected := detected || attempt.success;
        i := i + 1;
      }
      assert targetUsers[..i] == targetUsers;
      assert d.tries[..i] == d.tries;
      SprayEffectUnfold(inventory, d);
      var triggered := detected || |results| >= SprayDetectionThreshold;
      if triggered {
        var event := GenerateDetectionEvent("password_spray", High, SprayEventMessage(|results|), d.eventTime);
      }
      r := SprayResult(true, results, detected, |results|, triggered);
    }

    /** `simulate_kerberoasting`. */
    method SimulateKerberoasting(d: KerberoastDraws) returns (r: KerberoastResult)
      requires Valid() && ValidKerberoastDraws(inventory, d)
      modifies this
      ensures Valid()
      ensures r == KerberoastEffect(inventory, d).result
      ensures attackLogs == old(attackLogs) + KerberoastEffect(inventory, d).logs
      ensures detectionEvents == old(detectionEvents) + KerberoastEffect(inventory, d).events
    {
      var serviceAccounts := Privileged(inventory);
      var target := serviceAccounts[d.pick];
      var ticketHash := d.ticketDigest;
      var crackTime := d.crackTime;
      var cracked := d.roll < CrackSuccessRate;
      var request := GenerateAttackLog("Kerberoasting", "In Progress", KerberoastRequestDetails(target.username), d.requestLog);
      var event := GenerateDetectionEvent("kerberoasting", Medium, KerberoastEventMessage(target.username), d.eventTime);
      r := KerberoastResult(
        target.username, true, KerberosTicketPrefix + Prefix(ticketHash, 32) + "...", true, cracked,
        if cracked then Some(crackTime) else None,
        if cracked then Some(CrackedPassword) else None);
      if cracked {
        var crack := GenerateAttackLog("Kerberoasting", "Success", KerberoastCrackDetails(target.username), d.crackLog);
      }
    }

    /** `simulate_pass_the_hash`. */
    method SimulatePassTheHash(d: PassTheHashDraws) returns (r: PassTheHashResult)
      requires Valid() && ValidPassTheHashDraws(inventory, d)
      modifies this
      ensures Valid()
      ensures r == PassTheHashEffect(inventory, d).result
      ensures attackLogs == old(attackLogs) + PassTheHashEffect(inventory, d).logs
      ensures detectionEvents == old(detectionEvents) + PassTheHashEffect(inventory, d).events
    {
      var adminAccounts := Privileged(inventory);
      var target := adminAccounts[d.pick];
      var ntlmHash := d.ntlmDigest;
      var compromisedSystems := Select(TargetSystems, d.systemPicks);
      var log := GenerateAttackLog("Pass-the-Hash", "Success", NtlmLogDetails(target.username), d.log);
      var event := GenerateDetectionEvent("pass_the_hash", Critical, NtlmEventMessage(target.username), d.eventTime);
      r := PassTheHashResult(
        target.username, Prefix(ntlmHash, 16) + "..." + Suffix(ntlmHash, 16), true,
        compromisedSystems, |compromisedSystems|, true);
    }

    /** `simulate_golden_ticket`. */
    method SimulateGoldenTicket(d: GoldenTicketDraws) returns (r: GoldenTicketResult)
      requires Valid() && ValidGoldenTicketDraws(d)
      modifies this
      ensures Valid()
      ensures r == GoldenTicketEffect(d).result
      ensures attackLogs == old(attackLogs) + GoldenTicketEffect(d).logs
      ensures detectionEvents == old(detectionEvents) + GoldenTicketEffect(d).events
    {
      var krbtgtHash := d.krbtgtDigest;
      var fakeAdmin := FakeAdminPrefix + DecimalString(d.suffix);
      var ticketLifetime := 10 * 365 * 24;
      var log := GenerateAttackLog("Golden Ticket", "Critical", KrbtgtLogDetails(krbtgtHash), d.log);
      var event := GenerateDetectionEvent("golden_ticket", Critical, GoldenTicketMessage, d.eventTime);
      r := GoldenTicketResult(
        true, Prefix(krbtgtHash, 32) + "..." + Suffix(krbtgtHash, 16), true, fakeAdmin,
        ticketLifetime, true, AccessibleResources, true, true, Critical);
    }

    /** `get_logs`: the newest entries of each log, oldest first. */
    function GetLogs(): (v: LogsView)
      reads this
      ensures |v.attackLogs| == if |attackLogs| <= LogWindow then |attackLogs| else LogWindow
      ensures |v.detectionEvents| == if |detectionEvents| <= LogWindow then |detectionEvents| else LogWindow
      ensures attackLogs == attackLogs[..|attackLogs| - |v.attackLogs|] + v.attackLogs
      ensures detectionEvents == detectionEvents[..|detectionEvents| - |v.detectionEvents|] + v.detectionEvents
    {
      LogsView(Recent(attackLogs), Recent(detectionEvents))
    }

    /** `get_stats`: the counts, the tally of attack logs by type built by
        one pass over the attack log, the detection rate and the number of
        CRITICAL events. */
    method GetStats() returns (s: Stats)
      ensures s == StatsOf(attackLogs, detectionEvents)
      ensures s.totalAttacks == |attackLogs| && s.detectedAttacks == |detectionEvents|
      ensures Total(s.attackTypes) == s.totalAttacks && s.criticalEvents <= s.detectedAttacks
    {
      var totalAttacks := |attackLogs|;
      var detectedAttacks := |detectionEvents|;
      var attackTypes: seq<TypeCount> := [];
      var i := 0;
      while i < |attackLogs|
        invariant 0 <= i <= |attackLogs|
        invariant attackTypes == Tally(attackLogs[..i])
      {
        assert attackLogs[..i + 1][..i] == attackLogs[..i];
        attackTypes := Bump(attackTypes, attackLogs[i].attackType);
        i := i + 1;
      }
      assert attackLogs[..i] == attackLogs;
      var rate := if totalAttacks > 0 then (detectedAttacks as real) / (totalAttacks as real) * 100.0 else 0.0;
      var criticalEvents := |Criticals(detectionEvents)|;
      s := Stats(totalAttacks, detectedAttacks, rate, attackTypes, criticalEvents);
    }

    /** `clear_logs`: both logs start over empty. */
    method ClearLogs()
      requires Valid()
      modifies this
      ensures Valid() && attackLogs == [] && detectionEvents == []
      ensures StatsOf(attackLogs, detectionEvents) == Stats(0, 0, 0.0, [], 0)
    {
      attackLogs := [];
      detectionEvents := [];
    }
  }
}
