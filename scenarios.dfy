/** Runs of the service from a fresh store, as a client of its operations
    sees them: what the statistics report after a known sequence of
    simulations and resets. They hold for any inventory with unique
    usernames, the lab's own among them. */
module Scenarios {
  import opened Inventory
  import opened Records
  import opened Simulations
  import opened Aggregator
  import opened Store

  /** Password spray always records a detection but records attack logs only
      for successful attempts, so the detection rate can exceed 100 percent:
      an uncracked Kerberoasting run followed by a password spray with no
      successful attempt leaves one attack log and two detection events. */
  method RateAboveHundred(users: seq<User>, k: KerberoastDraws, p: SprayDraws) returns (s: Stats)
    requires UniqueUsernames(users)
    requires ValidKerberoastDraws(users, k) && k.roll >= CrackSuccessRate
    requires ValidSprayDraws(users, p)
    requires forall i :: 0 <= i < |p.tries| ==> !Succeeds(p.tries[i])
    ensures s.totalAttacks == 1 && s.detectedAttacks == 2
    ensures s.detectionRate == 200.0
  {
    var store := new EventStore(users);
    var kr := store.SimulateKerberoasting(k);
    assert |store.attackLogs| == 1 && |store.detectionEvents| == 1;
    SuccessCountNone(p.tries);
    var sr := store.SimulatePasswordSpray(p);
    assert |store.attackLogs| == 1 && |store.detectionEvents| == 2;
    s := store.GetStats();
    assert s.totalAttacks == 1 && s.detectedAttacks == 2;
    assert s.detectionRate == DetectionRate(1, 2);
  }

  /** With every attempt forced to succeed, a password spray records three
      "Password Spray" attack logs and one detection event. */
  method ForcedSpraySuccess(users: seq<User>, p: SprayDraws) returns (s: Stats)
    requires UniqueUsernames(users) && ValidSprayDraws(users, p)
    requires forall i :: 0 <= i < |p.tries| ==> Succeeds(p.tries[i])
    ensures s.totalAttacks == 3 && s.detectedAttacks == 1 && s.criticalEvents == 0
    ensures Lookup(s.attackTypes, "Password Spray") == 3
  {
    var store := new EventStore(users);
    SuccessCountAll(p.tries);
    var sr := store.SimulatePasswordSpray(p);
    s := store.GetStats();
    assert store.attackLogs == SprayEffect(users, p).logs;
    CountAllOfType(store.attackLogs, "Password Spray");
  }

  /** Each of the four simulations, run once in sequence on an empty store,
      appends exactly its fixed number of records: nothing is lost or
      counted twice. The store then holds the concatenation of the four
      runs' records, as the simulations' contracts state, so these are the
      total, detected and critical counts `StatsOf` reports. */
  lemma AllFourSimulations(users: seq<User>, p: SprayDraws, k: KerberoastDraws, h: PassTheHashDraws, g: GoldenTicketDraws)
    requires UniqueUsernames(users)
    requires ValidSprayDraws(users, p) && ValidKerberoastDraws(users, k)
    requires ValidPassTheHashDraws(users, h) && ValidGoldenTicketDraws(g)
    ensures |SprayEffect(users, p).logs + KerberoastEffect(users, k).logs
              + PassTheHashEffect(users, h).logs + GoldenTicketEffect(g).logs|
            == SuccessCount(p.tries) + (if k.roll < CrackSuccessRate then 2 else 1) + 2
    ensures var events := SprayEffect(users, p).events + KerberoastEffect(users, k).events
              + PassTheHashEffect(users, h).events + GoldenTicketEffect(g).events;
            |events| == 4 && |Criticals(events)| == 2
  {
    var e1, e2, e3, e4 := SprayEffect(users, p).events, KerberoastEffect(users, k).events,
      PassTheHashEffect(users, h).events, GoldenTicketEffect(g).events;
    SingleCritical(e1);
    SingleCritical(e2);
    SingleCritical(e3);
    SingleCritical(e4);
    CriticalsAppend(e1, e2);
    CriticalsAppend(e1 + e2, e3);
    CriticalsAppend(e1 + e2 + e3, e4);
  }

  /** A log of one event has one critical event or none, by its severity. */
  lemma SingleCritical(e: seq<DetectionEvent>)
    requires |e| == 1
    ensures |Criticals(e)| == if e[0].severity == Critical then 1 else 0
  {
    assert e[1..] == [];
  }

  /** Clearing the logs after any run brings every count back to zero. */
  method ClearAfterRun(users: seq<User>, g: GoldenTicketDraws) returns (before: Stats, after: Stats)
    requires UniqueUsernames(users) && ValidGoldenTicketDraws(g)
    ensures before.totalAttacks == 1 && before.criticalEvents == 1 && before.detectionRate == 100.0
    ensures after.totalAttacks == 0 && after.detectedAttacks == 0 && after.detectionRate == 0.0
    ensures after.attackTypes == [] && after.criticalEvents == 0
  {
    var store := new EventStore(users);
    var gr := store.SimulateGoldenTicket(g);
    before := store.GetStats();
    store.ClearLogs();
    after := store.GetStats();
  }
}
