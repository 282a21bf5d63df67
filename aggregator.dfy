/** The statistics derived from the two logs on demand: counts, the tally of
    attack logs by type, the detection rate and the number of critical events. */
module Aggregator {
  import opened Records

  /** One entry of the `attack_types` dictionary. The dictionary is kept as
      a sequence of entries in insertion order, as a Python dict keeps it. */
  datatype TypeCount = TypeCount(attackType: string, count: nat)

  function KeySet(t: seq<TypeCount>): set<string>
  {
    if t == [] then {} else {t[0].attackType} + KeySet(t[1..])
  }

  /** No key occurs twice: the entries form a dictionary. */
  predicate DistinctKeys(t: seq<TypeCount>)
  {
    t == [] || (t[0].attackType !in KeySet(t[1..]) && DistinctKeys(t[1..]))
  }

  predicate PositiveCounts(t: seq<TypeCount>)
  {
    forall i :: 0 <= i < |t| ==> t[i].count >= 1
  }

  /** `attack_types.get(k, 0)`. */
  function Lookup(t: seq<TypeCount>, k: string): nat
  {
    if t == [] then 0 else if t[0].attackType == k then t[0].count else Lookup(t[1..], k)
  }

  /** The sum of the dictionary's values. */
  function Total(t: seq<TypeCount>): nat
  {
    if t == [] then 0 else t[0].count + Total(t[1..])
  }

  /** `attack_types[k] = attack_types.get(k, 0) + 1`: an existing entry is
      incremented in place, a new key is added at the end with count 1. */
  function Bump(t: seq<TypeCount>, k: string): seq<TypeCount>
  {
    if t == [] then [TypeCount(k, 1)]
    else if t[0].attackType == k then [TypeCount(k, t[0].count + 1)] + t[1..]
    else [t[0]] + Bump(t[1..], k)
  }

  lemma {:induction false} BumpKeys(t: seq<TypeCount>, k: string)
    ensures KeySet(Bump(t, k)) == KeySet(t) + {k}
  {
    if t != [] && t[0].attackType != k {
      BumpKeys(t[1..], k);
      assert Bump(t, k)[1..] == Bump(t[1..], k);
    }
  }

  /** Incrementing adds one to the sum and to the key's count, leaves every
      other count alone, and keeps the entries a dictionary with positive counts. */
  lemma {:induction false} BumpProperties(t: seq<TypeCount>, k: string)
    ensures Total(Bump(t, k)) == Total(t) + 1
    ensures forall j :: Lookup(Bump(t, k), j) == Lookup(t, j) + (if j == k then 1 else 0)
    ensures DistinctKeys(t) ==> DistinctKeys(Bump(t, k))
    ensures PositiveCounts(t) ==> PositiveCounts(Bump(t, k))
  {
    if t != [] {
      var b := Bump(t, k);
      if t[0].attackType == k {
        assert b[1..] == t[1..];
      } else {
        BumpProperties(t[1..], k);
        BumpKeys(t[1..], k);
        assert b[1..] == Bump(t[1..], k);
        assert PositiveCounts(t) ==> PositiveCounts(b) by {
          if PositiveCounts(t) {
            assert PositiveCounts(t[1..]) by {
              forall i | 0 <= i < |t[1..]| ensures t[1..][i].count >= 1 { assert t[1..][i] == t[i + 1]; }
            }
            forall i | 0 <= i < |b| ensures b[i].count >= 1 {
              if i > 0 { assert b[i] == b[1..][i - 1]; }
            }
          }
        }
      }
    }
  }

  /** The `attack_types` dictionary after the loop has seen the given logs. */
  function Tally(logs: seq<AttackLog>): seq<TypeCount>
  {
    if logs == [] then [] else Bump(Tally(logs[..|logs| - 1]), logs[|logs| - 1].attackType)
  }

  /** The number of logs of the given type. */
  function CountType(logs: seq<AttackLog>, k: string): nat
  {
    if logs == [] then 0
    else CountType(logs[..|logs| - 1], k) + (if logs[|logs| - 1].attackType == k then 1 else 0)
  }

  /** When every log has the same type, that type's count is the number of logs. */
  lemma {:induction false} CountAllOfType(logs: seq<AttackLog>, k: string)
    requires forall i :: 0 <= i < |logs| ==> logs[i].attackType == k
    ensures CountType(logs, k) == |logs|
    decreases |logs|
  {
    if logs != [] {
      CountAllOfType(logs[..|logs| - 1], k);
    }
  }

  /** The tally is a dictionary whose counts are positive, whose count for
      every type is the number of logs of that type, and whose values sum to
      the number of logs. */
  lemma {:induction false} TallyProperties(logs: seq<AttackLog>)
    ensures Total(Tally(logs)) == |logs|
    ensures forall k :: Lookup(Tally(logs), k) == CountType(logs, k)
    ensures DistinctKeys(Tally(logs)) && PositiveCounts(Tally(logs))
    decreases |logs|
  {
    if logs != [] {
      TallyProperties(logs[..|logs| - 1]);
      BumpProperties(Tally(logs[..|logs| - 1]), logs[|logs| - 1].attackType);
    }
  }

  /** `[e for e in detection_events if e["severity"] == "CRITICAL"]`. */
  function Criticals(events: seq<DetectionEvent>): (r: seq<DetectionEvent>)
    ensures |r| <= |events|
    ensures forall e :: e in r <==> e in events && e.severity == Critical
  {
    if events == [] then []
    else (if events[0].severity == Critical then [events[0]] else []) + Criticals(events[1..])
  }

  /** Counting critical events distributes over appending logs. */
  lemma {:induction false} CriticalsAppend(a: seq<DetectionEvent>, b: seq<DetectionEvent>)
    ensures Criticals(a + b) == Criticals(a) + Criticals(b)
    decreases |a|
  {
    if a != [] {
      assert (a + b)[1..] == a[1..] + b;
      CriticalsAppend(a[1..], b);
    } else {
      assert a + b == b;
    }
  }

  /** The detection rate as an exact ratio, in percent; 0 when there is no attack log. */
  function DetectionRate(total: nat, detected: nat): (r: real)
    ensures r >= 0.0
    ensures total == 0 ==> r == 0.0
    ensures total > 0 ==> r * (total as real) == (detected as real) * 100.0
  {
    if total > 0 then (detected as real) / (total as real) * 100.0 else 0.0
  }

  datatype Stats = Stats(
    totalAttacks: nat,
    detectedAttacks: nat,
    detectionRate: real,
    attackTypes: seq<TypeCount>,
    criticalEvents: nat)

  /** What `get_stats` reports for the given logs. */
  function StatsOf(logs: seq<AttackLog>, events: seq<DetectionEvent>): (s: Stats)
    ensures s.totalAttacks == |logs| && s.detectedAttacks == |events|
    ensures Total(s.attackTypes) == s.totalAttacks
    ensures forall k :: Lookup(s.attackTypes, k) == CountType(logs, k)
    ensures DistinctKeys(s.attackTypes) && PositiveCounts(s.attackTypes)
    ensures s.criticalEvents <= s.detectedAttacks
    ensures s.detectionRate == DetectionRate(s.totalAttacks, s.detectedAttacks)
  {
    TallyProperties(logs);
    Stats(|logs|, |events|, DetectionRate(|logs|, |events|), Tally(logs), |Criticals(events)|)
  }
}
