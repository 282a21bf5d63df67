/** The two kinds of record the event store keeps, and how one of each is built. */
module Records {
  import opened Text
  import opened Mitigation

  datatype Severity = Low | Medium | High | Critical

  datatype AttackLog = AttackLog(
    timestamp: string,
    attackType: string,
    status: string,
    details: string,
    sourceIp: string)

  datatype DetectionEvent = DetectionEvent(
    timestamp: string,
    attackType: string,
    severity: Severity,
    message: string,
    recommendedAction: string)

  /** What building an attack log takes from outside the model: the
      formatted wall-clock time and the result of `randint(100, 250)`. */
  datatype LogDraw = LogDraw(timestamp: string, octet: int)

  predicate ValidLogDraw(d: LogDraw) { 100 <= d.octet <= 250 }

  const SubnetPrefix: string := "192.168.1."

  /** An address of the lab subnet whose last octet is a three-digit number in [100, 250]. */
  predicate WellFormedSourceIp(ip: string)
  {
    && |ip| == 13
    && ip[..10] == SubnetPrefix
    && AllDigits(ip[10..])
    && 100 <= ParseDecimal(ip[10..]) <= 250
  }

  /** The record `generate_attack_log` appends. */
  function MakeAttackLog(attackType: string, status: string, details: string, d: LogDraw): (log: AttackLog)
    requires ValidLogDraw(d)
    ensures log.timestamp == d.timestamp && log.attackType == attackType
    ensures log.status == status && log.details == details
    ensures WellFormedSourceIp(log.sourceIp) && ParseDecimal(log.sourceIp[10..]) == d.octet
  {
    ParseDecimalString(d.octet);
    Pow10Values();
    DecimalStringLength(d.octet, 3);
    AttackLog(d.timestamp, attackType, status, details, SubnetPrefix + DecimalString(d.octet))
  }

  /** The record `generate_detection_event` appends: its recommended action
      is looked up in the catalog from its own attack type. */
  function MakeDetectionEvent(attackType: string, severity: Severity, message: string, timestamp: string): (e: DetectionEvent)
    ensures e.timestamp == timestamp && e.attackType == attackType
    ensures e.severity == severity && e.message == message
    ensures e.recommendedAction == GetMitigation(attackType) && e.recommendedAction != ""
  {
    DetectionEvent(timestamp, attackType, severity, message, GetMitigation(attackType))
  }

  /** What every record in the store satisfies: a well-formed source
      address and the catalog's advice for the event's technique. */
  predicate WellFormedLogs(logs: seq<AttackLog>)
  {
    forall i :: 0 <= i < |logs| ==> WellFormedSourceIp(logs[i].sourceIp)
  }

  predicate WellFormedEvents(events: seq<DetectionEvent>)
  {
    forall i :: 0 <= i < |events| ==> events[i].recommendedAction == GetMitigation(events[i].attackType)
  }

  lemma {:induction false} WellFormedLogsAppend(logs: seq<AttackLog>, more: seq<AttackLog>)
    requires WellFormedLogs(logs) && WellFormedLogs(more)
    ensures WellFormedLogs(logs + more)
  {
    forall i | 0 <= i < |logs + more|
      ensures WellFormedSourceIp((logs + more)[i].sourceIp)
    {
      if i < |logs| { assert (logs + more)[i] == logs[i]; }
      else { assert (logs + more)[i] == more[i - |logs|]; }
    }
  }

  lemma {:induction false} WellFormedEventsAppend(events: seq<DetectionEvent>, more: seq<DetectionEvent>)
    requires WellFormedEvents(events) && WellFormedEvents(more)
    ensures WellFormedEvents(events + more)
  {
    forall i | 0 <= i < |events + more|
      ensures (events + more)[i].recommendedAction == GetMitigation((events + more)[i].attackType)
    {
      if i < |events| { assert (events + more)[i] == events[i]; }
      else { assert (events + more)[i] == more[i - |events|]; }
    }
  }
}
