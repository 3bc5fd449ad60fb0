/**
 * The in-memory security audit trail of lib/security/audit.ts: every logged
 * action is appended to one list, high and critical ones are also passed to the
 * security team, and two queries read the list back newest first.
 *
 * The clock is the parameter `now` (milliseconds since the epoch); both ISO
 * timestamps of an entry are that instant. The random entry id is the
 * parameter `id`.
 */
module Audit {
  import opened Wrappers
  import opened Seqs

  datatype RiskLevel = Low | Medium | High | Critical

  /** The detail values the core stores: strings, numbers, booleans, null, and an instant rendered as an ISO string. */
  datatype Value = VStr(s: string) | VNum(n: real) | VBool(b: bool) | VNull | VTime(ms: int)
  {
    /** JavaScript truthiness: "", 0, false and null are falsy; an ISO string is never empty. */
    predicate Truthy()
    {
      match this
      case VStr(s) => s != ""
      case VNum(n) => n != 0.0
      case VBool(b) => b
      case VNull => false
      case VTime(_) => true
    }
  }

  datatype Request = Request(ip: string, userAgent: string)

  datatype AuditEntry = AuditEntry(
    id: string, userId: string, action: string, details: map<string, Value>,
    ipAddress: string, userAgent: string, timestamp: int, riskLevel: RiskLevel)

  /** The levels that alert the security team. */
  predicate IsAlerting(level: RiskLevel)
  {
    level == High || level == Critical
  }

  predicate Alerting(e: AuditEntry)
  {
    IsAlerting(e.riskLevel)
  }

  function Timestamp(e: AuditEntry): int
  {
    e.timestamp
  }

  /**
   * The stored details: the caller's, with `timestamp` set to the current instant
   * and `sessionId` kept when truthy and otherwise set to "unknown".
   */
  function MergeDetails(details: map<string, Value>, now: int): (r: map<string, Value>)
    ensures r.Keys == details.Keys + {"timestamp", "sessionId"}
    ensures r["timestamp"] == VTime(now)
    ensures r["sessionId"] == if "sessionId" in details && details["sessionId"].Truthy()
                              then details["sessionId"] else VStr("unknown")
    ensures forall k :: k in details && k != "timestamp" && k != "sessionId" ==> r[k] == details[k]
  {
    var session := if "sessionId" in details && details["sessionId"].Truthy() then details["sessionId"] else VStr("unknown");
    details["timestamp" := VTime(now)]["sessionId" := session]
  }

  /** The entry `log` records; the risk level defaults to low. */
  function MakeEntry(
    id: string, userId: string, action: string, details: map<string, Value>,
    request: Request, riskLevel: Option<RiskLevel>, now: int): AuditEntry
  {
    AuditEntry(id, userId, action, MergeDetails(details, now), request.ip, request.userAgent, now,
               riskLevel.GetOr(Low))
  }

  /** A transaction above 10000 is high risk, above 1000 medium, otherwise low. */
  function TransactionRisk(amount: real): (r: RiskLevel)
    ensures r == High <==> amount > 10000.0
    ensures r == Medium <==> 1000.0 < amount <= 10000.0
    ensures r == Low <==> amount <= 1000.0
  {
    if amount > 10000.0 then High else if amount > 1000.0 then Medium else Low
  }

  function Rank(level: RiskLevel): int
  {
    match level
    case Low => 0
    case Medium => 1
    case High => 2
    case Critical => 3
  }

  /** A larger amount is never a lower risk, and a transaction is never critical. */
  lemma TransactionRiskMonotone(a: real, b: real)
    requires a <= b
    ensures Rank(TransactionRisk(a)) <= Rank(TransactionRisk(b))
    ensures TransactionRisk(b) != Critical
  {
  }

  // ---------------------------------------------------------------------
  // Queries

  /** getUserAuditLogs: the user's entries, newest first (stable among equal instants), cut to `limit`. */
  function UserLogs(logs: seq<AuditEntry>, userId: string, limit: int): seq<AuditEntry>
  {
    SliceTo(SortDesc(Filter(logs, (e: AuditEntry) => e.userId == userId), Timestamp), limit)
  }

  /** getHighRiskLogs: the high and critical entries stamped after the cutoff `hours` before now, newest first. */
  function HighRiskLogs(logs: seq<AuditEntry>, now: int, hours: int): seq<AuditEntry>
  {
    var cutoff := now - hours * 3_600_000;
    SortDesc(Filter(logs, (e: AuditEntry) => e.timestamp > cutoff && Alerting(e)), Timestamp)
  }

  /**
   * The user's query returns only that user's logged entries, newest first, each at
   * most as often as logged; with a non-negative limit it returns `limit` of them, or
   * all, and no entry of the user's that is left out is newer than one returned.
   */
  lemma UserLogsCorrect(logs: seq<AuditEntry>, userId: string, limit: int)
    ensures var r := UserLogs(logs, userId, limit);
      (forall e :: e in r ==> e in logs && e.userId == userId)
      && SortedDesc(r, Timestamp)
      && (var own := Filter(logs, (e: AuditEntry) => e.userId == userId);
          (0 <= limit ==> |r| == if limit <= |own| then limit else |own|)
          && (limit >= |own| ==> multiset(r) == multiset(own))
          && multiset(r) <= multiset(own)
          && (forall e, e' :: e in r && e' in multiset(own) - multiset(r) ==> e'.timestamp <= e.timestamp))
  {
    UserLogsSelection(logs, userId, limit);
    UserLogsNewest(logs, userId, limit);
  }

  /** Membership, order and count of the user's query. */
  lemma UserLogsSelection(logs: seq<AuditEntry>, userId: string, limit: int)
    ensures var r := UserLogs(logs, userId, limit);
      (forall e :: e in r ==> e in logs && e.userId == userId)
      && SortedDesc(r, Timestamp)
      && (var own := Filter(logs, (e: AuditEntry) => e.userId == userId);
          (0 <= limit ==> |r| == if limit <= |own| then limit else |own|)
          && (limit >= |own| ==> multiset(r) == multiset(own)))
  {
    var p := (e: AuditEntry) => e.userId == userId;
    var own := Filter(logs, p);
    var sorted := SortDesc(own, Timestamp);
    SortDescCorrect(own, Timestamp);
    FilterCounts(logs, p);
    SliceToPrefix(sorted, limit);
    var r := UserLogs(logs, userId, limit);
    forall e | e in r ensures e in logs && e.userId == userId {
      assert e in multiset(sorted);
    }
    if limit >= |own| {
      assert r == sorted;
    }
  }

  /** The cut keeps the newest of the user's entries and invents no copies. */
  lemma UserLogsNewest(logs: seq<AuditEntry>, userId: string, limit: int)
    ensures var own := Filter(logs, (e: AuditEntry) => e.userId == userId);
      var r := UserLogs(logs, userId, limit);
      multiset(r) <= multiset(own)
      && (forall e, e' :: e in r && e' in multiset(own) - multiset(r) ==> e'.timestamp <= e.timestamp)
  {
    var own := Filter(logs, (e: AuditEntry) => e.userId == userId);
    var sorted := SortDesc(own, Timestamp);
    SortDescCorrect(own, Timestamp);
    SliceToPrefix(sorted, limit);
    var r := UserLogs(logs, userId, limit);
    assert r == sorted[..|r|];
    SortedPrefixIsLargest(sorted, |r|, Timestamp);
  }

  /** An entry is in the high-risk report exactly when it is logged, alerting and after the cutoff; newest first, each once per logging. */
  lemma HighRiskLogsCorrect(logs: seq<AuditEntry>, now: int, hours: int)
    ensures var r := HighRiskLogs(logs, now, hours);
      (forall e :: e in r <==> e in logs && Alerting(e) && e.timestamp > now - hours * 3_600_000)
      && SortedDesc(r, Timestamp)
      && multiset(r) == multiset(Filter(logs, (e: AuditEntry) => e.timestamp > now - hours * 3_600_000 && Alerting(e)))
  {
    var cutoff := now - hours * 3_600_000;
    var p := (e: AuditEntry) => e.timestamp > cutoff && Alerting(e);
    SortDescCorrect(Filter(logs, p), Timestamp);
    FilterCounts(logs, p);
    var r := HighRiskLogs(logs, now, hours);
    forall e ensures e in r <==> e in logs && Alerting(e) && e.timestamp > cutoff {
      assert e in r <==> e in multiset(r);
      assert e in Filter(logs, p) <==> e in multiset(Filter(logs, p));
    }
  }

  // ---------------------------------------------------------------------
  // The logger

  class AuditLogger {
    /** Every entry logged, oldest first. */
    var logs: seq<AuditEntry>
    /** The entries passed to the security team, oldest first. */
    var alerts: seq<AuditEntry>

    /** The security team sees exactly the high and critical entries, in logging order. */
    ghost predicate Valid()
      reads this
    {
      alerts == Filter(logs, Alerting)
    }

    constructor()
      ensures Valid() && logs == [] && alerts == []
    {
      logs := [];
      alerts := [];
    }

    /** Append the entry and, for a high or critical level, alert the security team with it. */
    method Log(
      userId: string, action: string, details: map<string, Value>, request: Request,
      riskLevel: Option<RiskLevel>, id: string, now: int)
      requires Valid()
      modifies this
      ensures Valid()
      ensures logs == old(logs) + [MakeEntry(id, userId, action, details, request, riskLevel, now)]
      ensures alerts == old(alerts) + (if IsAlerting(riskLevel.GetOr(Low))
                                       then [MakeEntry(id, userId, action, details, request, riskLevel, now)] else [])
    {
      var entry := MakeEntry(id, userId, action, details, request, riskLevel, now);
      FilterAppend(logs, [entry], Alerting);
      logs := logs + [entry];
      if IsAlerting(entry.riskLevel) {
        alerts := alerts + [entry];
      }
    }

    method GetUserAuditLogs(userId: string, limit: Option<int>) returns (r: seq<AuditEntry>)
      ensures r == UserLogs(logs, userId, limit.GetOr(50))
    {
      r := UserLogs(logs, userId, limit.GetOr(50));
    }

    method GetHighRiskLogs(hours: Option<int>, now: int) returns (r: seq<AuditEntry>)
      ensures r == HighRiskLogs(logs, now, hours.GetOr(24))
    {
      r := HighRiskLogs(logs, now, hours.GetOr(24));
    }

    /** A successful login is low risk, a failed one medium: neither alerts. */
    method LogLogin(userId: string, success: bool, request: Request, id: string, now: int)
      requires Valid()
      modifies this
      ensures Valid()
      ensures logs == old(logs) + [MakeEntry(id, userId, if success then "LOGIN_SUCCESS" else "LOGIN_FAILED",
        map["success" := VBool(success), "loginMethod" := VStr("2fa")], request,
        Some(if success then Low else Medium), now)]
      ensures alerts == old(alerts)
    {
      Log(userId, if success then "LOGIN_SUCCESS" else "LOGIN_FAILED",
          map["success" := VBool(success), "loginMethod" := VStr("2fa")], request,
          Some(if success then Low else Medium), id, now);
    }

    /** A transaction is logged at the risk its amount implies; only amounts above 10000 alert. */
    method LogTransaction(userId: string, transactionId: string, amount: real, request: Request, id: string, now: int)
      requires Valid()
      modifies this
      ensures Valid()
      ensures logs == old(logs) + [MakeEntry(id, userId, "TRANSACTION_INITIATED",
        map["transactionId" := VStr(transactionId), "amount" := VNum(amount), "currency" := VStr("MT")], request,
        Some(TransactionRisk(amount)), now)]
      ensures |alerts| == |old(alerts)| + (if amount > 10000.0 then 1 else 0)
    {
      Log(userId, "TRANSACTION_INITIATED",
          map["transactionId" := VStr(transactionId), "amount" := VNum(amount), "currency" := VStr("MT")], request,
          Some(TransactionRisk(amount)), id, now);
    }

    /** A password change is medium risk and does not alert. */
    method LogPasswordChange(userId: string, request: Request, id: string, now: int)
      requires Valid()
      modifies this
      ensures Valid()
      ensures logs == old(logs) + [MakeEntry(id, userId, "PASSWORD_CHANGED",
        map["method" := VStr("2fa_verified")], request, Some(Medium), now)]
      ensures alerts == old(alerts)
    {
      Log(userId, "PASSWORD_CHANGED", map["method" := VStr("2fa_verified")], request, Some(Medium), id, now);
    }

    /** A lockout is high risk and always alerts. */
    method LogAccountLockout(userId: string, reason: string, request: Request, id: string, now: int)
      requires Valid()
      modifies this
      ensures Valid()
      ensures logs == old(logs) + [MakeEntry(id, userId, "ACCOUNT_LOCKED",
        map["reason" := VStr(reason), "lockoutDuration" := VStr("30_minutes")], request, Some(High), now)]
      ensures alerts == old(alerts) + [logs[|logs| - 1]]
    {
      Log(userId, "ACCOUNT_LOCKED", map["reason" := VStr(reason), "lockoutDuration" := VStr("30_minutes")],
          request, Some(High), id, now);
    }

    /** Suspicious activity is critical and always alerts. */
    method LogSuspiciousActivity(userId: string, activity: string, request: Request, id: string, now: int)
      requires Valid()
      modifies this
      ensures Valid()
      ensures logs == old(logs) + [MakeEntry(id, userId, "SUSPICIOUS_ACTIVITY",
        map["activity" := VStr(activity), "requiresReview" := VBool(true)], request, Some(Critical), now)]
      ensures alerts == old(alerts) + [logs[|logs| - 1]]
    {
      Log(userId, "SUSPICIOUS_ACTIVITY", map["activity" := VStr(activity), "requiresReview" := VBool(true)],
          request, Some(Critical), id, now);
    }
  }

  /** An alerting entry logged now is in the high-risk report for any positive window. */
  lemma FreshAlertReported(logs: seq<AuditEntry>, e: AuditEntry, now: int, hours: int)
    requires Alerting(e) && e.timestamp == now && hours > 0
    ensures e in HighRiskLogs(logs + [e], now, hours)
  {
    HighRiskLogsCorrect(logs + [e], now, hours);
  }
}
