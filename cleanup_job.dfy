/**
 * The retention job `cron/cleanup_sessions.php`: delete the sessions that
 * were terminated more than 30 days ago and log how many rows went. The log
 * file itself is not modelled; the job's exit status is.
 */
module CleanupJob {
  import opened Common
  import opened Schema

  const RetentionDays: int := 30

  /** `status = 'terminated' AND end_time < DATE_SUB(NOW(), INTERVAL 30 DAY)`; a null end time never matches. */
  predicate Purgeable(row: SessionRow, now: int) {
    row.status == SessionStatus.Terminated && row.endTime.Some? && row.endTime.value < now - RetentionDays * SecondsPerDay
  }

  function Doomed(sessions: map<nat, SessionRow>, now: int): set<nat> {
    set k | k in sessions && Purgeable(sessions[k], now)
  }

  /** The table after the DELETE. */
  function Retained(sessions: map<nat, SessionRow>, now: int): map<nat, SessionRow> {
    map k | k in sessions && !Purgeable(sessions[k], now) :: sessions[k]
  }

  /**
   * Exactly the purgeable rows go and the others stay unchanged, so active
   * and expired sessions are never deleted; the number removed is the
   * difference in size; a second run at the same time removes nothing.
   */
  lemma RetainedEffect(sessions: map<nat, SessionRow>, now: int)
    ensures var after := Retained(sessions, now);
      after.Keys == sessions.Keys - Doomed(sessions, now)
      && (forall k :: k in after ==> after[k] == sessions[k])
      && (forall k :: k in sessions && sessions[k].status != SessionStatus.Terminated ==> k in after)
      && |Doomed(sessions, now)| == |sessions| - |after|
      && Doomed(after, now) == {}
      && Retained(after, now) == after
  {
    var after := Retained(sessions, now);
    var doomed := Doomed(sessions, now);
    assert after.Keys == sessions.Keys - doomed;
    assert sessions.Keys == after.Keys + doomed;
    assert after.Keys !! doomed;
    assert |sessions.Keys| == |after.Keys| + |doomed|;
  }

  /**
   * One run of the job at time `now`: the DELETE and its `rowCount()`, the
   * count the log line reports, with exit status 0. When the DELETE raises,
   * the `catch` logs the failure instead and exits with status 2, and no row
   * is deleted.
   */
  method CleanupSessions(db: Db, now: int, raises: bool) returns (exitCode: int, count: Option<nat>)
    requires db.Valid()
    modifies db`sessions
    ensures db.Valid()
    ensures exitCode == (if raises then 2 else 0)
    ensures count.None? <==> raises
    ensures raises ==> db.sessions == old(db.sessions)
    ensures !raises ==>
      db.sessions == Retained(old(db.sessions), now)
      && count.value == |Doomed(old(db.sessions), now)| == |old(db.sessions)| - |db.sessions|
  {
    if raises {
      return 2, None;
    }
    RetainedEffect(db.sessions, now);
    var removed := |Doomed(db.sessions, now)|;
    db.sessions := Retained(db.sessions, now);
    return 0, Some(removed);
  }
}
