/**
 * The session lifecycle of the ANT+ bridge: the module-level state that
 * holds the active recorder, the auto-start lock and debounce, and the
 * identity-stamped auto-end timer, with the functions and request handlers
 * that change it.
 *
 * The SQLite `sessions` table is a map from id to row with a counter for the
 * next AUTOINCREMENT id; WebSocket broadcasts are appended to `events`; a
 * `setTimeout` handle is a number drawn from `nextTimer`, and its callback
 * running is the method `FireAutoEnd`. The clock and `todayStr()` are the
 * parameters `now` and `today`.
 */
module Lifecycle {
  import opened JsValues
  import opened RecorderSpec
  import opened Recorder
  import opened Sensor
  import Boards

  /** The auto-end delay armed by an auto-start (`scheduleAutoEnd(60000)`). */
  const AutoEndMs: int := 60000

  /** A row of the `sessions` table; `endTs` is NULL while the session runs. */
  datatype SessionRow = SessionRow(
    name: string, gender: string, date: string, startTs: int, endTs: Option<int>,
    peakW: real, bestWh60: real, totalWh: real)

  /** The table after `UPDATE sessions SET end_ts=?, peak_w=?, best_wh60=?, total_wh=? WHERE id=?` with the snapshot `s`. */
  function CloseRow(sessions: map<int, SessionRow>, s: RecorderSnapshot, now: int): map<int, SessionRow>
    requires s.id in sessions
  {
    sessions[s.id := sessions[s.id].(endTs := Some(now), peakW := s.peakW, bestWh60 := s.bestWh60, totalWh := s.totalWh)]
  }

  /** The `reason` an ended session carries. */
  datatype Reason = Manual | Auto60s | PreManualStart | LockedByUi | Api

  /** `{ id, ...snapshot, end_ts, reason }` */
  datatype Ended = Ended(session: RecorderSnapshot, endTs: int, reason: Reason)

  /** What `buildSessionFromCurrent()` returns. */
  datatype SessionInfo = SessionInfo(id: int, name: string, gender: string, startTs: int, date: string, autoMs: int)

  /** A broadcast message. */
  datatype Event =
    | FeTelemetry(device: int, t: int, power: Option<real>, cadence: Option<real>, speedKph: Option<real>)
    | PowerTelemetry(device: int, t: int, power: Option<real>, cadence: Option<real>)
    | SessionStart(info: SessionInfo)
    | SessionEnd(ended: Ended)

  /** What `doAutostart()` returns; an absent `blocked` is `false`. */
  datatype AutostartResult = AutostartResult(session: Option<SessionInfo>, alreadyRunning: bool, blocked: bool)

  /** The two ANT+ data channels: fitness equipment ("FE") and a power meter ("PWR"). */
  datatype Channel = FeChannel | PowerChannel

  function ProfileName(c: Channel): string {
    if c == FeChannel then "FE" else "PWR"
  }

  /** The broadcast of one data message: `{ type: "fe", id, t, power, cadence, speedKph }` or `{ type: "power", id, t, power, cadence }`. */
  function Telemetry(channel: Channel, device: int, data: Message, ts: int): Event {
    var power, cadence := FirstFinite(data, PowerKeys), FirstFinite(data, CadenceKeys);
    if channel == FeChannel then
      var speed := FirstFinite(data, SpeedKeys);
      FeTelemetry(device, ts, power, cadence, if speed.Some? then Some(speed.value * 3.6) else None)
    else PowerTelemetry(device, ts, power, cadence)
  }

  /** The reply of the manual-start route. */
  datatype StartReply =
    | Started(id: int, name: string, gender: string, startTs: int, date: string)
    | StartRejected(status: int, message: string)

  /** The reply of the rename route. */
  datatype RenameReply = Renamed(ok: bool) | RenameRejected(status: int, message: string)

  /** `c.toUpperCase()` on one character, for the ASCII letters. */
  function UpperChar(c: char): char {
    if 'a' <= c <= 'z' then (c as int - 32) as char else c
  }

  function Upper(s: string): (u: string)
    ensures |u| == |s|
    ensures forall i | 0 <= i < |s| :: u[i] == UpperChar(s[i])
  {
    if s == [] then [] else [UpperChar(s[0])] + Upper(s[1..])
  }

  /** `["M", "F"].includes(g)` */
  predicate IsBinaryGender(g: string) {
    g == "M" || g == "F"
  }

  /** The gender check of the start and rename routes accepts exactly "M", "m", "F" and "f". */
  lemma {:induction false} GenderCheck(gender: string)
    ensures IsBinaryGender(Upper(gender)) <==> gender in ["M", "m", "F", "f"]
  {
    if IsBinaryGender(Upper(gender)) {
      assert |gender| == 1;
      assert UpperChar(gender[0]) == 'M' || UpperChar(gender[0]) == 'F';
      assert gender == [gender[0]];
    }
    if gender in ["M", "m", "F", "f"] {
      assert |gender| == 1;
      assert Upper(gender) == [UpperChar(gender[0])];
    }
  }

  /** A finished session as the today leaderboard reads it. */
  function BoardRowOf(id: int, r: SessionRow): Boards.BoardRow {
    Boards.BoardRow(id, r.name, r.gender, Some(r.peakW), Some(r.bestWh60), Some(r.totalWh))
  }

  predicate FinishedOn(sessions: map<int, SessionRow>, date: string, id: int) {
    id in sessions && sessions[id].date == date && sessions[id].endTs.Some?
  }

  /** `SELECT … FROM sessions WHERE date=? AND end_ts IS NOT NULL` over the ids `lo` to `hi - 1`, in id order. */
  function FinishedRows(sessions: map<int, SessionRow>, date: string, lo: int, hi: int): seq<Boards.BoardRow>
    decreases hi - lo
  {
    if lo >= hi then []
    else (if FinishedOn(sessions, date, lo) then [BoardRowOf(lo, sessions[lo])] else [])
         + FinishedRows(sessions, date, lo + 1, hi)
  }

  /**
   * The rows the query returns are exactly the finished sessions of the
   * date, each once, in increasing id order.
   */
  lemma {:induction false} FinishedRowsExact(sessions: map<int, SessionRow>, date: string, lo: int, hi: int)
    ensures forall i | 0 <= i < |FinishedRows(sessions, date, lo, hi)| ::
              var r := FinishedRows(sessions, date, lo, hi)[i];
              lo <= r.id < hi && FinishedOn(sessions, date, r.id) && r == BoardRowOf(r.id, sessions[r.id])
    ensures forall i, j | 0 <= i < j < |FinishedRows(sessions, date, lo, hi)| ::
              FinishedRows(sessions, date, lo, hi)[i].id < FinishedRows(sessions, date, lo, hi)[j].id
    ensures forall id | lo <= id < hi && FinishedOn(sessions, date, id) ::
              BoardRowOf(id, sessions[id]) in FinishedRows(sessions, date, lo, hi)
    decreases hi - lo
  {
    if lo < hi {
      FinishedRowsExact(sessions, date, lo + 1, hi);
      var head := if FinishedOn(sessions, date, lo) then [BoardRowOf(lo, sessions[lo])] else [];
      var tail := FinishedRows(sessions, date, lo + 1, hi);
      var rows := head + tail;
      forall i | 0 <= i < |rows|
        ensures lo <= rows[i].id < hi && FinishedOn(sessions, date, rows[i].id)
                && rows[i] == BoardRowOf(rows[i].id, sessions[rows[i].id])
      {
        if i >= |head| {
          assert rows[i] == tail[i - |head|];
        } else {
          assert rows[i] == BoardRowOf(lo, sessions[lo]);
        }
      }
      forall i, j | 0 <= i < j < |rows| ensures rows[i].id < rows[j].id {
        assert rows[j] == tail[j - |head|];
        assert lo < rows[j].id;
        if i >= |head| {
          assert rows[i] == tail[i - |head|];
        } else {
          assert rows[i] == BoardRowOf(lo, sessions[lo]);
        }
      }
      forall id | lo <= id < hi && FinishedOn(sessions, date, id)
        ensures BoardRowOf(id, sessions[id]) in rows
      {
        if id > lo {
          assert BoardRowOf(id, sessions[id]) in tail;
        } else {
          assert rows[0] == BoardRowOf(id, sessions[id]);
        }
      }
    }
  }

  /** The bridge's session state. */
  class Bridge {
    /** `AUTO_THRESHOLD_W` and `AUTO_DEBOUNCE_MS`. */
    const threshold: real
    const debounceMs: int
    var autoLock: bool
    var current: SessionRecorder?
    var lastAutoTryTs: int
    var autoEndTimer: Option<nat>
    var nextTimer: nat
    var autoEndForId: Option<int>
    var autoEndAt: int
    var sessions: map<int, SessionRow>
    var nextId: int
    var events: seq<Event>

    /**
     * Ids come from the counter; the active recorder is consistent and its
     * row is the only open one; a live timer is stamped with the active
     * session's id, and without one the stamp and the deadline are reset.
     */
    ghost predicate Valid()
      reads this, current
    {
      && 1 <= nextId
      && (forall id | id in sessions :: 1 <= id < nextId)
      && (current != null ==>
            && current.Valid()
            && current.id in sessions
            && sessions[current.id].endTs.None?
            && sessions[current.id].startTs == current.startTs)
      && (forall id | id in sessions && sessions[id].endTs.None? :: current != null && id == current.id)
      && (autoEndTimer.Some? ==> current != null && autoEndForId == Some(current.id) && autoEndTimer.value < nextTimer)
      && (autoEndTimer.None? ==> autoEndForId.None? && autoEndAt == 0)
    }

    /** The state at startup, over an empty table. */
    constructor (threshold: real, debounceMs: int)
      ensures Valid()
      ensures this.threshold == threshold && this.debounceMs == debounceMs
      ensures !autoLock && current == null && lastAutoTryTs == 0
      ensures autoEndTimer.None? && autoEndForId.None? && autoEndAt == 0
      ensures sessions == map[] && nextId == 1 && events == []
    {
      this.threshold := threshold;
      this.debounceMs := debounceMs;
      autoLock := false;
      current := null;
      lastAutoTryTs := 0;
      autoEndTimer := None;
      nextTimer := 0;
      autoEndForId := None;
      autoEndAt := 0;
      sessions := map[];
      nextId := 1;
      events := [];
    }

    /** `clearAutoEnd()`: cancel the timer and reset its stamp and deadline. */
    method ClearAutoEnd()
      modifies this`autoEndTimer, this`autoEndForId, this`autoEndAt
      ensures autoEndTimer.None? && autoEndForId.None? && autoEndAt == 0
    {
      autoEndTimer := None;
      autoEndForId := None;
      autoEndAt := 0;
    }

    /** `remainingMs()`: the time left before the auto-end deadline, never negative. */
    function RemainingMs(now: int): (r: int)
      reads this
      ensures r >= 0 && r >= autoEndAt - now
      ensures r == 0 || r == autoEndAt - now
    {
      if autoEndAt - now > 0 then autoEndAt - now else 0
    }

    /** `current.snapshot()` of the route `/api/session/current`, or null. */
    function CurrentSnapshot(): (r: Option<RecorderSnapshot>)
      reads this, current
      requires Valid()
      ensures r.None? <==> current == null
      ensures r.Some? ==> r.value.id == current.id && r.value.startTs == current.startTs
                          && r.value.id in sessions && sessions[r.value.id].endTs.None?
    {
      if current == null then None else Some(current.Snapshot())
    }

    /** `buildSessionFromCurrent()` */
    function BuildSessionFromCurrent(today: string, now: int): (r: SessionInfo)
      reads this, current
      requires current != null && current.Valid()
      ensures r.id == current.id && r.name == current.name && r.gender == current.gender
      ensures r.startTs == current.startTs && r.date == today && r.autoMs == RemainingMs(now) && r.autoMs >= 0
    {
      var s := current.Snapshot();
      SessionInfo(s.id, s.name, s.gender, s.startTs, today, RemainingMs(now))
    }

    /**
     * `endCurrentSession(reason)`: with no active session nothing happens.
     * Otherwise the row is closed with the snapshot's values, the session
     * ends, the end is broadcast and the auto-end state is cleared.
     */
    method EndCurrentSession(reason: Reason, now: int) returns (ended: Option<Ended>)
      requires Valid()
      modifies this
      ensures Valid()
      ensures old(current) == null ==> ended.None? && unchanged(this)
      ensures old(current) != null ==>
                var s := old(current.Snapshot());
                && ended == Some(Ended(s, now, reason))
                && s.id == old(current.id)
                && sessions == CloseRow(old(sessions), s, now)
                && events == old(events) + [SessionEnd(ended.value)]
      ensures current == null && autoEndTimer.None? && autoEndForId.None? && autoEndAt == 0
      ensures forall id | id in sessions :: sessions[id].endTs.Some?
      ensures autoLock == old(autoLock) && lastAutoTryTs == old(lastAutoTryTs)
      ensures nextId == old(nextId) && nextTimer == old(nextTimer)
    {
      if current == null {
        return None;
      }
      var s := current.Snapshot();
      var id := current.id;
      var row := sessions[id];
      sessions := sessions[id := row.(endTs := Some(now), peakW := s.peakW, bestWh60 := s.bestWh60, totalWh := s.totalWh)];
      var e := Ended(s, now, reason);
      current := null;
      events := events + [SessionEnd(e)];
      ClearAutoEnd();
      ended := Some(e);
    }

    /** `scheduleAutoEnd(ms)`: a new timer stamped with the active session's id, after cancelling the old one. */
    method ScheduleAutoEnd(ms: int, now: int)
      requires Valid()
      modifies this`autoEndTimer, this`autoEndForId, this`autoEndAt, this`nextTimer
      ensures Valid()
      ensures current == null ==> autoEndTimer.None? && autoEndForId.None? && autoEndAt == 0
      ensures current != null ==>
                && autoEndTimer == Some(old(nextTimer))
                && autoEndForId == Some(current.id)
                && autoEndAt == now + ms
      ensures nextTimer >= old(nextTimer)
    {
      ClearAutoEnd();
      if current == null {
        return;
      }
      autoEndForId := Some(current.id);
      autoEndAt := now + ms;
      autoEndTimer := Some(nextTimer);
      nextTimer := nextTimer + 1;
    }

    /**
     * The callback of the timer `handle`. A cancelled timer never runs; the
     * live one always finds `current.id === autoEndForId` and ends the session
     * with reason `auto60s`.
     */
    method FireAutoEnd(handle: nat, now: int) returns (ended: Option<Ended>)
      requires Valid()
      modifies this
      ensures Valid()
      ensures nextTimer >= old(nextTimer)
      ensures old(autoEndTimer) != Some(handle) ==> ended.None? && unchanged(this)
      ensures old(autoEndTimer) == Some(handle) ==>
                && old(current) != null
                && ended == Some(Ended(old(current.Snapshot()), now, Auto60s))
                && sessions == CloseRow(old(sessions), old(current.Snapshot()), now)
                && events == old(events) + [SessionEnd(ended.value)]
                && current == null && autoEndTimer.None? && autoEndForId.None? && autoEndAt == 0
                && autoLock == old(autoLock) && lastAutoTryTs == old(lastAutoTryTs) && nextId == old(nextId)
    {
      if autoEndTimer != Some(handle) {
        return None;
      }
      assert current != null && Some(current.id) == autoEndForId;
      ended := EndCurrentSession(Auto60s, now);
    }

    /**
     * `doAutostart()`: blocked while locked; a re-broadcast of the running
     * session when there is one; otherwise a new anonymous session (name "",
     * gender "U") with a 60-second auto-end stamped with its id.
     */
    method DoAutostart(today: string, now: int) returns (r: AutostartResult)
      requires Valid()
      modifies this
      ensures Valid()
      ensures nextTimer >= old(nextTimer)
      ensures old(autoLock) ==> r == AutostartResult(None, old(current) != null, true) && unchanged(this)
      ensures !old(autoLock) && old(current) != null ==>
                && r.session == Some(old(BuildSessionFromCurrent(today, now)))
                && r.alreadyRunning && !r.blocked
                && events == old(events) + [SessionStart(r.session.value)]
                && current == old(current) && sessions == old(sessions) && nextId == old(nextId)
                && autoEndTimer == old(autoEndTimer) && autoEndForId == old(autoEndForId) && autoEndAt == old(autoEndAt)
      ensures !old(autoLock) && old(current) == null ==>
                && current != null && fresh(current)
                && current.id == old(nextId) && current.name == "" && current.gender == "U"
                && current.startTs == now && current.history == []
                && nextId == old(nextId) + 1
                && sessions == old(sessions)[old(nextId) := SessionRow("", "U", today, now, None, 0.0, 0.0, 0.0)]
                && autoEndTimer == Some(old(nextTimer)) && autoEndForId == Some(current.id) && autoEndAt == now + AutoEndMs
                && r == AutostartResult(Some(SessionInfo(current.id, "", "U", now, today, AutoEndMs)), false, false)
                && events == old(events) + [SessionStart(r.session.value)]
      ensures autoLock == old(autoLock) && lastAutoTryTs == old(lastAutoTryTs)
    {
      if autoLock {
        return AutostartResult(None, current != null, true);
      }
      if current != null {
        var session := BuildSessionFromCurrent(today, now);
        events := events + [SessionStart(session)];
        return AutostartResult(Some(session), true, false);
      }
      OpenSession("", "U", today, now);
      ScheduleAutoEnd(AutoEndMs, now);
      var session := BuildSessionFromCurrent(today, now);
      events := events + [SessionStart(session)];
      r := AutostartResult(Some(session), false, false);
    }

    /**
     * The insert both starts share: a row with no end and zero statistics
     * under the next id, and a new recorder for it as the active session.
     */
    method OpenSession(name: string, gender: string, today: string, now: int)
      requires Valid() && current == null
      modifies this
      ensures Valid()
      ensures current != null && fresh(current)
      ensures current.id == old(nextId) && current.name == name && current.gender == gender
      ensures current.startTs == now && current.history == []
      ensures nextId == old(nextId) + 1
      ensures sessions == old(sessions)[old(nextId) := SessionRow(name, gender, today, now, None, 0.0, 0.0, 0.0)]
      ensures autoEndTimer.None? && nextTimer == old(nextTimer)
      ensures events == old(events) && autoLock == old(autoLock) && lastAutoTryTs == old(lastAutoTryTs)
    {
      var id := nextId;
      nextId := nextId + 1;
      sessions := sessions[id := SessionRow(name, gender, today, now, None, 0.0, 0.0, 0.0)];
      current := new SessionRecorder(id, name, gender, now);
    }

    /** The auto-start condition of the data handlers, evaluated on the current state. */
    predicate AutostartGate(power: Option<real>, ts: int)
      reads this
    {
      && !autoLock && current == null
      && power.Some? && power.value >= threshold
      && ts - lastAutoTryTs > debounceMs
    }

    /**
     * The part of a data handler after the broadcast: when the gate holds,
     * record the attempt and auto-start; then feed the sample to the active
     * recorder, the one just started included.
     */
    method GateAndRecord(power: Option<real>, ts: int, today: string)
      requires Valid()
      modifies this, current
      ensures Valid()
      ensures nextTimer >= old(nextTimer)
      ensures old(AutostartGate(power, ts)) ==>
                && lastAutoTryTs == ts
                && current != null && fresh(current) && current.id == old(nextId)
                && current.name == "" && current.gender == "U" && current.startTs == ts
                && current.history == (if Accepted(ts, power.value) then [Sample(ts, power.value)] else [])
                && nextId == old(nextId) + 1
                && sessions == old(sessions)[old(nextId) := SessionRow("", "U", today, ts, None, 0.0, 0.0, 0.0)]
                && autoEndTimer == Some(old(nextTimer)) && autoEndForId == Some(current.id) && autoEndAt == ts + AutoEndMs
                && events == old(events) + [SessionStart(SessionInfo(current.id, "", "U", ts, today, AutoEndMs))]
      ensures !old(AutostartGate(power, ts)) ==>
                && lastAutoTryTs == old(lastAutoTryTs) && current == old(current)
                && sessions == old(sessions) && nextId == old(nextId) && events == old(events)
                && autoEndTimer == old(autoEndTimer) && autoEndForId == old(autoEndForId) && autoEndAt == old(autoEndAt)
      ensures !old(AutostartGate(power, ts)) && old(current) != null ==>
                current.history == old(current.history) + (if power.Some? && Accepted(ts, power.value) then [Sample(ts, power.value)] else [])
      ensures autoLock == old(autoLock)
    {
      if !autoLock && current == null && power.Some? && power.value >= threshold {
        var now := ts;
        if now - lastAutoTryTs > debounceMs {
          AutostartAndRecord(power.value, now, today);
          return;
        }
      }
      RecordSample(power, ts);
    }

    /** The gate passed: note the attempt, auto-start a session and record the sample that triggered it. */
    method AutostartAndRecord(power: real, ts: int, today: string)
      requires Valid() && AutostartGate(Some(power), ts)
      modifies this
      ensures Valid()
      ensures nextTimer >= old(nextTimer)
      ensures && lastAutoTryTs == ts
              && current != null && fresh(current) && current.id == old(nextId)
              && current.name == "" && current.gender == "U" && current.startTs == ts
              && current.history == (if Accepted(ts, power) then [Sample(ts, power)] else [])
              && nextId == old(nextId) + 1
              && sessions == old(sessions)[old(nextId) := SessionRow("", "U", today, ts, None, 0.0, 0.0, 0.0)]
              && autoEndTimer == Some(old(nextTimer)) && autoEndForId == Some(current.id) && autoEndAt == ts + AutoEndMs
              && events == old(events) + [SessionStart(SessionInfo(current.id, "", "U", ts, today, AutoEndMs))]
      ensures autoLock == old(autoLock)
    {
      lastAutoTryTs := ts;
      var _ := DoAutostart(today, ts);
      current.OnPowerSample(ts, power);
    }

    /** The gate did not pass: the sample goes to the active recorder, if any, and nothing else changes. */
    method RecordSample(power: Option<real>, ts: int)
      requires Valid()
      modifies current
      ensures Valid()
      ensures current != null ==>
                current.history == old(current.history) + (if power.Some? && Accepted(ts, power.value) then [Sample(ts, power.value)] else [])
    {
      if current != null && power.Some? {
        current.OnPowerSample(ts, power.value);
      }
    }

    /**
     * The `data` handler of one channel: ignore another profile's data,
     * extract the values, broadcast them, then the gate and the recording.
     */
    method OnSensorData(channel: Channel, profile: string, device: int, data: Message, ts: int, today: string)
      requires Valid()
      modifies this, current
      ensures Valid()
      ensures nextTimer >= old(nextTimer)
      ensures profile != ProfileName(channel) ==> unchanged(this) && (old(current) != null ==> unchanged(old(current)))
      ensures profile == ProfileName(channel) ==>
                |events| >= |old(events)| + 1 && events[|old(events)|] == Telemetry(channel, device, data, ts)
      ensures profile == ProfileName(channel) && old(AutostartGate(FirstFinite(data, PowerKeys), ts)) ==>
                && lastAutoTryTs == ts && current != null && fresh(current) && current.id == old(nextId)
                && current.name == "" && current.gender == "U" && current.startTs == ts
                && current.history == (if Accepted(ts, FirstFinite(data, PowerKeys).value)
                                       then [Sample(ts, FirstFinite(data, PowerKeys).value)] else [])
                && nextId == old(nextId) + 1
                && sessions == old(sessions)[old(nextId) := SessionRow("", "U", today, ts, None, 0.0, 0.0, 0.0)]
                && autoEndTimer == Some(old(nextTimer)) && autoEndForId == Some(current.id) && autoEndAt == ts + AutoEndMs
                && events == old(events) + [Telemetry(channel, device, data, ts),
                                            SessionStart(SessionInfo(current.id, "", "U", ts, today, AutoEndMs))]
      ensures profile == ProfileName(channel) && !old(AutostartGate(FirstFinite(data, PowerKeys), ts)) ==>
                && lastAutoTryTs == old(lastAutoTryTs) && current == old(current)
                && sessions == old(sessions) && nextId == old(nextId)
                && autoEndTimer == old(autoEndTimer) && autoEndForId == old(autoEndForId) && autoEndAt == old(autoEndAt)
                && events == old(events) + [Telemetry(channel, device, data, ts)]
                && (old(current) != null ==>
                      current.history == old(current.history)
                                         + (if FirstFinite(data, PowerKeys).Some? && Accepted(ts, FirstFinite(data, PowerKeys).value)
                                            then [Sample(ts, FirstFinite(data, PowerKeys).value)] else []))
      ensures autoLock == old(autoLock)
    {
      if profile != ProfileName(channel) {
        return;
      }
      var power := Broadcast(channel, device, data, ts);
      GateAndRecord(power, ts, today);
    }

    /** The extraction and the `fe` or `power` broadcast of a data handler; returns the power it found. */
    method Broadcast(channel: Channel, device: int, data: Message, ts: int) returns (power: Option<real>)
      modifies this`events
      ensures power == FirstFinite(data, PowerKeys)
      ensures events == old(events) + [Telemetry(channel, device, data, ts)]
    {
      power := ExtractPower(data);
      events := events + [Telemetry(channel, device, data, ts)];
    }

    /** `POST /api/autostart/lock`: set the lock; locking ends any active session with `locked_by_ui`. */
    method SetLock(lock: bool, now: int) returns (locked: bool)
      requires Valid()
      modifies this
      ensures Valid()
      ensures nextTimer >= old(nextTimer)
      ensures locked == lock && autoLock == lock
      ensures !lock ==>
                && current == old(current) && sessions == old(sessions) && events == old(events)
                && autoEndTimer == old(autoEndTimer) && autoEndForId == old(autoEndForId) && autoEndAt == old(autoEndAt)
      ensures lock ==> current == null && autoEndTimer.None? && autoEndForId.None? && autoEndAt == 0
      ensures lock && old(current) == null ==> sessions == old(sessions) && events == old(events)
      ensures lock && old(current) != null ==>
                && sessions == CloseRow(old(sessions), old(current.Snapshot()), now)
                && events == old(events) + [SessionEnd(Ended(old(current.Snapshot()), now, LockedByUi))]
      ensures nextId == old(nextId) && lastAutoTryTs == old(lastAutoTryTs)
    {
      autoLock := lock;
      if lock {
        var _ := EndCurrentSession(LockedByUi, now);
      }
      locked := autoLock;
    }

    /**
     * `POST /api/session/start`: reject unless the name is non-empty and the
     * upper-cased gender is M or F; otherwise end any active session with
     * `pre_manual_start` and start exactly one new one, with no auto-end.
     */
    method StartManual(name: string, gender: string, today: string, now: int) returns (r: StartReply)
      requires Valid()
      modifies this
      ensures Valid()
      ensures nextTimer >= old(nextTimer)
      ensures name == "" || !IsBinaryGender(Upper(gender)) ==>
                r == StartRejected(400, "name and gender (M/F) required") && unchanged(this)
      ensures name != "" && IsBinaryGender(Upper(gender)) ==>
                && r == Started(old(nextId), name, Upper(gender), now, today)
                && current != null && fresh(current) && current.id == old(nextId)
                && current.name == name && current.gender == Upper(gender) && current.history == []
                && nextId == old(nextId) + 1
                && (forall id | id in sessions && id != current.id :: sessions[id].endTs.Some?)
                && autoEndTimer.None? && autoEndForId.None? && autoEndAt == 0
      ensures name != "" && IsBinaryGender(Upper(gender)) && old(current) == null ==>
                && sessions == old(sessions)[old(nextId) := SessionRow(name, Upper(gender), today, now, None, 0.0, 0.0, 0.0)]
                && events == old(events)
      ensures name != "" && IsBinaryGender(Upper(gender)) && old(current) != null ==>
                && sessions == CloseRow(old(sessions), old(current.Snapshot()), now)
                                 [old(nextId) := SessionRow(name, Upper(gender), today, now, None, 0.0, 0.0, 0.0)]
                && events == old(events) + [SessionEnd(Ended(old(current.Snapshot()), now, PreManualStart))]
      ensures autoLock == old(autoLock) && lastAutoTryTs == old(lastAutoTryTs)
    {
      var g := Upper(gender);
      if name == "" || !IsBinaryGender(g) {
        return StartRejected(400, "name and gender (M/F) required");
      }
      var _ := EndCurrentSession(PreManualStart, now);
      OpenSession(name, g, today, now);
      ClearAutoEnd();
      r := Started(current.id, name, g, now, today);
    }

    /** `POST /api/session/end`: end the active session, if any, with reason `api`. */
    method EndRequest(now: int) returns (ended: Option<Ended>)
      requires Valid()
      modifies this
      ensures Valid()
      ensures nextTimer >= old(nextTimer)
      ensures ended.None? <==> old(current) == null
      ensures ended.None? ==> unchanged(this)
      ensures ended.Some? ==>
                && ended.value == Ended(old(current.Snapshot()), now, Api)
                && sessions == CloseRow(old(sessions), old(current.Snapshot()), now)
                && events == old(events) + [SessionEnd(ended.value)]
      ensures current == null && autoEndTimer.None? && autoEndForId.None? && autoEndAt == 0
      ensures autoLock == old(autoLock) && lastAutoTryTs == old(lastAutoTryTs) && nextId == old(nextId)
    {
      ended := EndCurrentSession(Api, now);
    }

    /**
     * `POST /api/session/rename`: the same validation with a non-zero id;
     * the reply says whether a row with that id was changed.
     */
    method Rename(id: int, name: string, gender: string) returns (r: RenameReply)
      requires Valid()
      modifies this`sessions
      ensures Valid()
      ensures id == 0 || name == "" || !IsBinaryGender(Upper(gender)) ==>
                r == RenameRejected(400, "id, name, gender M/F required") && sessions == old(sessions)
      ensures id != 0 && name != "" && IsBinaryGender(Upper(gender)) ==>
                && r == Renamed(id in old(sessions))
                && sessions == (if id in old(sessions)
                                then old(sessions)[id := old(sessions)[id].(name := name, gender := Upper(gender))]
                                else old(sessions))
    {
      var g := Upper(gender);
      if id == 0 || name == "" || !IsBinaryGender(g) {
        return RenameRejected(400, "id, name, gender M/F required");
      }
      if id in sessions {
        sessions := sessions[id := sessions[id].(name := name, gender := g)];
        return Renamed(true);
      }
      return Renamed(false);
    }

    /** `GET /api/leaderboard/today`: the finished sessions of `today`, ranked per gender. */
    function TodayBoard(today: string): Boards.Board
      reads this
    {
      Boards.BuildBoard(today, FinishedRows(sessions, today, 1, nextId))
    }

    /**
     * Today's board is built from exactly the sessions finished today; the
     * active session, whose row is still open, is on none of its lists.
     */
    lemma {:induction false} TodayBoardRows(today: string)
      requires Valid()
      ensures var rows := FinishedRows(sessions, today, 1, nextId);
              && TodayBoard(today) == Boards.BuildBoard(today, rows)
              && (forall id | id in sessions && sessions[id].date == today && sessions[id].endTs.Some? ::
                    BoardRowOf(id, sessions[id]) in rows)
              && (forall r | r in rows :: FinishedOn(sessions, today, r.id) && r == BoardRowOf(r.id, sessions[r.id]))
      ensures current != null ==> forall r | r in FinishedRows(sessions, today, 1, nextId) :: r.id != current.id
    {
      FinishedRowsExact(sessions, today, 1, nextId);
    }
  }
}
