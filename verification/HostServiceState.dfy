/** The record of one host or service in the state history, and how log entries change it (src/HostServiceState.h). */
module HostServiceStates {

  // ---------- Log entries ----------

  /** Stands for the pointer to the host or service. */
  datatype Key = HostKey(host: string) | ServiceKey(host: string, service: string)

  datatype Event =
    | StateEvent(key: Key, initial: bool, state: int)
    | DowntimeEvent(key: Key, started: bool)
    | FlappingEvent(key: Key, started: bool)
    | TimeperiodTransition(name: string, to: int)
    | InitialStatesLogged
    | OtherEvent(initial: bool) // any other line, also one about an object that is not configured any more
  {
    predicate IsInitialState() {
      (StateEvent? && initial) || (OtherEvent? && initial)
    }

    predicate HasKey() {
      StateEvent? || DowntimeEvent? || FlappingEvent?
    }

    /** The entries that a host passes on to its services. */
    predicate Propagates() {
      HasKey() && key.HostKey? && (DowntimeEvent? || (StateEvent? && !initial))
    }
  }

  datatype Entry = Entry(time: int, event: Event)

  // ---------- Records ----------

  /** One value for each state. */
  datatype PerState<T> = PerState(unmonitored: T, ok: T, warning: T, critical: T, unknown: T)

  /** The state information of the record. */
  datatype StateInformation = StateInformation(
    hostDown: bool, state: int, inNotificationPeriod: int, inServicePeriod: int,
    inDowntime: bool, inHostDowntime: bool, isFlapping: bool)

  /** The columns about the length of the reported interval. */
  datatype Report = Report(duration: int, part: real, durations: PerState<int>, parts: PerState<real>)

  datatype HostServiceState = HostServiceState(
    key: Key, time: int, from: int, until: int, report: Report, info: StateInformation,
    services: seq<Key>,
    mayNoLongerExist: bool, hasVanished: bool, lastKnownTime: int,
    notificationPeriod: string, servicePeriod: string)

  /** What an update depends on besides the record and the entry. */
  datatype Context = Context(onlyUpdate: bool, periods: map<string, int>, timeframe: int)

  function Share(duration: int, timeframe: int): real
    requires timeframe != 0
  {
    duration as real / timeframe as real
  }

  function Spread<T>(state: int, value: T, zero: T): PerState<T> {
    var none := PerState(zero, zero, zero, zero, zero);
    match state
    case -1 => none.(unmonitored := value)
    case 0 => none.(ok := value)
    case 1 => none.(warning := value)
    case 2 => none.(critical := value)
    case 3 => none.(unknown := value)
    case _ => none
  }

  function ReportOf(duration: int, state: int, timeframe: int): Report
    requires timeframe != 0
  {
    var part := Share(duration, timeframe);
    Report(duration, part, Spread(state, duration, 0), Spread(state, part, 0.0))
  }

  /** The row that is passed to the query. */
  function Reported(hs: HostServiceState, timeframe: int): HostServiceState
    requires timeframe != 0
  {
    hs.(report := ReportOf(hs.until - hs.from, hs.info.state, timeframe))
  }

  /**
   A record after an update, the rows that were reported on the way, and whether
   a change may concern the services.
   */
  datatype Outcome = Outcome(hs: HostServiceState, rows: seq<HostServiceState>, changed: bool)

  function Processed(o: Outcome, c: Context): Outcome
    requires c.timeframe != 0
  {
    if c.onlyUpdate then o
    else
      var row := Reported(o.hs, c.timeframe);
      o.(hs := row.(from := row.until), rows := o.rows + [row])
  }

  function PeriodStatus(periods: map<string, int>, name: string): int {
    if name in periods then periods[name] else 1
  }

  predicate Revives(hs: HostServiceState, e: Entry) {
    !e.event.TimeperiodTransition? && hs.hasVanished
  }

  /** The state information of an absent object. */
  function Absent(hs: HostServiceState, periods: map<string, int>): StateInformation {
    hs.info.(state := -1, inDowntime := false, isFlapping := false,
             inNotificationPeriod := PeriodStatus(periods, hs.notificationPeriod),
             inServicePeriod := PeriodStatus(periods, hs.servicePeriod))
  }

  function SeenUntil(hs: HostServiceState, time: int): HostServiceState {
    hs.(time := time, until := time)
  }

  /** Reports what has been so far, and continues with other state information. */
  function Recorded(o: Outcome, info: StateInformation, c: Context): Outcome
    requires c.timeframe != 0
  {
    var p := Processed(o, c);
    p.(hs := p.hs.(info := info))
  }

  /** An entry about a vanished object closes its last known state and starts an absent one. */
  function Revived(hs: HostServiceState, c: Context): Outcome
    requires c.timeframe != 0
  {
    var closed := Recorded(Outcome(SeenUntil(hs, hs.lastKnownTime), [], true), Absent(hs, c.periods), c);
    closed.(hs := closed.hs.(mayNoLongerExist := false, hasVanished := false))
  }

  function Stamped(hs: HostServiceState, e: Entry): HostServiceState {
    SeenUntil(hs, e.time).(mayNoLongerExist := hs.mayNoLongerExist && e.event.TimeperiodTransition?)
  }

  /** Whether an entry about a host or service changes the state information of a record. */
  predicate Changes(info: StateInformation, isHost: bool, event: Event)
    requires event.HasKey()
  {
    match event
    case StateEvent(key, _, state) =>
      if key.ServiceKey? || isHost then info.state != state else info.hostDown != (state > 0)
    case DowntimeEvent(key, started) =>
      if key.ServiceKey? then info.inDowntime != started else info.inHostDowntime != started
    case FlappingEvent(_, started) => info.isFlapping != started
  }

  function Changed(info: StateInformation, isHost: bool, event: Event): StateInformation
    requires event.HasKey()
  {
    match event
    case StateEvent(key, _, state) =>
      if key.ServiceKey? then info.(state := state)
      else if isHost then info.(state := state, hostDown := state > 0)
      else info.(hostDown := state > 0)
    case DowntimeEvent(key, started) =>
      if key.ServiceKey? then info.(inDowntime := started)
      else if isHost then info.(inHostDowntime := started, inDowntime := started)
      else info.(inHostDowntime := started)
    case FlappingEvent(_, started) => info.(isFlapping := started)
  }

  /** Entries that repeat what is known are not passed on to the services; for some the question never arises. */
  predicate CountsAsChange(isHost: bool, event: Event) {
    (event.StateEvent? && (event.key.ServiceKey? || !isHost)) || (event.DowntimeEvent? && event.key.ServiceKey?)
  }

  function ObjectApplied(o: Outcome, event: Event, c: Context): Outcome
    requires c.timeframe != 0 && event.HasKey()
  {
    var isHost := o.hs.key.HostKey?;
    if Changes(o.hs.info, isHost, event) then Recorded(o, Changed(o.hs.info, isHost, event), c)
    else o.(changed := CountsAsChange(isHost, event))
  }

  function NotificationPeriodApplied(o: Outcome, name: string, to: int, c: Context): Outcome
    requires c.timeframe != 0
  {
    if name != o.hs.notificationPeriod || to == o.hs.info.inNotificationPeriod then o
    else Recorded(o, o.hs.info.(inNotificationPeriod := to), c)
  }

  function ServicePeriodApplied(o: Outcome, name: string, to: int, c: Context): Outcome
    requires c.timeframe != 0
  {
    if name != o.hs.servicePeriod || to == o.hs.info.inServicePeriod then o
    else Recorded(o, o.hs.info.(inServicePeriod := to), c)
  }

  function Applied(o: Outcome, event: Event, c: Context): Outcome
    requires c.timeframe != 0
  {
    if event.HasKey() then ObjectApplied(o, event, c)
    else if event.TimeperiodTransition? then
      ServicePeriodApplied(NotificationPeriodApplied(o, event.name, event.to, c), event.name, event.to, c)
    else o
  }

  /** The record before an entry is looked at: revived if it had vanished. */
  function Prepared(hs: HostServiceState, e: Entry, c: Context): Outcome
    requires c.timeframe != 0
  {
    var o := if Revives(hs, e) then Revived(hs, c) else Outcome(hs, [], true);
    o.(hs := Stamped(o.hs, e))
  }

  /** What an entry makes of a record. */
  function Updated(hs: HostServiceState, e: Entry, c: Context): Outcome
    requires c.timeframe != 0
  {
    Applied(Prepared(hs, e, c), e.event, c)
  }

  /** The report about an object that is absent by the end of the timeframe. */
  function ClosedAbsent(hs: HostServiceState, c: Context): Outcome
    requires c.timeframe != 0
  {
    if !hs.mayNoLongerExist then Outcome(hs, [], true)
    else Recorded(Outcome(SeenUntil(hs, hs.lastKnownTime), [], true), hs.info.(state := -1), c)
  }

  /** The final reports, up to the last second of the timeframe. */
  function Closed(hs: HostServiceState, until: int, c: Context): Outcome
    requires c.timeframe != 0
  {
    var o := ClosedAbsent(hs, c);
    Processed(o.(hs := SeenUntil(o.hs, until - 1)), c)
  }

  // ---------- Chains of rows ----------

  /** Each row starts where the one before it ended. */
  ghost predicate Chain(rows: seq<HostServiceState>, start: int, end: int) {
    if rows == [] then start == end
    else rows[|rows| - 1].until == end && Chain(rows[..|rows| - 1], start, rows[|rows| - 1].from)
  }

  /** The columns about durations follow from the interval and the state. */
  ghost predicate IsReport(row: HostServiceState, timeframe: int) {
    && timeframe != 0 && row.report == ReportOf(row.until - row.from, row.info.state, timeframe)
  }

  /** Reports about one object that continue the history that has ended at `start`. */
  ghost predicate Continues(key: Key, start: int, rows: seq<HostServiceState>, end: int, timeframe: int) {
    && Chain(rows, start, end)
    && forall r | r in rows :: r.key == key && IsReport(r, timeframe)
  }

  lemma {:induction false} ChainAppend(a: seq<HostServiceState>, b: seq<HostServiceState>, start: int, mid: int,
                                       end: int)
    requires Chain(a, start, mid) && Chain(b, mid, end)
    ensures Chain(a + b, start, end)
  {
    if b == [] {
      assert a + b == a;
    } else {
      assert (a + b)[..|a + b| - 1] == a + b[..|b| - 1];
      ChainAppend(a, b[..|b| - 1], start, mid, b[|b| - 1].from);
    }
  }

  ghost function SumOfDurations(rows: seq<HostServiceState>): int {
    if rows == [] then 0 else SumOfDurations(rows[..|rows| - 1]) + rows[|rows| - 1].report.duration
  }

  ghost function SumOfParts(rows: seq<HostServiceState>): real {
    if rows == [] then 0.0 else SumOfParts(rows[..|rows| - 1]) + rows[|rows| - 1].report.part
  }

  lemma SharesAdd(a: int, b: int, timeframe: int)
    requires timeframe != 0
    ensures Share(a, timeframe) + Share(b, timeframe) == Share(a + b, timeframe)
    ensures Share(0, timeframe) == 0.0 && Share(timeframe, timeframe) == 1.0
  {
  }

  /** No time is lost or counted twice: the durations of a chain add up to the time it covers. */
  lemma {:induction false} ChainSums(key: Key, rows: seq<HostServiceState>, start: int, end: int, timeframe: int)
    requires timeframe != 0 && Continues(key, start, rows, end, timeframe)
    ensures SumOfDurations(rows) == end - start
    ensures SumOfParts(rows) == Share(end - start, timeframe)
  {
    if rows == [] {
      SharesAdd(0, 0, timeframe);
    } else {
      var last := rows[|rows| - 1];
      assert last in rows;
      ChainSums(key, rows[..|rows| - 1], start, last.from, timeframe);
      SharesAdd(last.from - start, last.report.duration, timeframe);
    }
  }

  /** For the states that livestatus knows, the five durations of a row add up to its duration. */
  lemma StatesShareDuration(row: HostServiceState, timeframe: int)
    requires IsReport(row, timeframe)
    ensures var d := row.report.durations;
            d.unmonitored + d.ok + d.warning + d.critical + d.unknown ==
            if -1 <= row.info.state <= 3 then row.report.duration else 0
    ensures var p := row.report.parts;
            p.unmonitored + p.ok + p.warning + p.critical + p.unknown ==
            if -1 <= row.info.state <= 3 then row.report.part else 0.0
  {
    var state := row.info.state;
    assert state == -1 || state == 0 || state == 1 || state == 2 || state == 3 || state < -1 || state > 3;
  }

  /** The whole time of the row, and its whole share, stand in the column of its state, and nothing in the others. */
  ghost predicate TimeInItsColumn(row: HostServiceState, timeframe: int) {
    var state, d, p := row.info.state, row.report.durations, row.report.parts;
    var duration, part := row.until - row.from, row.report.part;
    && row.report.duration == duration && part * timeframe as real == duration as real
    && d.unmonitored == (if state == -1 then duration else 0) && p.unmonitored == (if state == -1 then part else 0.0)
    && d.ok == (if state == 0 then duration else 0) && p.ok == (if state == 0 then part else 0.0)
    && d.warning == (if state == 1 then duration else 0) && p.warning == (if state == 1 then part else 0.0)
    && d.critical == (if state == 2 then duration else 0) && p.critical == (if state == 2 then part else 0.0)
    && d.unknown == (if state == 3 then duration else 0) && p.unknown == (if state == 3 then part else 0.0)
  }

  lemma ReportInItsColumn(row: HostServiceState, timeframe: int)
    requires IsReport(row, timeframe)
    ensures TimeInItsColumn(row, timeframe)
  {
    var state := row.info.state;
    assert state == -1 || state == 0 || state == 1 || state == 2 || state == 3 || state < -1 || state > 3;
    ShareTimes(row.until - row.from, timeframe);
  }

  lemma ShareTimes(duration: int, timeframe: int)
    requires timeframe != 0
    ensures Share(duration, timeframe) * timeframe as real == duration as real
  {
  }

  /** How long the rows are in this state. */
  ghost function TimeInState(rows: seq<HostServiceState>, state: int): int {
    if rows == [] then 0
    else
      var last := rows[|rows| - 1];
      TimeInState(rows[..|rows| - 1], state) + if last.info.state == state then last.until - last.from else 0
  }

  /** The sums of the five columns about durations. */
  ghost function ColumnSums(rows: seq<HostServiceState>): PerState<int> {
    if rows == [] then PerState(0, 0, 0, 0, 0)
    else
      var sums, d := ColumnSums(rows[..|rows| - 1]), rows[|rows| - 1].report.durations;
      PerState(unmonitored := sums.unmonitored + d.unmonitored, ok := sums.ok + d.ok,
               warning := sums.warning + d.warning, critical := sums.critical + d.critical,
               unknown := sums.unknown + d.unknown)
  }

  /** Each column adds up to the time that the rows are in its state. */
  ghost predicate ColumnsTellStates(rows: seq<HostServiceState>) {
    var sums := ColumnSums(rows);
    && sums.unmonitored == TimeInState(rows, -1) && sums.ok == TimeInState(rows, 0)
    && sums.warning == TimeInState(rows, 1) && sums.critical == TimeInState(rows, 2)
    && sums.unknown == TimeInState(rows, 3)
  }

  lemma {:induction false} ColumnsAddUp(rows: seq<HostServiceState>, timeframe: int)
    requires forall r | r in rows :: TimeInItsColumn(r, timeframe)
    ensures ColumnsTellStates(rows)
  {
    if rows != [] {
      assert rows[|rows| - 1] in rows;
      ColumnsAddUp(rows[..|rows| - 1], timeframe);
    }
  }

  // ---------- What every update keeps ----------

  /** The outcome continues the record's history, and the record remains that of the same object. */
  ghost predicate Carries(hs: HostServiceState, o: Outcome, c: Context) {
    && o.hs.key == hs.key && o.hs.services == hs.services
    && Continues(hs.key, hs.from, o.rows, o.hs.from, c.timeframe)
    && (c.onlyUpdate ==> o.rows == [])
  }

  lemma ProcessedCarries(hs: HostServiceState, o: Outcome, c: Context)
    requires c.timeframe != 0 && Carries(hs, o, c)
    ensures Carries(hs, Processed(o, c), c)
  {
    if !c.onlyUpdate {
      var row := Reported(o.hs, c.timeframe);
      assert (o.rows + [row])[..|o.rows|] == o.rows;
    }
  }

  lemma RecordedCarries(hs: HostServiceState, o: Outcome, info: StateInformation, c: Context)
    requires c.timeframe != 0 && Carries(hs, o, c)
    ensures Carries(hs, Recorded(o, info, c), c)
  {
    ProcessedCarries(hs, o, c);
  }

  lemma AppliedCarries(hs: HostServiceState, o: Outcome, event: Event, c: Context)
    requires c.timeframe != 0 && Carries(hs, o, c)
    ensures Carries(hs, Applied(o, event, c), c)
  {
    if event.HasKey() {
      RecordedCarries(hs, o, Changed(o.hs.info, o.hs.key.HostKey?, event), c);
    } else if event.TimeperiodTransition? {
      RecordedCarries(hs, o, o.hs.info.(inNotificationPeriod := event.to), c);
      var n := NotificationPeriodApplied(o, event.name, event.to, c);
      RecordedCarries(hs, n, n.hs.info.(inServicePeriod := event.to), c);
    }
  }

  lemma PreparedCarries(hs: HostServiceState, e: Entry, c: Context)
    requires c.timeframe != 0
    ensures Carries(hs, Prepared(hs, e, c), c)
  {
    RecordedCarries(hs, Outcome(SeenUntil(hs, hs.lastKnownTime), [], true), Absent(hs, c.periods), c);
  }

  /** Every update extends the chain of the object's rows. */
  lemma UpdatedCarries(hs: HostServiceState, e: Entry, c: Context)
    requires c.timeframe != 0
    ensures Carries(hs, Updated(hs, e, c), c)
  {
    PreparedCarries(hs, e, c);
    AppliedCarries(hs, Prepared(hs, e, c), e.event, c);
  }

  /** The final reports extend it up to the last second of the timeframe. */
  lemma ClosedCarries(hs: HostServiceState, until: int, c: Context)
    requires c.timeframe != 0 && !c.onlyUpdate
    ensures Carries(hs, Closed(hs, until, c), c) && Closed(hs, until, c).hs.from == until - 1
  {
    RecordedCarries(hs, Outcome(SeenUntil(hs, hs.lastKnownTime), [], true), hs.info.(state := -1), c);
    var o := ClosedAbsent(hs, c);
    ProcessedCarries(hs, o.(hs := SeenUntil(o.hs, until - 1)), c);
  }

  ghost predicate FlagsAgree(hs: HostServiceState) {
    hs.hasVanished ==> hs.mayNoLongerExist
  }

  /** The flags about absent objects: only a timeperiod entry leaves them alone. */
  lemma UpdatedFlags(hs: HostServiceState, e: Entry, c: Context)
    requires c.timeframe != 0
    ensures FlagsAgree(hs) ==> FlagsAgree(Updated(hs, e, c).hs)
    ensures !e.event.TimeperiodTransition? ==>
              !Updated(hs, e, c).hs.mayNoLongerExist && !Updated(hs, e, c).hs.hasVanished
    ensures e.event.TimeperiodTransition? ==> Updated(hs, e, c).hs.mayNoLongerExist == hs.mayNoLongerExist
    ensures e.event.TimeperiodTransition? ==> Updated(hs, e, c).hs.hasVanished == hs.hasVanished
    ensures Updated(hs, e, c).hs.lastKnownTime == hs.lastKnownTime
  {
  }

  /** The state that the entry is compared with. */
  function StateSeen(hs: HostServiceState, e: Entry): int {
    if Revives(hs, e) then -1 else hs.info.state
  }

  /** The two columns that a service copies from its host. */
  predicate SameHostColumns(a: StateInformation, b: StateInformation) {
    a.hostDown == b.hostDown && a.inHostDowntime == b.inHostDowntime
  }

  /** The copied columns as a changing entry about the host states them. */
  function Told(info: StateInformation, event: Event): StateInformation {
    match event
    case StateEvent(_, _, state) => info.(hostDown := state > 0)
    case DowntimeEvent(_, started) => info.(inHostDowntime := started)
    case _ => info
  }

  predicate ConcernsHostColumns(event: Event) {
    (event.StateEvent? || event.DowntimeEvent?) && event.key.HostKey?
  }

  lemma PreparedHostColumns(hs: HostServiceState, e: Entry, c: Context)
    requires c.timeframe != 0
    ensures SameHostColumns(Prepared(hs, e, c).hs.info, hs.info) && Prepared(hs, e, c).hs.key == hs.key
    ensures Prepared(hs, e, c).changed && Prepared(hs, e, c).hs.info.state == StateSeen(hs, e)
  {
  }

  lemma AppliedHostColumns(o: Outcome, event: Event, c: Context)
    requires c.timeframe != 0 && o.changed
    ensures var a := Applied(o, event, c);
            && (!ConcernsHostColumns(event) ==> SameHostColumns(a.hs.info, o.hs.info))
            && (ConcernsHostColumns(event) &&
                !(event.StateEvent? && o.hs.key.HostKey? && o.hs.info.state == event.state) ==>
                  SameHostColumns(a.hs.info, Told(o.hs.info, event)))
            && (ConcernsHostColumns(event) && !a.changed ==> SameHostColumns(a.hs.info, o.hs.info))
            && (event.StateEvent? && event.key.HostKey? && o.hs.key.HostKey? ==>
                a.changed == (o.hs.info.state != event.state))
            && (event.DowntimeEvent? && event.key.HostKey? ==> a.changed == (o.hs.info.inHostDowntime != event.started))
  {
  }

  /** What an entry does to the two columns that a service copies from its host. */
  lemma UpdatedHostColumns(hs: HostServiceState, e: Entry, c: Context)
    requires c.timeframe != 0
    ensures var o := Updated(hs, e, c);
            && (!ConcernsHostColumns(e.event) || (hs.key.HostKey? && !o.changed) ==>
                SameHostColumns(o.hs.info, hs.info))
            && (ConcernsHostColumns(e.event) && (hs.key.ServiceKey? || o.changed) ==>
                  SameHostColumns(o.hs.info, Told(hs.info, e.event)))
    ensures e.event.StateEvent? && e.event.key.HostKey? && hs.key.HostKey? ==>
              Updated(hs, e, c).changed == (StateSeen(hs, e) != e.event.state)
  {
    PreparedHostColumns(hs, e, c);
    AppliedHostColumns(Prepared(hs, e, c), e.event, c);
  }

  // ---------- Durations that are not negative ----------

  /** Nothing about the record is in the future; before the timeframe its interval starts with the timeframe. */
  predicate Past(hs: HostServiceState, now: int, onlyUpdate: bool) {
    (onlyUpdate || hs.from <= now) && (hs.mayNoLongerExist ==> hs.lastKnownTime <= now)
  }

  /** The open interval does not start behind the time when the object was last seen. */
  predicate InTime(hs: HostServiceState) {
    hs.from <= hs.lastKnownTime
  }

  predicate PeriodChanges(hs: HostServiceState, e: Entry) {
    && e.event.TimeperiodTransition?
    && ((e.event.name == hs.notificationPeriod && e.event.to != hs.info.inNotificationPeriod) ||
        (e.event.name == hs.servicePeriod && e.event.to != hs.info.inServicePeriod))
  }

  ghost predicate NoneNegative(rows: seq<HostServiceState>) {
    forall r | r in rows :: r.report.duration >= 0
  }

  lemma NoneNegativeParts(a: seq<HostServiceState>, b: seq<HostServiceState>)
    ensures NoneNegative(a + b) <==> NoneNegative(a) && NoneNegative(b)
  {
    if NoneNegative(a + b) {
      assert forall r | r in a :: r in a + b;
      assert forall r | r in b :: r in a + b;
    }
  }

  /** What is applied after the preparation reports no negative duration and adds no row in front. */
  lemma AppliedDurations(o: Outcome, event: Event, c: Context)
    requires c.timeframe != 0 && !c.onlyUpdate && o.hs.from <= o.hs.until
    ensures NoneNegative(o.rows) <==> NoneNegative(Applied(o, event, c).rows)
    ensures o.hs.from <= Applied(o, event, c).hs.from <= o.hs.until
  {
    var a := Applied(o, event, c);
    assert o.rows <= a.rows;
    assert forall i | |o.rows| <= i < |a.rows| :: a.rows[i].report.duration >= 0;
    assert forall i | 0 <= i < |o.rows| :: a.rows[i] == o.rows[i];
  }

  lemma UpdatedPast(hs: HostServiceState, e: Entry, c: Context)
    requires c.timeframe != 0 && FlagsAgree(hs) && Past(hs, e.time, c.onlyUpdate)
    ensures Past(Updated(hs, e, c).hs, e.time, c.onlyUpdate)
  {
    UpdatedFlags(hs, e, c);
    if !c.onlyUpdate {
      AppliedDurations(Prepared(hs, e, c), e.event, c);
    }
  }

  /**
   An update that is not older than the record reports a negative duration
   exactly when it revives a record too late.
   */
  lemma UpdatedDurations(hs: HostServiceState, e: Entry, c: Context)
    requires c.timeframe != 0 && !c.onlyUpdate && FlagsAgree(hs) && Past(hs, e.time, false)
    ensures NoneNegative(Updated(hs, e, c).rows) <==> (Revives(hs, e) ==> InTime(hs))
  {
    AppliedDurations(Prepared(hs, e, c), e.event, c);
    if Revives(hs, e) {
      var first := Reported(SeenUntil(hs, hs.lastKnownTime), c.timeframe);
      assert Prepared(hs, e, c).rows == [first];
    }
  }

  /** An absent object stays in time as long as no timeperiod entry changes it. */
  lemma UpdatedInTime(hs: HostServiceState, e: Entry, c: Context)
    requires c.timeframe != 0 && (hs.mayNoLongerExist ==> InTime(hs) && !PeriodChanges(hs, e))
    ensures Updated(hs, e, c).hs.mayNoLongerExist ==> hs.mayNoLongerExist && InTime(Updated(hs, e, c).hs)
  {
    UpdatedFlags(hs, e, c);
  }

  /**
   The final reports about a record hold a negative duration exactly when it is
   absent and was last seen too early.
   */
  lemma ClosedDurations(hs: HostServiceState, until: int, c: Context)
    requires c.timeframe != 0 && !c.onlyUpdate && Past(hs, until - 1, false)
    ensures NoneNegative(Closed(hs, until, c).rows) <==> (hs.mayNoLongerExist ==> InTime(hs))
  {
    var rows := Closed(hs, until, c).rows;
    assert forall i | 0 <= i < |rows| :: rows[i] in rows;
  }

  /** Why timeperiod entries must not change an absent object: its next entry reports an interval of negative length. */
  lemma DisturbedRecordGoesNegative(hs: HostServiceState, transition: Entry, e: Entry, c: Context, c': Context)
    requires c.timeframe != 0 && c'.timeframe != 0 && !c.onlyUpdate && !c'.onlyUpdate && FlagsAgree(hs)
    requires hs.hasVanished && PeriodChanges(hs, transition) && hs.from <= hs.lastKnownTime < transition.time <= e.time
    requires !e.event.TimeperiodTransition?
    ensures !NoneNegative(Updated(Updated(hs, transition, c).hs, e, c').rows)
  {
    UpdatedFlags(hs, transition, c);
    DisturbedFrom(hs, transition, c);
    UpdatedDurations(Updated(hs, transition, c).hs, e, c');
  }

  lemma DisturbedFrom(hs: HostServiceState, transition: Entry, c: Context)
    requires c.timeframe != 0 && !c.onlyUpdate && PeriodChanges(hs, transition)
    ensures Updated(hs, transition, c).hs.from == transition.time
  {
  }
}
