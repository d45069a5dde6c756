/**
 What the rows of a state history say about an object: how an entry changes the columns of its record, which intervals
 it closes, and that a row shows what the log last said about the object (src/TableStateHistory.cc).
 */
module KnownStates {
  import opened Basics
  import opened HostServiceStates
  import opened StateHistory

  // ---------- One entry, one record ----------

  /** What counts as known when the entry is looked at: an object that had vanished is found absent. */
  ghost function Found(hs: HostServiceState, e: Entry, c: Context): StateInformation {
    if !hs.hasVanished || e.event.TimeperiodTransition? then hs.info
    else
      StateInformation(
        hostDown := hs.info.hostDown, state := -1,
        inNotificationPeriod := if hs.notificationPeriod in c.periods then c.periods[hs.notificationPeriod] else 1,
        inServicePeriod := if hs.servicePeriod in c.periods then c.periods[hs.servicePeriod] else 1,
        inDowntime := false, inHostDowntime := hs.info.inHostDowntime, isFlapping := false)
  }

  lemma FoundInfo(hs: HostServiceState, e: Entry, c: Context)
    requires c.timeframe != 0
    ensures Prepared(hs, e, c).hs.info == Found(hs, e, c) && Prepared(hs, e, c).hs.key == hs.key
    ensures Prepared(hs, e, c).changed
  {
  }

  /** The columns after an entry, of a record that hears of it, are those before with just what the entry states. */
  ghost predicate Hears(event: Event, own: Key, known: StateInformation, info: StateInformation)
    requires event.HasKey()
  {
    match event
    case StateEvent(key, _, state) =>
      && (own.ServiceKey? && key == own ==> info == known.(state := state))
      && (own.HostKey? && known.state != state ==> info == known.(state := state, hostDown := state > 0))
      && (own.HostKey? && known.state == state ==> info == known)
      && (own.ServiceKey? && key != own ==> info == known.(hostDown := state > 0))
    case DowntimeEvent(key, started) =>
      && (own.ServiceKey? && key == own ==> info == known.(inDowntime := started))
      && (own.HostKey? && known.inHostDowntime != started ==>
            info == known.(inDowntime := started, inHostDowntime := started))
      && (own.HostKey? && known.inHostDowntime == started ==> info == known)
      && (own.ServiceKey? && key != own ==> info == known.(inHostDowntime := started))
    case FlappingEvent(_, started) => info == known.(isFlapping := started)
  }

  lemma AppliedInfo(o: Outcome, event: Event, c: Context)
    requires c.timeframe != 0 && event.HasKey() && o.changed
    requires o.hs.key == event.key || (o.hs.key.ServiceKey? && event.key.HostKey?)
    ensures Hears(event, o.hs.key, o.hs.info, ObjectApplied(o, event, c).hs.info)
  {
  }

  /** An entry about a host or service changes in a record that hears of it exactly the columns that it is about. */
  lemma UpdatedInfo(hs: HostServiceState, e: Entry, c: Context)
    requires c.timeframe != 0 && e.event.HasKey()
    requires hs.key == e.event.key || (hs.key.ServiceKey? && e.event.key.HostKey?)
    ensures Hears(e.event, hs.key, Found(hs, e, c), Updated(hs, e, c).hs.info)
  {
    FoundInfo(hs, e, c);
    AppliedInfo(Prepared(hs, e, c), e.event, c);
  }

  /**
   Whom an entry concerns: its object, and all services of its host if it is a downtime or an alert of that host, but
   no initial state, which says something new about the host.
   */
  lemma ConcernedExactly(s: Setting, m: Machine, e: Entry, k: Key)
    requires s.Timeframe() != 0 && e.event.HasKey()
    requires e.event.key in m.stateInfo && m.stateInfo[e.event.key].key == e.event.key
    ensures var hs, key := m.stateInfo[e.event.key], e.event.key;
            var known := Found(hs, e, m.Ctx(s));
            k in Concerned(s, m, e) <==>
            k == key || (key.HostKey? && k in hs.services &&
                         match e.event
                         case StateEvent(_, initial, state) => !initial && known.state != state
                         case DowntimeEvent(_, started) => known.inHostDowntime != started
                         case FlappingEvent(_, _) => false)
  {
    FoundInfo(m.stateInfo[e.event.key], e, m.Ctx(s));
  }

  lemma NotificationStatus(o: Outcome, name: string, to: int, c: Context)
    requires c.timeframe != 0
    ensures var hs, info := NotificationPeriodApplied(o, name, to, c).hs, o.hs.info;
            && hs.info == (if name == o.hs.notificationPeriod then info.(inNotificationPeriod := to) else info)
            && hs.servicePeriod == o.hs.servicePeriod
  {
  }

  lemma ServiceStatus(o: Outcome, name: string, to: int, c: Context)
    requires c.timeframe != 0
    ensures var hs, info := ServicePeriodApplied(o, name, to, c).hs, o.hs.info;
            hs.info == (if name == o.hs.servicePeriod then info.(inServicePeriod := to) else info)
  {
  }

  /** A timeperiod entry changes the columns about this timeperiod. */
  lemma TransitionInfo(hs: HostServiceState, e: Entry, c: Context)
    requires c.timeframe != 0 && e.event.TimeperiodTransition?
    ensures var known := hs.info;
            var first := if e.event.name == hs.notificationPeriod then known.(inNotificationPeriod := e.event.to)
                         else known;
            Updated(hs, e, c).hs.info ==
            if e.event.name == hs.servicePeriod then first.(inServicePeriod := e.event.to) else first
  {
    var o := Prepared(hs, e, c);
    NotificationStatus(o, e.event.name, e.event.to, c);
    ServiceStatus(NotificationPeriodApplied(o, e.event.name, e.event.to, c), e.event.name, e.event.to, c);
  }

  /** The row is about this interval of the object, in which this was known. */
  ghost predicate IsRow(row: HostServiceState, hs: HostServiceState, info: StateInformation, from: int, until: int) {
    row.key == hs.key && row.info == info && row.from == from && row.until == until && row.time == until
  }

  /**
   In the timeframe an entry about a host or service closes the interval of a record exactly if it changes its columns;
   if the object had vanished, what was known of it before ends at the time when it was last seen.
   */
  lemma UpdatedRows(hs: HostServiceState, e: Entry, c: Context)
    requires c.timeframe != 0 && e.event.HasKey()
    ensures c.onlyUpdate ==> Updated(hs, e, c).rows == [] && Updated(hs, e, c).hs.from == hs.from
    ensures var known, o := Found(hs, e, c), Updated(hs, e, c);
            var seen := if hs.hasVanished then 1 else 0;
            var from := if hs.hasVanished then hs.lastKnownTime else hs.from;
            !c.onlyUpdate ==>
              && |o.rows| == seen + (if o.hs.info == known then 0 else 1)
              && (hs.hasVanished ==> IsRow(o.rows[0], hs, hs.info, hs.from, hs.lastKnownTime))
              && (o.hs.info != known ==> IsRow(o.rows[seen], hs, known, from, e.time))
              && o.hs.from == (if o.hs.info == known then from else e.time)
  {
    var p := Prepared(hs, e, c);
    assert p.hs.info == Found(hs, e, c);
    if !c.onlyUpdate {
      assert |p.rows| == if hs.hasVanished then 1 else 0;
    }
  }

  /** A timeperiod entry closes the interval once for each of the two columns that it changes. */
  lemma TransitionRows(hs: HostServiceState, e: Entry, c: Context)
    requires c.timeframe != 0 && e.event.TimeperiodTransition?
    ensures c.onlyUpdate ==> Updated(hs, e, c).rows == []
    ensures var o := Updated(hs, e, c);
            var first := e.event.name == hs.notificationPeriod && e.event.to != hs.info.inNotificationPeriod;
            var second := e.event.name == hs.servicePeriod && e.event.to != hs.info.inServicePeriod;
            !c.onlyUpdate ==>
              && |o.rows| == (if first then 1 else 0) + (if second then 1 else 0)
              && (first || second ==> IsRow(o.rows[0], hs, hs.info, hs.from, e.time))
              && (first && second ==>
                    IsRow(o.rows[1], hs, hs.info.(inNotificationPeriod := e.event.to), e.time, e.time))
              && o.hs.from == (if first || second then e.time else hs.from)
  {
  }

  /** The final reports: what was known until the object was last seen, and that it is absent since; or one report. */
  lemma ClosedRows(hs: HostServiceState, until: int, c: Context)
    requires c.timeframe != 0 && !c.onlyUpdate
    ensures var rows := Closed(hs, until, c).rows;
            if hs.mayNoLongerExist then
              && |rows| == 2 && IsRow(rows[0], hs, hs.info, hs.from, hs.lastKnownTime)
              && IsRow(rows[1], hs, hs.info.(state := -1), hs.lastKnownTime, until - 1)
            else |rows| == 1 && IsRow(rows[0], hs, hs.info, hs.from, until - 1)
  {
  }

  /**
   An object that appears in the log: its state is unknown if that is more than ten minutes behind the start of the
   timeframe, and OK otherwise; a service takes over what is known of its host.
   */
  lemma NewObject(s: Setting, m: Machine, key: Key, time: int, services: seq<Key>)
    requires key !in m.stateInfo
    ensures var hs := Tracking(s, m, key, time, services).stateInfo[key];
            && hs.key == key && hs.from == s.since && !hs.mayNoLongerExist && !hs.hasVanished
            && hs.info.state == (if !m.onlyUpdate && time > s.since + 600 then -1 else 0)
            && !hs.info.inDowntime && !hs.info.isFlapping
            && (key.HostKey? || HostKey(key.host) !in m.stateInfo ==> !hs.info.hostDown && !hs.info.inHostDowntime)
            && (key.ServiceKey? && HostKey(key.host) in m.stateInfo ==>
                  SameHostColumns(hs.info, m.stateInfo[HostKey(key.host)].info))
            && hs.notificationPeriod == s.notificationPeriodOf(key) && hs.servicePeriod == s.servicePeriodOf(key)
            && hs.info.inNotificationPeriod ==
               (if hs.notificationPeriod in m.periods then m.periods[hs.notificationPeriod] else 1)
            && hs.info.inServicePeriod == (if hs.servicePeriod in m.periods then m.periods[hs.servicePeriod] else 1)
  {
  }

  // ---------- Runs without a restart ----------

  /** Nothing is in doubt, and a host is in downtime exactly when it tells so to its services. */
  ghost predicate Quiet(hs: HostServiceState) {
    && !hs.mayNoLongerExist && !hs.hasVanished
    && (hs.key.HostKey? ==> hs.info.inDowntime == hs.info.inHostDowntime)
  }

  ghost predicate AllQuiet(m: Machine) {
    !m.inInitialStates && forall k | k in m.stateInfo :: Quiet(m.stateInfo[k])
  }

  ghost predicate TellsState(e: Entry, k: Key) {
    e.event.StateEvent? && e.event.key == k
  }

  ghost predicate TellsDowntime(e: Entry, k: Key) {
    e.event.DowntimeEvent? && e.event.key == k
  }

  ghost predicate TellsFlapping(e: Entry, k: Key) {
    e.event.FlappingEvent? && e.event.key == k
  }

  /** State, downtime and flapping are what the entry tells of this object, and otherwise what they were. */
  ghost predicate TakesOver(before: StateInformation, e: Entry, k: Key, after: StateInformation) {
    && after.state == (if TellsState(e, k) then e.event.state else before.state)
    && after.inDowntime == (if TellsDowntime(e, k) then e.event.started else before.inDowntime)
    && after.isFlapping == (if TellsFlapping(e, k) then e.event.started else before.isFlapping)
  }

  lemma RecordTurn(hs: HostServiceState, e: Entry, c: Context)
    requires c.timeframe != 0 && Quiet(hs) && (e.event.HasKey() || e.event.TimeperiodTransition?)
    requires e.event.HasKey() ==> hs.key == e.event.key || (hs.key.ServiceKey? && e.event.Propagates())
    ensures Quiet(Updated(hs, e, c).hs) && TakesOver(hs.info, e, hs.key, Updated(hs, e, c).hs.info)
  {
    UpdatedFlags(hs, e, c);
    UpdatedCarries(hs, e, c);
    if e.event.HasKey() {
      UpdatedInfo(hs, e, c);
    } else {
      TransitionInfo(hs, e, c);
    }
  }

  /** The entry is applied to its own object, and to no other than services of its host. */
  lemma ConcernedByHost(s: Setting, t: Machine, e: Entry, k: Key)
    requires s.Timeframe() != 0 && e.event.HasKey() && e.event.key in t.stateInfo && AllListed(t) && k in t.stateInfo
    ensures e.event.key in Concerned(s, t, e)
    ensures k in Concerned(s, t, e) ==> k == e.event.key || (k.ServiceKey? && e.event.Propagates())
  {
    if e.event.Propagates() {
      assert ListsServices(t.stateInfo, e.event.key.host, t.stateInfo[e.event.key].services);
    }
  }

  /** The record that a turn finds or creates. */
  ghost predicate Starts(s: Setting, m: Machine, e: Entry, k: Key, hs: HostServiceState) {
    if k in m.stateInfo then hs.key == k && hs.info == m.stateInfo[k].info
    else hs.key == k && !hs.info.inDowntime && !hs.info.isFlapping && (hs.info.state == 0 || hs.info.state == -1)
  }

  lemma TrackedQuiet(s: Setting, m: Machine, e: Entry, services: seq<Key>, k: Key)
    requires AllQuiet(m) && AllListed(m) && e.event.HasKey()
    requires k in Tracking(s, Checked(s, m, e), e.event.key, e.time, services).stateInfo
    ensures var hs := Tracking(s, Checked(s, m, e), e.event.key, e.time, services).stateInfo[k];
            Quiet(hs) && Starts(s, m, e, k, hs)
  {
    var c := Checked(s, m, e);
    if e.event.key !in c.stateInfo {
      NewObject(s, c, e.event.key, e.time, services);
    }
  }

  lemma TargetTurn(s: Setting, t: Machine, e: Entry, keys: set<Key>, k: Key)
    requires s.Timeframe() != 0 && k in t.stateInfo && Quiet(t.stateInfo[k]) && t.stateInfo[k].key == k
    requires e.event.HasKey() && e.event.key in keys
    requires k in keys ==> k == e.event.key || (k.ServiceKey? && e.event.Propagates())
    ensures var hs := Target(s, t, e, keys, k).hs; Quiet(hs) && TakesOver(t.stateInfo[k].info, e, k, hs.info)
  {
    if k in keys {
      RecordTurn(t.stateInfo[k], e, t.Ctx(s));
    }
  }

  /** The machine between the two parts of a turn: the object of the entry is tracked, and nothing else has happened. */
  ghost predicate FindsObjects(s: Setting, m: Machine, e: Entry, t: Machine) {
    && AllListed(t) && e.event.HasKey() && e.event.key in t.stateInfo && t.rows == m.rows
    && forall k | k in t.stateInfo ::
         Quiet(t.stateInfo[k]) && Starts(s, m, e, k, t.stateInfo[k]) && (k in m.stateInfo || k == e.event.key)
  }

  /** Some turn of that kind leads to the next machine. */
  ghost predicate TurnsFrom(s: Setting, t: Machine, e: Entry, m': Machine)
    requires s.Timeframe() != 0
  {
    e.event.HasKey() && e.event.key in t.stateInfo && UpdatedAt(s, t, e, Concerned(s, t, e), m')
  }

  lemma TrackedObjects(s: Setting, m: Machine, e: Entry, services: seq<Key>)
    requires AllQuiet(m) && AllListed(m) && e.event.HasKey()
    requires e.event.key in m.stateInfo ||
             (e.event.key.HostKey? ==> ListsServices(m.stateInfo, e.event.key.host, services))
    ensures FindsObjects(s, m, e, Tracking(s, Checked(s, m, e), e.event.key, e.time, services))
  {
    var c := Checked(s, m, e);
    CheckedSameLists(s, m, e);
    SameListsListed(m, c);
    TrackingKeepsListed(s, c, e.event.key, e.time, services);
    var t := Tracking(s, c, e.event.key, e.time, services);
    forall k | k in t.stateInfo
      ensures Quiet(t.stateInfo[k]) && Starts(s, m, e, k, t.stateInfo[k]) && (k in m.stateInfo || k == e.event.key)
    {
      TrackedQuiet(s, m, e, services, k);
      TrackingTracks(s, c, e.event.key, e.time, services, k);
    }
  }

  lemma TurnFinds(s: Setting, m: Machine, e: Entry, m': Machine) returns (t: Machine)
    requires s.Timeframe() != 0 && m' in Successors(s, m, e) && AllQuiet(m) && AllListed(m) && e.event.HasKey()
    ensures FindsObjects(s, m, e, t) && TurnsFrom(s, t, e, m')
  {
    var c := Checked(s, m, e);
    assert Handled(s, c, e, m');
    var services := m'.stateInfo[e.event.key].services;
    CheckedSameServices(s, m, e, e.event.key.host, services);
    TrackedObjects(s, m, e, services);
    t := Tracking(s, c, e.event.key, e.time, services);
  }

  lemma CheckedSameServices(s: Setting, m: Machine, e: Entry, host: string, services: seq<Key>)
    ensures Checked(s, m, e).stateInfo.Keys == m.stateInfo.Keys
    ensures ListsServices(Checked(s, m, e).stateInfo, host, services) <==> ListsServices(m.stateInfo, host, services)
  {
  }

  lemma HandledTurn(s: Setting, m: Machine, e: Entry, t: Machine, m': Machine, k: Key)
    requires s.Timeframe() != 0 && FindsObjects(s, m, e, t) && TurnsFrom(s, t, e, m') && k in m'.stateInfo
    ensures k in t.stateInfo && Quiet(m'.stateInfo[k])
    ensures TakesOver(t.stateInfo[k].info, e, k, m'.stateInfo[k].info)
  {
    TargetReached(s, t, e, Concerned(s, t, e), m', k);
    ConcernedByHost(s, t, e, k);
    TargetTurn(s, t, e, Concerned(s, t, e), k);
  }

  /** One turn: each object takes over what the entry tells of it, and nothing else. */
  lemma ObjectTurn(s: Setting, m: Machine, e: Entry, m': Machine, k: Key) returns (hs: HostServiceState)
    requires s.Timeframe() != 0 && m' in Successors(s, m, e) && AllQuiet(m) && AllListed(m) && e.event.HasKey()
    requires k in m'.stateInfo
    ensures Starts(s, m, e, k, hs) && Quiet(m'.stateInfo[k]) && TakesOver(hs.info, e, k, m'.stateInfo[k].info)
    ensures k !in m.stateInfo ==> e.event.key == k
  {
    var t := TurnFinds(s, m, e, m');
    HandledTurn(s, m, e, t, m', k);
    hs := t.stateInfo[k];
  }

  /** The machine before a timeperiod entry is applied to all records. */
  ghost predicate KeepsObjects(m: Machine, t: Machine) {
    && t.rows == m.rows && t.stateInfo.Keys == m.stateInfo.Keys
    && forall k | k in m.stateInfo ::
         Quiet(t.stateInfo[k]) && t.stateInfo[k].key == k && t.stateInfo[k].info == m.stateInfo[k].info
  }

  lemma CheckedKeepsObjects(s: Setting, m: Machine, e: Entry)
    requires AllQuiet(m) && AllListed(m)
    ensures KeepsObjects(m, Checked(s, m, e))
  {
  }

  lemma PeriodTurn(s: Setting, m: Machine, e: Entry, m': Machine) returns (t: Machine)
    requires s.Timeframe() != 0 && m' in Successors(s, m, e) && AllQuiet(m) && AllListed(m)
    requires e.event.TimeperiodTransition?
    ensures KeepsObjects(m, t) && UpdatedAt(s, t, e, t.stateInfo.Keys, m')
  {
    var c := Checked(s, m, e);
    assert Handled(s, c, e, m');
    CheckedKeepsObjects(s, m, e);
    t := c.(periods := c.periods[e.event.name := e.event.to]);
  }

  lemma IdleTurn(s: Setting, m: Machine, e: Entry, m': Machine)
    requires s.Timeframe() != 0 && m' in Successors(s, m, e) && AllQuiet(m) && AllListed(m)
    requires e.event.OtherEvent?
    ensures KeepsObjects(m, m')
  {
    assert Handled(s, Checked(s, m, e), e, m');
    CheckedKeepsObjects(s, m, e);
  }

  lemma OtherTurn(s: Setting, m: Machine, e: Entry, m': Machine, k: Key)
    requires s.Timeframe() != 0 && m' in Successors(s, m, e) && AllQuiet(m) && AllListed(m) && !e.event.HasKey()
    requires !e.event.InitialStatesLogged? && k in m'.stateInfo
    ensures k in m.stateInfo && Quiet(m'.stateInfo[k])
    ensures TakesOver(m.stateInfo[k].info, e, k, m'.stateInfo[k].info)
  {
    if e.event.TimeperiodTransition? {
      var t := PeriodTurn(s, m, e, m');
      TargetReached(s, t, e, t.stateInfo.Keys, m', k);
      RecordTurn(t.stateInfo[k], e, t.Ctx(s));
    } else {
      IdleTurn(s, m, e, m');
    }
  }

  ghost predicate NoRestart(log: seq<Entry>, n: nat) {
    n <= |log| && forall i | 0 <= i < n :: !log[i].event.InitialStatesLogged?
  }

  lemma TurnStaysCalm(s: Setting, m: Machine, e: Entry, m': Machine)
    requires s.Timeframe() != 0 && m' in Successors(s, m, e) && !m.inInitialStates && !e.event.InitialStatesLogged?
    ensures !m'.inInitialStates
  {
    assert Handled(s, Checked(s, m, e), e, m');
  }

  lemma {:induction false} RunStaysQuiet(s: Setting, log: seq<Entry>, run: seq<Machine>, n: nat)
    requires s.Timeframe() != 0 && IsRun(s, log, run) && n < |run| && NoRestart(log, n)
    ensures AllQuiet(run[n]) && AllListed(run[n])
  {
    RunKeepsListed(s, log, run);
    assert run[n] in run;
    if n > 0 {
      var m, e, m' := run[n - 1], log[n - 1], run[n];
      RunStaysQuiet(s, log, run, n - 1);
      assert TurnAt(s, log, run, n - 1);
      TurnStaysCalm(s, m, e, m');
      forall k | k in m'.stateInfo
        ensures Quiet(m'.stateInfo[k])
      {
        TurnKeepsQuiet(s, m, e, m', k);
      }
    }
  }

  lemma TurnKeepsQuiet(s: Setting, m: Machine, e: Entry, m': Machine, k: Key)
    requires s.Timeframe() != 0 && m' in Successors(s, m, e) && AllQuiet(m) && AllListed(m)
    requires !e.event.InitialStatesLogged? && k in m'.stateInfo
    ensures Quiet(m'.stateInfo[k])
  {
    if e.event.HasKey() {
      var _ := ObjectTurn(s, m, e, m', k);
    } else {
      OtherTurn(s, m, e, m', k);
    }
  }

  // ---------- Rows show what the log said last ----------

  /** Entry j is the last of the first n entries that tells the state of the object. */
  ghost predicate LastState(log: seq<Entry>, j: nat, n: nat, k: Key) {
    j < n <= |log| && TellsState(log[j], k) && forall i | j < i < n :: !TellsState(log[i], k)
  }

  ghost predicate LastDowntime(log: seq<Entry>, j: nat, n: nat, k: Key) {
    j < n <= |log| && TellsDowntime(log[j], k) && forall i | j < i < n :: !TellsDowntime(log[i], k)
  }

  ghost predicate LastFlapping(log: seq<Entry>, j: nat, n: nat, k: Key) {
    j < n <= |log| && TellsFlapping(log[j], k) && forall i | j < i < n :: !TellsFlapping(log[i], k)
  }

  /** State, downtime and flapping are what the first n entries said last about the object, if anything. */
  ghost predicate AsTold(log: seq<Entry>, n: nat, k: Key, info: StateInformation) {
    && (forall j: nat | LastState(log, j, n, k) :: info.state == log[j].event.state)
    && (forall j: nat | LastDowntime(log, j, n, k) :: info.inDowntime == log[j].event.started)
    && (forall j: nat | LastFlapping(log, j, n, k) :: info.isFlapping == log[j].event.started)
  }

  lemma AsToldNext(log: seq<Entry>, n: nat, k: Key, before: StateInformation, after: StateInformation)
    requires n < |log| && AsTold(log, n, k, before) && TakesOver(before, log[n], k, after)
    ensures AsTold(log, n + 1, k, after)
  {
    forall j: nat | LastState(log, j, n + 1, k)
      ensures after.state == log[j].event.state
    {
      assert j < n ==> LastState(log, j, n, k);
    }
    forall j: nat | LastDowntime(log, j, n + 1, k)
      ensures after.inDowntime == log[j].event.started
    {
      assert j < n ==> LastDowntime(log, j, n, k);
    }
    forall j: nat | LastFlapping(log, j, n + 1, k)
      ensures after.isFlapping == log[j].event.started
    {
      assert j < n ==> LastFlapping(log, j, n, k);
    }
  }

  lemma TurnTracks(s: Setting, m: Machine, e: Entry, m': Machine, k: Key)
    requires s.Timeframe() != 0 && m' in Successors(s, m, e)
    requires k in m.stateInfo || (e.event.HasKey() && e.event.key == k)
    ensures k in m'.stateInfo
  {
    var c := Checked(s, m, e);
    assert Handled(s, c, e, m');
    CheckedSameLists(s, m, e);
    if e.event.HasKey() {
      var services := m'.stateInfo[e.event.key].services;
      TrackingTracks(s, c, e.event.key, e.time, services, k);
    }
  }

  lemma TrackingTracks(s: Setting, c: Machine, key: Key, time: int, services: seq<Key>, k: Key)
    ensures k in Tracking(s, c, key, time, services).stateInfo <==> k in c.stateInfo || k == key
  {
  }

  /** An object that is not tracked has not been in the log. */
  lemma {:induction false} UntrackedIsUntold(s: Setting, log: seq<Entry>, run: seq<Machine>, n: nat, i: nat, k: Key)
    requires s.Timeframe() != 0 && IsRun(s, log, run) && i < n < |run|
    requires log[i].event.HasKey() && log[i].event.key == k
    ensures k in run[n].stateInfo
    decreases n
  {
    assert TurnAt(s, log, run, n - 1);
    if i + 1 < n {
      UntrackedIsUntold(s, log, run, n - 1, i, k);
    }
    TurnTracks(s, run[n - 1], log[n - 1], run[n], k);
  }

  lemma NothingTold(s: Setting, log: seq<Entry>, run: seq<Machine>, n: nat, k: Key, info: StateInformation)
    requires s.Timeframe() != 0 && IsRun(s, log, run) && n < |run| && k !in run[n].stateInfo
    ensures AsTold(log, n, k, info)
  {
    forall i: nat | i < n && log[i].event.HasKey()
      ensures log[i].event.key != k
    {
      if log[i].event.key == k {
        UntrackedIsUntold(s, log, run, n, i, k);
      }
    }
  }

  /** The turn finds or creates a record that knows what has been told before, and leaves one that knows the entry. */
  lemma TurnAsTold(s: Setting, log: seq<Entry>, run: seq<Machine>, n: nat, k: Key)
    requires s.Timeframe() != 0 && IsRun(s, log, run) && n + 1 < |run| && NoRestart(log, n + 1)
    requires k in run[n + 1].stateInfo
    requires k in run[n].stateInfo ==> AsTold(log, n, k, run[n].stateInfo[k].info)
    ensures AsTold(log, n + 1, k, run[n + 1].stateInfo[k].info)
  {
    RunStaysQuiet(s, log, run, n);
    assert TurnAt(s, log, run, n);
    var m, e, m' := run[n], log[n], run[n + 1];
    if e.event.HasKey() {
      var hs := ObjectTurn(s, m, e, m', k);
      if k !in m.stateInfo {
        NothingTold(s, log, run, n, k, hs.info);
      }
      AsToldNext(log, n, k, hs.info, m'.stateInfo[k].info);
    } else {
      OtherTurn(s, m, e, m', k);
      AsToldNext(log, n, k, m.stateInfo[k].info, m'.stateInfo[k].info);
    }
  }

  /** In every state of a run without a restart, each object is known as the log has told of it. */
  lemma {:induction false} KnownAsTold(s: Setting, log: seq<Entry>, run: seq<Machine>, n: nat, k: Key)
    requires s.Timeframe() != 0 && IsRun(s, log, run) && n < |run| && NoRestart(log, n) && k in run[n].stateInfo
    ensures AsTold(log, n, k, run[n].stateInfo[k].info)
  {
    if n > 0 {
      if k in run[n - 1].stateInfo {
        KnownAsTold(s, log, run, n - 1, k);
      }
      TurnAsTold(s, log, run, n - 1, k);
    }
  }

  /** The row ends with one of the first n entries, and shows what the log had told before that. */
  ghost predicate RowTold(log: seq<Entry>, n: nat, row: HostServiceState) {
    exists i: nat :: i < n <= |log| && row.until == log[i].time && AsTold(log, i, row.key, row.info)
  }

  ghost predicate AllRowsTold(log: seq<Entry>, n: nat, rows: seq<HostServiceState>) {
    forall r | r in rows :: RowTold(log, n, r)
  }

  lemma AsToldAlike(log: seq<Entry>, n: nat, k: Key, a: StateInformation, b: StateInformation)
    requires AsTold(log, n, k, a) && a.state == b.state && a.inDowntime == b.inDowntime && a.isFlapping == b.isFlapping
    ensures AsTold(log, n, k, b)
  {
  }

  /** What a record knew is what its rows show. */
  ghost predicate ShowsKnown(row: HostServiceState, hs: HostServiceState, until: int) {
    && row.key == hs.key && row.until == until && row.info.state == hs.info.state
    && row.info.inDowntime == hs.info.inDowntime && row.info.isFlapping == hs.info.isFlapping
  }

  lemma QuietRows(hs: HostServiceState, e: Entry, c: Context)
    requires c.timeframe != 0 && Quiet(hs) && (e.event.HasKey() || e.event.TimeperiodTransition?)
    ensures forall r | r in Updated(hs, e, c).rows :: ShowsKnown(r, hs, e.time)
  {
    var rows := Updated(hs, e, c).rows;
    if e.event.HasKey() {
      UpdatedRows(hs, e, c);
    } else {
      TransitionRows(hs, e, c);
    }
    assert forall i | 0 <= i < |rows| :: ShowsKnown(rows[i], hs, e.time);
  }

  lemma TargetRows(s: Setting, t: Machine, e: Entry, keys: set<Key>, m': Machine, k: Key)
    requires s.Timeframe() != 0 && UpdatedAt(s, t, e, keys, m') && k in t.stateInfo && Quiet(t.stateInfo[k])
    requires e.event.HasKey() || e.event.TimeperiodTransition?
    ensures forall r | r in RowsOf(m'.rows, k) :: r in RowsOf(t.rows, k) || ShowsKnown(r, t.stateInfo[k], e.time)
  {
    QuietRows(t.stateInfo[k], e, t.Ctx(s));
    assert k in Targets(s, t, e, keys);
    assert Follows(t, m', k, Targets(s, t, e, keys)[k]);
  }

  /** The rows of a turn show what the record found or created knows. */
  lemma TurnRows(s: Setting, m: Machine, e: Entry, m': Machine, k: Key) returns (hs: HostServiceState)
    requires s.Timeframe() != 0 && m' in Successors(s, m, e) && AllQuiet(m) && AllListed(m)
    requires k in m'.stateInfo && !e.event.InitialStatesLogged?
    ensures Starts(s, m, e, k, hs)
    ensures forall r | r in RowsOf(m'.rows, k) :: r in RowsOf(m.rows, k) || ShowsKnown(r, hs, e.time)
  {
    if e.event.HasKey() {
      var t := TurnFinds(s, m, e, m');
      TargetReached(s, t, e, Concerned(s, t, e), m', k);
      TargetRows(s, t, e, Concerned(s, t, e), m', k);
      hs := t.stateInfo[k];
    } else {
      hs := OtherRows(s, m, e, m', k);
    }
  }

  lemma OtherRows(s: Setting, m: Machine, e: Entry, m': Machine, k: Key) returns (hs: HostServiceState)
    requires s.Timeframe() != 0 && m' in Successors(s, m, e) && AllQuiet(m) && AllListed(m)
    requires k in m'.stateInfo && !e.event.InitialStatesLogged? && !e.event.HasKey()
    ensures Starts(s, m, e, k, hs)
    ensures forall r | r in RowsOf(m'.rows, k) :: r in RowsOf(m.rows, k) || ShowsKnown(r, hs, e.time)
  {
    if e.event.TimeperiodTransition? {
      var t := PeriodTurn(s, m, e, m');
      TargetReached(s, t, e, t.stateInfo.Keys, m', k);
      TargetRows(s, t, e, t.stateInfo.Keys, m', k);
      hs := t.stateInfo[k];
    } else {
      IdleTurn(s, m, e, m');
      hs := m.stateInfo[k];
    }
  }

  lemma RowToldLater(log: seq<Entry>, n: nat, row: HostServiceState)
    requires n < |log| && RowTold(log, n, row)
    ensures RowTold(log, n + 1, row)
  {
    var i: nat :| i < n <= |log| && row.until == log[i].time && AsTold(log, i, row.key, row.info);
    assert i < n + 1;
  }

  lemma TurnRowsTold(s: Setting, log: seq<Entry>, run: seq<Machine>, n: nat, k: Key)
    requires s.Timeframe() != 0 && IsRun(s, log, run) && n + 1 < |run| && NoRestart(log, n + 1)
    requires k in run[n + 1].stateInfo && AllRowsTold(log, n, RowsOf(run[n].rows, k))
    ensures AllRowsTold(log, n + 1, RowsOf(run[n + 1].rows, k))
  {
    RunStaysQuiet(s, log, run, n);
    assert TurnAt(s, log, run, n);
    var hs := TurnRows(s, run[n], log[n], run[n + 1], k);
    if k in run[n].stateInfo {
      KnownAsTold(s, log, run, n, k);
    } else {
      NothingTold(s, log, run, n, k, hs.info);
    }
    var rows := RowsOf(run[n + 1].rows, k);
    forall r | r in rows
      ensures RowTold(log, n + 1, r)
    {
      if r in RowsOf(run[n].rows, k) {
        RowToldLater(log, n, r);
      } else {
        AsToldAlike(log, n, k, hs.info, r.info);
      }
    }
  }

  lemma {:induction false} RowsTold(s: Setting, log: seq<Entry>, run: seq<Machine>, n: nat, k: Key)
    requires s.Timeframe() != 0 && IsRun(s, log, run) && n < |run| && NoRestart(log, n) && k in run[n].stateInfo
    ensures AllRowsTold(log, n, RowsOf(run[n].rows, k))
  {
    if n > 0 {
      if k in run[n - 1].stateInfo {
        RowsTold(s, log, run, n - 1, k);
      } else {
        NoRowsBefore(s, log, run, n - 1, k);
      }
      TurnRowsTold(s, log, run, n - 1, k);
    }
  }

  lemma NoRowsBefore(s: Setting, log: seq<Entry>, run: seq<Machine>, n: nat, k: Key)
    requires s.Timeframe() != 0 && IsRun(s, log, run) && n < |run| && k !in run[n].stateInfo
    ensures RowsOf(run[n].rows, k) == []
  {
    RunKeepsCovered(s, log, run);
    assert run[n] in run;
    NoRowsOf(run[n].rows, k);
  }

  /** The rows of a complete answer: each ends with an entry, or with the timeframe, and shows what was told before. */
  ghost predicate RowIsTold(s: Setting, log: seq<Entry>, n: nat, row: HostServiceState) {
    RowTold(log, n, row) || (row.until == s.until - 1 && AsTold(log, n, row.key, row.info))
  }

  /** In a complete answer without a restart, all rows show what the log had told of their objects when they ended. */
  lemma AnswerAsTold(s: Setting, log: seq<Entry>, run: seq<Machine>, m': Machine)
    requires s.Timeframe() != 0 && IsAnswer(s, log, run, m') && NoRestart(log, |run| - 1)
    ensures forall r | r in m'.rows :: RowIsTold(s, log, |run| - 1, r)
  {
    TimeIsConserved(s, log, run, m');
    forall r | r in m'.rows
      ensures RowIsTold(s, log, |run| - 1, r)
    {
      RowsOfElements(m'.rows, r.key);
      FinalRowsTold(s, log, run, m', r.key);
    }
  }

  lemma FinalRowsTold(s: Setting, log: seq<Entry>, run: seq<Machine>, m': Machine, k: Key)
    requires s.Timeframe() != 0 && IsAnswer(s, log, run, m') && NoRestart(log, |run| - 1) && k in m'.stateInfo
    ensures forall r | r in RowsOf(m'.rows, k) :: RowIsTold(s, log, |run| - 1, r)
  {
    var n := |run| - 1;
    FinalFollows(s, run[n], m', k);
    RunStaysQuiet(s, log, run, n);
    RowsTold(s, log, run, n, k);
    KnownAsTold(s, log, run, n, k);
    ClosedRows(run[n].stateInfo[k], s.until, run[n].Ctx(s).(onlyUpdate := false));
  }

  /** The rows about each object cover the whole timeframe. */
  ghost predicate AllConserved(s: Setting, keys: set<Key>, rows: seq<HostServiceState>)
    requires s.Timeframe() != 0
  {
    forall key | key in keys :: Conserved(s, RowsOf(rows, key), key)
  }

  lemma AnswerConserves(s: Setting, log: seq<Entry>, run: seq<Machine>, m': Machine)
    requires s.Timeframe() != 0 && IsAnswer(s, log, run, m')
    ensures AllConserved(s, m'.stateInfo.Keys, m'.rows)
  {
    TimeIsConserved(s, log, run, m');
  }

  /**
   What the rows of a complete answer say: all of a row's time is in the column of its state, so that each column of an
   object adds up to the time that it was in this state; and without a restart every row shows what the log had told.
   */
  ghost predicate TellsTheLog(s: Setting, log: seq<Entry>, n: nat, keys: set<Key>, rows: seq<HostServiceState>) {
    && (forall r | r in rows :: TimeInItsColumn(r, s.Timeframe()))
    && (forall key | key in keys :: ColumnsTellStates(RowsOf(rows, key)))
    && (NoRestart(log, n) ==> forall r | r in rows :: RowIsTold(s, log, n, r))
  }

  lemma AnswerTellsTheLog(s: Setting, log: seq<Entry>, run: seq<Machine>, m': Machine)
    requires s.Timeframe() != 0 && IsAnswer(s, log, run, m')
    ensures TellsTheLog(s, log, |run| - 1, m'.stateInfo.Keys, m'.rows)
  {
    AnswerInItsColumns(s, log, run, m');
    if NoRestart(log, |run| - 1) {
      AnswerAsTold(s, log, run, m');
    }
  }

  lemma RunInItsColumns(s: Setting, log: seq<Entry>, run: seq<Machine>)
    requires s.Timeframe() != 0 && IsRun(s, log, run)
    ensures forall r | r in run[|run| - 1].rows :: TimeInItsColumn(r, s.Timeframe())
  {
    RunKeepsCovered(s, log, run);
    var last := run[|run| - 1];
    assert last in run;
    RowsInTheirColumns(s, last);
  }
}
