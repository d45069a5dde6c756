/** GET statehist: the loops that build and report the state history (src/TableStateHistory.cc). */
module TableStateHistories {
  import opened Basics
  import opened HostServiceStates
  import opened StateHistory
  import opened KnownStates

  datatype Answer = InvalidRequest | Aborted | Complete

  class TableStateHistory {
    const s: Setting
    const continues: seq<HostServiceState> -> bool // whether the query wants more rows after those reported so far

    var stateInfo: map<Key, HostServiceState>
    var notificationPeriods: map<string, int>
    var rows: seq<HostServiceState>
    var abortQuery: bool

    constructor (s: Setting, continues: seq<HostServiceState> -> bool)
      ensures this.s == s && this.continues == continues
      ensures stateInfo == map[] && rows == [] && notificationPeriods == map[] && !abortQuery
    {
      this.s, this.continues := s, continues;
      stateInfo, notificationPeriods, rows, abortQuery := map[], map[], [], false;
    }

    ghost function Now(onlyUpdate: bool, inInitialStates: bool): Machine
      reads this
    {
      Machine(stateInfo, rows, notificationPeriods, onlyUpdate, inInitialStates)
    }

    /** The query is only stopped by its own answer to a row. */
    ghost predicate StoppedByQuery()
      reads this
    {
      abortQuery ==> rows != [] && !continues(rows)
    }

    /** `process`: reports the interval that ends now and opens the next one. */
    method Process(hs: HostServiceState) returns (next: HostServiceState)
      requires s.Timeframe() != 0
      modifies this`rows, this`abortQuery
      ensures next == Reported(hs, s.Timeframe()).(from := hs.until)
      ensures rows == old(rows) + [Reported(hs, s.Timeframe())]
      ensures abortQuery == !continues(rows)
    {
      var duration := hs.until - hs.from;
      var part := Share(duration, s.Timeframe());
      var durations, parts := NO_REPORT.durations, NO_REPORT.parts;
      match hs.info.state {
        case -1 => durations, parts := durations.(unmonitored := duration), parts.(unmonitored := part);
        case 0 => durations, parts := durations.(ok := duration), parts.(ok := part);
        case 1 => durations, parts := durations.(warning := duration), parts.(warning := part);
        case 2 => durations, parts := durations.(critical := duration), parts.(critical := part);
        case 3 => durations, parts := durations.(unknown := duration), parts.(unknown := part);
        case _ =>
      }
      var row := hs.(report := Report(duration, part, durations, parts));
      rows := rows + [row];
      abortQuery := !continues(rows);
      next := row.(from := row.until);
    }

    /**
     Reports what has been so far, unless the timeframe has not started, and
     continues with other state information.
     */
    method Record(hs: HostServiceState, info: StateInformation, onlyUpdate: bool, ghost before: seq<HostServiceState>,
                  ghost o: Outcome) returns (next: HostServiceState)
      requires s.Timeframe() != 0 && StoppedByQuery() && hs == o.hs && rows == before + o.rows
      modifies this`rows, this`abortQuery
      ensures StoppedByQuery()
      ensures var p := Recorded(o, info, Context(onlyUpdate, notificationPeriods, s.Timeframe()));
              next == p.hs && rows == before + p.rows
    {
      next := hs;
      if !onlyUpdate {
        next := Process(hs);
        Associative(before, o.rows, [Reported(hs, s.Timeframe())]);
      }
      next := next.(info := info);
    }

    /** The first part of `updateHostServiceState`: an entry about an object that had vanished. */
    method Revive(hs: HostServiceState, onlyUpdate: bool) returns (next: HostServiceState)
      requires s.Timeframe() != 0 && StoppedByQuery()
      modifies this`rows, this`abortQuery
      ensures StoppedByQuery()
      ensures var p := Revived(hs, Context(onlyUpdate, notificationPeriods, s.Timeframe()));
              next == p.hs && rows == old(rows) + p.rows
    {
      var inNotificationPeriod, inServicePeriod := 1, 1;
      if hs.notificationPeriod in notificationPeriods {
        inNotificationPeriod := notificationPeriods[hs.notificationPeriod];
      }
      if hs.servicePeriod in notificationPeriods {
        inServicePeriod := notificationPeriods[hs.servicePeriod];
      }
      var absent := hs.info.(state := -1, inDowntime := false, isFlapping := false,
                             inNotificationPeriod := inNotificationPeriod, inServicePeriod := inServicePeriod);
      var closed := hs.(time := hs.lastKnownTime, until := hs.lastKnownTime);
      assert rows + [] == rows;
      next := Record(closed, absent, onlyUpdate, rows, Outcome(closed, [], true));
      next := next.(mayNoLongerExist := false, hasVanished := false);
    }

    /** The switch of `updateHostServiceState` for entries about a host or service. */
    method ApplyObjectEvent(hs: HostServiceState, event: Event, onlyUpdate: bool, ghost before: seq<HostServiceState>,
                            ghost o: Outcome) returns (next: HostServiceState, changed: bool)
      requires s.Timeframe() != 0 && StoppedByQuery() && hs == o.hs && o.changed && rows == before + o.rows
      requires event.HasKey()
      modifies this`rows, this`abortQuery
      ensures StoppedByQuery()
      ensures var p := ObjectApplied(o, event, Context(onlyUpdate, notificationPeriods, s.Timeframe()));
              next == p.hs && rows == before + p.rows && changed == p.changed
    {
      next, changed := hs, true;
      var info, isHost := hs.info, hs.key.HostKey?;
      match event {
        case StateEvent(key, _, state) =>
          if key.ServiceKey? {
            if info.state != state {
              next := Record(hs, info.(state := state), onlyUpdate, before, o);
            }
          } else if isHost {
            if info.state != state {
              next := Record(hs, info.(state := state, hostDown := state > 0), onlyUpdate, before, o);
            } else {
              changed := false;
            }
          } else if info.hostDown != (state > 0) {
            next := Record(hs, info.(hostDown := state > 0), onlyUpdate, before, o);
          }
        case DowntimeEvent(key, started) =>
          if key.ServiceKey? {
            if info.inDowntime != started {
              next := Record(hs, info.(inDowntime := started), onlyUpdate, before, o);
            }
          } else if info.inHostDowntime != started {
            info := info.(inHostDowntime := started);
            next := Record(hs, if isHost then info.(inDowntime := started) else info, onlyUpdate, before, o);
          } else {
            changed := false;
          }
        case FlappingEvent(_, started) =>
          if info.isFlapping != started {
            next := Record(hs, info.(isFlapping := started), onlyUpdate, before, o);
          } else {
            changed := false;
          }
      }
    }

    /** The case of a timeperiod transition; a period that serves as both is reported twice. */
    method ApplyTransition(hs: HostServiceState, name: string, to: int, onlyUpdate: bool,
                           ghost before: seq<HostServiceState>, ghost o: Outcome) returns (next: HostServiceState)
      requires s.Timeframe() != 0 && StoppedByQuery() && hs == o.hs && rows == before + o.rows
      modifies this`rows, this`abortQuery
      ensures StoppedByQuery()
      ensures var p := Applied(o, TimeperiodTransition(name, to),
                               Context(onlyUpdate, notificationPeriods, s.Timeframe()));
              next == p.hs && rows == before + p.rows && o.changed == p.changed
    {
      next := hs;
      ghost var n := NotificationPeriodApplied(o, name, to, Context(onlyUpdate, notificationPeriods, s.Timeframe()));
      if name == hs.notificationPeriod && to != hs.info.inNotificationPeriod {
        next := Record(next, next.info.(inNotificationPeriod := to), onlyUpdate, before, o);
      }
      if name == next.servicePeriod && to != next.info.inServicePeriod {
        next := Record(next, next.info.(inServicePeriod := to), onlyUpdate, before, n);
      }
    }

    method UpdateHostServiceState(key: Key, e: Entry, onlyUpdate: bool) returns (changed: bool)
      requires s.Timeframe() != 0 && StoppedByQuery() && key in stateInfo
      requires e.event.HasKey() || e.event.TimeperiodTransition?
      modifies this`stateInfo, this`rows, this`abortQuery
      ensures StoppedByQuery()
      ensures var p := Updated(old(stateInfo)[key], e, Context(onlyUpdate, notificationPeriods, s.Timeframe()));
              stateInfo == old(stateInfo)[key := p.hs] && rows == old(rows) + p.rows && changed == p.changed
    {
      var hs := stateInfo[key];
      ghost var before := rows;
      ghost var o := Prepared(hs, e, Context(onlyUpdate, notificationPeriods, s.Timeframe()));
      changed := true;
      assert before + [] == before;
      if !e.event.TimeperiodTransition? && hs.hasVanished {
        hs := Revive(hs, onlyUpdate);
      }
      hs := hs.(time := e.time, until := e.time);
      if !e.event.TimeperiodTransition? {
        hs := hs.(mayNoLongerExist := false);
        hs, changed := ApplyObjectEvent(hs, e.event, onlyUpdate, before, o);
      } else {
        hs := ApplyTransition(hs, e.event.name, e.event.to, onlyUpdate, before, o);
      }
      stateInfo := stateInfo[key := hs];
    }

    /** The first entry in the timeframe: all intervals start there. */
    method EnterTimeframe()
      modifies this`stateInfo
      ensures stateInfo == map k | k in old(stateInfo) :: old(stateInfo)[k].(from := s.since, until := s.since)
    {
      ghost var before := stateInfo;
      var todo := stateInfo.Keys;
      while todo != {}
        invariant todo <= stateInfo.Keys == before.Keys
        invariant forall k | k in before ::
                    stateInfo[k] == if k in todo then before[k] else before[k].(from := s.since, until := s.since)
      {
        var k :| k in todo;
        stateInfo := stateInfo[k := stateInfo[k].(from := s.since, until := s.since)];
        todo := todo - {k};
      }
    }

    /** The initial states are over: what is still in doubt has vanished. */
    method MarkVanished()
      modifies this`stateInfo
      ensures stateInfo == map k | k in old(stateInfo) :: Marked(old(stateInfo)[k])
    {
      ghost var before := stateInfo;
      var todo := stateInfo.Keys;
      while todo != {}
        invariant todo <= stateInfo.Keys == before.Keys
        invariant forall k | k in before :: stateInfo[k] == if k in todo then before[k] else Marked(before[k])
      {
        var k :| k in todo;
        if stateInfo[k].mayNoLongerExist {
          stateInfo := stateInfo[k := stateInfo[k].(hasVanished := true)];
        }
        todo := todo - {k};
      }
    }

    /** The case of LOG_INITIAL_STATES: remembers when the objects were last seen. */
    method NoteRestart(time: int)
      modifies this`stateInfo
      ensures stateInfo == map k | k in old(stateInfo) :: Doubted(old(stateInfo)[k], time)
    {
      ghost var before := stateInfo;
      var todo := stateInfo.Keys;
      while todo != {}
        invariant todo <= stateInfo.Keys == before.Keys
        invariant forall k | k in before :: stateInfo[k] == if k in todo then before[k] else Doubted(before[k], time)
      {
        var k :| k in todo;
        if !stateInfo[k].hasVanished {
          stateInfo := stateInfo[k := stateInfo[k].(lastKnownTime := time, mayNoLongerExist := true)];
        }
        todo := todo - {k};
      }
    }

    /** Collects the tracked services of a host. */
    method ServicesOf(host: string) returns (services: seq<Key>)
      requires HostKey(host) !in stateInfo
      ensures ListsServices(stateInfo, host, services)
    {
      services := [];
      var todo := stateInfo.Keys;
      while todo != {}
        invariant todo <= stateInfo.Keys && NoDuplicates(services)
        invariant forall k :: k in services <==> k in stateInfo && k !in todo && k.ServiceKey? && k.host == host
      {
        var k :| k in todo;
        if k.host == host {
          services := services + [k];
        }
        todo := todo - {k};
      }
    }

    /** The record of an object that appears; `time` is that of the entry. */
    method NewRecord(key: Key, time: int, onlyUpdate: bool, ghost inInitialStates: bool, services: seq<Key>)
      returns (hs: HostServiceState)
      ensures hs == NewState(s, Now(onlyUpdate, inInitialStates), key, time, services)
    {
      var host := HostKey(key.host);
      var hostDown, inHostDowntime := false, false;
      var inNotificationPeriod, inServicePeriod := 1, 1;
      if s.notificationPeriodOf(key) in notificationPeriods {
        inNotificationPeriod := notificationPeriods[s.notificationPeriodOf(key)];
      }
      if s.servicePeriodOf(key) in notificationPeriods {
        inServicePeriod := notificationPeriods[s.servicePeriodOf(key)];
      }
      if key.ServiceKey? && host in stateInfo {
        hostDown, inHostDowntime := stateInfo[host].info.hostDown, stateInfo[host].info.inHostDowntime;
      }
      var state := 0;
      if !onlyUpdate && time - s.since > 60 * 10 {
        state := -1;
      }
      var info := StateInformation(hostDown, state, inNotificationPeriod, inServicePeriod, false, inHostDowntime,
                                   false);
      hs := HostServiceState(key, 0, s.since, 0, NO_REPORT, info, services, false, false, 0,
                             s.notificationPeriodOf(key), s.servicePeriodOf(key));
    }

    /** Finds or creates the record of an entry's object. */
    method Track(key: Key, time: int, onlyUpdate: bool, ghost inInitialStates: bool)
      modifies this`stateInfo
      ensures key in stateInfo
      ensures old(key in stateInfo) || (key.HostKey? ==>
                                        ListsServices(old(stateInfo), key.host, stateInfo[key].services))
      ensures Now(onlyUpdate, inInitialStates) ==
              Tracking(s, old(Now(onlyUpdate, inInitialStates)), key, time, stateInfo[key].services)
    {
      if key in stateInfo {
        return;
      }
      var services := [];
      var host := HostKey(key.host);
      if key.HostKey? {
        services := ServicesOf(key.host);
      }
      var hs := NewRecord(key, time, onlyUpdate, inInitialStates, services);
      if key.ServiceKey? && host in stateInfo {
        stateInfo := stateInfo[host := stateInfo[host].(services := stateInfo[host].services + [key])];
      }
      stateInfo := stateInfo[key := hs];
    }

    /** Applies an entry to one more object. */
    method UpdateNext(key: Key, e: Entry, onlyUpdate: bool, ghost m: Machine,
                      ghost done: set<Key>) returns (changed: bool)
      requires s.Timeframe() != 0 && StoppedByQuery() && key in m.stateInfo && key !in done &&
               m.onlyUpdate == onlyUpdate
      requires m.stateInfo[key].key == key
      requires UpdatedAt(s, m, e, done, Now(onlyUpdate, m.inInitialStates))
      requires e.event.HasKey() || e.event.TimeperiodTransition?
      modifies this`stateInfo, this`rows, this`abortQuery
      ensures StoppedByQuery() && UpdatedAt(s, m, e, done + {key}, Now(onlyUpdate, m.inInitialStates))
      ensures changed == Updated(m.stateInfo[key], e, m.Ctx(s)).changed
    {
      ghost var m1, o := Now(onlyUpdate, m.inInitialStates), Updated(m.stateInfo[key], e, m.Ctx(s));
      NotYetUpdated(s, m, e, done, m1, key);
      changed := UpdateHostServiceState(key, e, onlyUpdate);
      UpdatedAtStep(s, m, e, done, m1, key, Now(onlyUpdate, m.inInitialStates), o);
    }

    /** One listed service is updated. */
    method UpdateListedService(services: seq<Key>, i: nat, e: Entry, onlyUpdate: bool, ghost m: Machine,
                               ghost host: Key, ghost before: set<Key>) returns (ghost done: set<Key>)
      requires s.Timeframe() != 0 && StoppedByQuery() && m.onlyUpdate == onlyUpdate && e.event.HasKey()
      requires NoDuplicates(services) && host !in services && i < |services|
      requires services[i] in m.stateInfo && m.stateInfo[services[i]].key == services[i]
      requires UpdatedAt(s, m, e, before, Now(onlyUpdate, m.inInitialStates)) && Reached(before, host, services, i)
      modifies this`stateInfo, this`rows, this`abortQuery
      ensures StoppedByQuery() && UpdatedAt(s, m, e, done, Now(onlyUpdate, m.inInitialStates))
      ensures Reached(done, host, services, i + 1)
    {
      ReachedNext(before, host, services, i);
      var _ := UpdateNext(services[i], e, onlyUpdate, m, before);
      done := before + {services[i]};
    }

    /** A changed host passes the entry on to its services. */
    method UpdateServices(services: seq<Key>, e: Entry, onlyUpdate: bool, ghost m: Machine, ghost host: Key)
      requires s.Timeframe() != 0 && StoppedByQuery() && m.onlyUpdate == onlyUpdate && e.event.HasKey()
      requires NoDuplicates(services)
      requires forall k | k in services :: k in m.stateInfo && k.ServiceKey? && m.stateInfo[k].key == k
      requires host.HostKey? && UpdatedAt(s, m, e, {host}, Now(onlyUpdate, m.inInitialStates))
      modifies this`stateInfo, this`rows, this`abortQuery
      ensures StoppedByQuery()
      ensures UpdatedAt(s, m, e, {host} + (set k | k in services), Now(onlyUpdate, m.inInitialStates))
    {
      ghost var done := {host};
      ReachedNone(host, services);
      assert host !in services;
      for i := 0 to |services|
        invariant StoppedByQuery() && UpdatedAt(s, m, e, done, Now(onlyUpdate, m.inInitialStates))
        invariant Reached(done, host, services, i)
      {
        done := UpdateListedService(services, i, e, onlyUpdate, m, host, done);
      }
      ReachedAll(done, host, services);
    }

    /** A timeperiod transition is applied to every record. */
    method UpdateAll(e: Entry, onlyUpdate: bool, ghost m: Machine)
      requires s.Timeframe() != 0 && StoppedByQuery() && m.onlyUpdate == onlyUpdate && e.event.TimeperiodTransition?
      requires m == Now(onlyUpdate, m.inInitialStates) && forall k | k in m.stateInfo :: m.stateInfo[k].key == k
      modifies this`stateInfo, this`rows, this`abortQuery
      ensures StoppedByQuery() && UpdatedAt(s, m, e, m.stateInfo.Keys, Now(onlyUpdate, m.inInitialStates))
    {
      var todo := stateInfo.Keys;
      ghost var done := {};
      UpdatedAtStart(s, m, e);
      while todo != {}
        invariant StoppedByQuery() && Split(todo, done, m.stateInfo.Keys)
        invariant UpdatedAt(s, m, e, done, Now(onlyUpdate, m.inInitialStates))
      {
        var k :| k in todo;
        var _ := UpdateNext(k, e, onlyUpdate, m, done);
        todo, done := todo - {k}, done + {k};
      }
    }

    /** The host of the entry passes a change on to the services that it lists. */
    method UpdateListed(key: Key, e: Entry, onlyUpdate: bool, ghost t: Machine)
      requires s.Timeframe() != 0 && StoppedByQuery() && e.event.HasKey() && key in t.stateInfo && AllListed(t)
      requires key.HostKey? && t.onlyUpdate == onlyUpdate
      requires UpdatedAt(s, t, e, {key}, Now(onlyUpdate, t.inInitialStates))
      modifies this`stateInfo, this`rows, this`abortQuery
      ensures StoppedByQuery()
      ensures UpdatedAt(s, t, e, {key} + (set k | k in t.stateInfo[key].services), Now(onlyUpdate, t.inInitialStates))
    {
      UpdatedAtSameLists(s, t, e, {key}, Now(onlyUpdate, t.inInitialStates));
      assert ListsServices(t.stateInfo, key.host, t.stateInfo[key].services);
      UpdateServices(stateInfo[key].services, e, onlyUpdate, t, key);
    }

    /** Applies an entry to its object and, if a host has changed, to its services. */
    method UpdateConcerned(e: Entry, onlyUpdate: bool, ghost t: Machine)
      requires s.Timeframe() != 0 && StoppedByQuery() && e.event.HasKey() && e.event.key in t.stateInfo && AllListed(t)
      requires t == Now(onlyUpdate, t.inInitialStates)
      modifies this`stateInfo, this`rows, this`abortQuery
      ensures StoppedByQuery() && UpdatedAt(s, t, e, Concerned(s, t, e), Now(onlyUpdate, t.inInitialStates))
    {
      var key := e.event.key;
      UpdatedAtStart(s, t, e);
      var changed := UpdateNext(key, e, onlyUpdate, t, {});
      assert {} + {key} == {key};
      if e.event.Propagates() && changed {
        UpdateListed(key, e, onlyUpdate, t);
      }
    }

    /** An entry about a host or service. */
    method HandleObject(e: Entry, onlyUpdate: bool, ghost inInitialStates: bool)
      requires s.Timeframe() != 0 && StoppedByQuery() && e.event.HasKey() && AllListed(Now(onlyUpdate, inInitialStates))
      modifies this`stateInfo, this`rows, this`abortQuery
      ensures StoppedByQuery()
      ensures Handled(s, old(Now(onlyUpdate, inInitialStates)), e, Now(onlyUpdate, inInitialStates))
    {
      ghost var c := Now(onlyUpdate, inInitialStates);
      Track(e.event.key, e.time, onlyUpdate, inInitialStates);
      ghost var t := Now(onlyUpdate, inInitialStates);
      TrackingKeepsListed(s, c, e.event.key, e.time, t.stateInfo[e.event.key].services);
      UpdateConcerned(e, onlyUpdate, t);
      UpdatedAtSameLists(s, t, e, Concerned(s, t, e), Now(onlyUpdate, inInitialStates));
    }

    /** The switch of the main loop. */
    method HandleEntry(e: Entry, onlyUpdate: bool, inInitialStates: bool) returns (inInitialStates': bool)
      requires s.Timeframe() != 0 && StoppedByQuery() && AllListed(Now(onlyUpdate, inInitialStates))
      modifies this`stateInfo, this`rows, this`abortQuery, this`notificationPeriods
      ensures StoppedByQuery()
      ensures Handled(s, old(Now(onlyUpdate, inInitialStates)), e, Now(onlyUpdate, inInitialStates'))
    {
      inInitialStates' := inInitialStates;
      match e.event {
        case TimeperiodTransition(name, to) =>
          notificationPeriods := notificationPeriods[name := to];
          UpdateAll(e, onlyUpdate, Now(onlyUpdate, inInitialStates));
        case InitialStatesLogged =>
          NoteRestart(e.time);
          inInitialStates' := true;
        case OtherEvent(_) =>
        case _ =>
          HandleObject(e, onlyUpdate, inInitialStates);
      }
    }

    /** One turn of the main loop. */
    method Turn(e: Entry, onlyUpdate: bool, inInitialStates: bool) returns (onlyUpdate': bool, inInitialStates': bool)
      requires s.Timeframe() != 0 && StoppedByQuery() && AllListed(Now(onlyUpdate, inInitialStates))
      modifies this`stateInfo, this`rows, this`abortQuery, this`notificationPeriods
      ensures StoppedByQuery()
      ensures Now(onlyUpdate', inInitialStates') in Successors(s, old(Now(onlyUpdate, inInitialStates)), e)
    {
      ghost var m := Now(onlyUpdate, inInitialStates);
      onlyUpdate', inInitialStates' := onlyUpdate, inInitialStates;
      if onlyUpdate && e.time >= s.since {
        EnterTimeframe();
        onlyUpdate' := false;
      }
      if inInitialStates && !e.event.IsInitialState() {
        MarkVanished();
        inInitialStates' := false;
      }
      assert Now(onlyUpdate', inInitialStates') == Checked(s, m, e);
      CheckedSameLists(s, m, e);
      SameListsListed(m, Checked(s, m, e));
      inInitialStates' := HandleEntry(e, onlyUpdate', inInitialStates');
    }

    /** The final reports about one object. */
    method Close(key: Key)
      requires s.Timeframe() != 0 && key in stateInfo
      modifies this`stateInfo, this`rows, this`abortQuery
      ensures var o := Closed(old(stateInfo)[key], s.until, Context(false, notificationPeriods, s.Timeframe()));
              stateInfo == old(stateInfo)[key := o.hs] && rows == old(rows) + o.rows
    {
      var hs := stateInfo[key];
      if hs.mayNoLongerExist {
        hs := Process(hs.(time := hs.lastKnownTime, until := hs.lastKnownTime));
        hs := hs.(info := hs.info.(state := -1), until := hs.time);
      }
      hs := hs.(time := s.until - 1, until := s.until - 1);
      hs := Process(hs);
      stateInfo := stateInfo[key := hs];
    }

    method CloseNext(key: Key, ghost m: Machine, ghost done: set<Key>)
      requires s.Timeframe() != 0 && key in m.stateInfo && key !in done && m.stateInfo[key].key == key
      requires m.periods == notificationPeriods && ClosedAt(s, m, done, Now(m.onlyUpdate, m.inInitialStates))
      modifies this`stateInfo, this`rows, this`abortQuery
      ensures ClosedAt(s, m, done + {key}, Now(m.onlyUpdate, m.inInitialStates))
    {
      ghost var m1, o := Now(m.onlyUpdate, m.inInitialStates), End(s, m, {key}, key);
      NotYetClosed(s, m, done, m1, key);
      Close(key);
      ClosedAtStep(s, m, done, m1, key, Now(m.onlyUpdate, m.inInitialStates), o);
    }

    /** The final reports about all objects. */
    method CloseAll(ghost m: Machine) returns (ghost final: Machine)
      requires s.Timeframe() != 0 && m == Now(m.onlyUpdate, m.inInitialStates)
      requires forall k | k in m.stateInfo :: m.stateInfo[k].key == k
      modifies this`stateInfo, this`rows, this`abortQuery
      ensures Finals(s, m, final) && rows == final.rows && stateInfo == final.stateInfo
    {
      var todo := stateInfo.Keys;
      ghost var done := {};
      ClosedAtStart(s, m);
      while todo != {}
        invariant Split(todo, done, m.stateInfo.Keys)
        invariant ClosedAt(s, m, done, Now(m.onlyUpdate, m.inInitialStates))
      {
        var k :| k in todo;
        CloseNext(k, m, done);
        todo, done := todo - {k}, done + {k};
      }
      final := Now(m.onlyUpdate, m.inInitialStates);
    }

    /**
     `answerQuery` on the entries that the log iterator yields. `run` are the states that the main loop goes through,
     and `final` the one behind the final reports; the answer is complete unless the query stops it.
     */
    method AnswerQuery(log: seq<Entry>) returns (answer: Answer, ghost run: seq<Machine>, ghost final: Machine)
      requires stateInfo == map[] && rows == []
      modifies this
      ensures answer == InvalidRequest <==> s.since == 0 || s.Timeframe() == 0
      ensures answer == Complete ==> IsAnswer(s, log, run, final) && rows == final.rows && stateInfo == final.stateInfo
      ensures answer != InvalidRequest ==> run != [] && run[0].periods == old(notificationPeriods)
      ensures answer == Complete ==> AllConserved(s, stateInfo.Keys, rows)
      ensures answer == Complete ==> TellsTheLog(s, log, |run| - 1, stateInfo.Keys, rows)
      ensures answer == Aborted ==> IsRun(s, log, run) && rows != [] && !continues(rows)
      ensures answer == Aborted ==> forall r | r in rows :: TimeInItsColumn(r, s.Timeframe())
    {
      abortQuery := false;
      run, final := [], START;
      if s.since == 0 || s.Timeframe() == 0 {
        return InvalidRequest, run, final;
      }
      run := MainLoop(log);
      if abortQuery {
        RunInItsColumns(s, log, run);
        return Aborted, run, final;
      }
      final := Conclude(log, run);
      answer := Complete;
    }

    /** What `answerQuery` does behind the main loop. */
    method Conclude(log: seq<Entry>, ghost run: seq<Machine>) returns (ghost final: Machine)
      requires s.Timeframe() != 0 && IsRun(s, log, run) && (|run| <= |log| ==> s.until <= log[|run| - 1].time)
      requires var last := run[|run| - 1]; last == Now(last.onlyUpdate, last.inInitialStates)
      modifies this`stateInfo, this`rows, this`abortQuery
      ensures IsAnswer(s, log, run, final) && rows == final.rows && stateInfo == final.stateInfo
      ensures AllConserved(s, stateInfo.Keys, rows) && TellsTheLog(s, log, |run| - 1, stateInfo.Keys, rows)
    {
      RunKeepsListed(s, log, run);
      final := CloseAll(run[|run| - 1]);
      AnswerConserves(s, log, run, final);
      AnswerTellsTheLog(s, log, run, final);
    }

    /** The main loop: up to the end of the log or of the timeframe, or until the query has had enough. */
    method MainLoop(log: seq<Entry>) returns (ghost run: seq<Machine>)
      requires s.Timeframe() != 0 && stateInfo == map[] && rows == [] && !abortQuery
      modifies this`stateInfo, this`rows, this`abortQuery, this`notificationPeriods
      ensures StoppedByQuery() && IsRun(s, log, run) && run[0].periods == old(notificationPeriods)
      ensures var last := run[|run| - 1]; last == Now(last.onlyUpdate, last.inInitialStates)
      ensures abortQuery || |run| == |log| + 1 || log[|run| - 1].time >= s.until
    {
      var onlyUpdate, inInitialStates := true, false;
      run := [Now(true, false)];
      var i := 0;
      while i < |log| && !abortQuery && log[i].time < s.until
        invariant 0 <= i <= |log| && StoppedByQuery() && |run| == i + 1 && IsRun(s, log, run)
        invariant run[0].periods == old(notificationPeriods)
        invariant run[i] == Now(onlyUpdate, inInitialStates)
      {
        RunKeepsListed(s, log, run);
        assert run[i] in run;
        onlyUpdate, inInitialStates := Turn(log[i], onlyUpdate, inInitialStates);
        RunGrows(s, log, run, Now(onlyUpdate, inInitialStates));
        run := run + [Now(onlyUpdate, inInitialStates)];
        i := i + 1;
      }
    }
  }

  lemma RunGrows(s: Setting, log: seq<Entry>, run: seq<Machine>, m: Machine)
    requires s.Timeframe() != 0 && IsRun(s, log, run) && |run| <= |log|
    requires log[|run| - 1].time < s.until && m in Successors(s, run[|run| - 1], log[|run| - 1])
    ensures IsRun(s, log, run + [m])
  {
    var grown := run + [m];
    forall i: nat | i + 1 < |grown|
      ensures TurnAt(s, log, grown, i)
    {
      assert grown[i] == run[i];
      assert i + 1 < |run| ==> TurnAt(s, log, run, i);
      assert grown[i + 1] == if i + 1 < |run| then run[i + 1] else m;
    }
  }

  ghost predicate Split(todo: set<Key>, done: set<Key>, all: set<Key>) {
    forall k :: (k in all <==> k in todo || k in done) && !(k in todo && k in done)
  }

  /** The host and the first i services of its list. */
  ghost predicate Reached(done: set<Key>, host: Key, services: seq<Key>, i: nat) {
    i <= |services| && forall k :: k in done <==> k == host || k in services[..i]
  }

  lemma ReachedNone(host: Key, services: seq<Key>)
    ensures Reached({host}, host, services, 0)
  {
  }

  lemma ReachedNext(done: set<Key>, host: Key, services: seq<Key>, i: nat)
    requires i < |services| && Reached(done, host, services, i) && NoDuplicates(services) && host !in services
    ensures services[i] in services && services[i] !in done && Reached(done + {services[i]}, host, services, i + 1)
  {
    assert services[..i + 1] == services[..i] + [services[i]];
  }

  lemma ReachedAll(done: set<Key>, host: Key, services: seq<Key>)
    requires Reached(done, host, services, |services|)
    ensures done == {host} + set k | k in services
  {
    assert services[..|services|] == services;
  }

  lemma RowsOfAppend(a: seq<HostServiceState>, b: seq<HostServiceState>, key: Key)
    ensures RowsOf(a + b, key) == RowsOf(a, key) + RowsOf(b, key)
  {
    FilteredAppend((r: HostServiceState) => r.key == key, a, b);
  }

  lemma RowsOfOwn(rows: seq<HostServiceState>, key: Key)
    requires forall r | r in rows :: r.key == key
    ensures RowsOf(rows, key) == rows
  {
    AllFiltered((r: HostServiceState) => r.key == key, rows);
  }

  lemma UpdatedAtStart(s: Setting, m: Machine, e: Entry)
    requires s.Timeframe() != 0
    ensures UpdatedAt(s, m, e, {}, m)
  {
    forall k | k in m.stateInfo
      ensures RowsOf(m.rows, k) + [] == RowsOf(m.rows, k)
    {
    }
  }

  lemma OwnRecordFollows(m: Machine, m1: Machine, m2: Machine, key: Key, o: Outcome)
    requires key in m.stateInfo && key in m1.stateInfo && Follows(m, m1, key, Outcome(m.stateInfo[key], [], true))
    requires m2 == m1.(stateInfo := m1.stateInfo[key := o.hs], rows := m1.rows + o.rows)
    requires forall r | r in o.rows :: r.key == key
    ensures Follows(m, m2, key, o)
  {
    RowsOfAppend(m1.rows, o.rows, key);
    RowsOfOwn(o.rows, key);
    NothingAdded(RowsOf(m.rows, key));
  }

  lemma OtherRecordFollows(m: Machine, m1: Machine, m2: Machine, key: Key, o: Outcome, k: Key, p: Outcome)
    requires k in m1.stateInfo && k != key && Follows(m, m1, k, p)
    requires m2 == m1.(stateInfo := m1.stateInfo[key := o.hs], rows := m1.rows + o.rows)
    requires forall r | r in o.rows :: r.key == key
    ensures Follows(m, m2, k, p)
  {
    RowsOfAppend(m1.rows, o.rows, k);
    NoRowsOf(o.rows, k);
    assert RowsOf(m1.rows, k) + [] == RowsOf(m1.rows, k);
  }

  lemma FollowStep(m: Machine, m1: Machine, m2: Machine, key: Key, o: Outcome, targets: map<Key, Outcome>)
    requires AllFollow(m, m1, targets) && key in targets && key in m.stateInfo
    requires targets[key] == Outcome(m.stateInfo[key], [], true) && forall r | r in o.rows :: r.key == key
    requires m2 == m1.(stateInfo := m1.stateInfo[key := o.hs], rows := m1.rows + o.rows)
    ensures AllFollow(m, m2, targets[key := o])
  {
    assert Follows(m, m1, key, targets[key]);
    OwnRecordFollows(m, m1, m2, key, o);
    forall k | k in targets && k != key
      ensures Follows(m, m2, k, targets[k])
    {
      OtherRecordFollows(m, m1, m2, key, o, k, targets[k]);
    }
  }

  lemma TargetsStep(s: Setting, m: Machine, e: Entry, done: set<Key>, key: Key, o: Outcome)
    requires s.Timeframe() != 0 && key in m.stateInfo && o == Updated(m.stateInfo[key], e, m.Ctx(s))
    ensures Targets(s, m, e, done + {key}) == Targets(s, m, e, done)[key := o]
  {
    forall k | k in m.stateInfo
      ensures Target(s, m, e, done + {key}, k) == if k == key then o else Target(s, m, e, done, k)
    {
    }
  }

  lemma UpdatedAtStep(s: Setting, m: Machine, e: Entry, done: set<Key>, m1: Machine, key: Key, m2: Machine, o: Outcome)
    requires s.Timeframe() != 0 && UpdatedAt(s, m, e, done, m1) && key in m.stateInfo && key !in done
    requires m.stateInfo[key].key == key && o == Updated(m.stateInfo[key], e, m.Ctx(s))
    requires m2 == m1.(stateInfo := m1.stateInfo[key := o.hs], rows := m1.rows + o.rows)
    ensures UpdatedAt(s, m, e, done + {key}, m2)
  {
    UpdatedCarries(m.stateInfo[key], e, m.Ctx(s));
    FollowStep(m, m1, m2, key, o, Targets(s, m, e, done));
    TargetsStep(s, m, e, done, key, o);
  }

  lemma NotYetUpdated(s: Setting, m: Machine, e: Entry, done: set<Key>, m1: Machine, key: Key)
    requires s.Timeframe() != 0 && UpdatedAt(s, m, e, done, m1) && key in m.stateInfo && key !in done
    ensures key in m1.stateInfo && m1.stateInfo[key] == m.stateInfo[key] && m1.Ctx(s) == m.Ctx(s)
  {
    assert key in Targets(s, m, e, done);
    assert Follows(m, m1, key, Targets(s, m, e, done)[key]);
  }

  lemma ClosedAtStart(s: Setting, m: Machine)
    requires s.Timeframe() != 0
    ensures ClosedAt(s, m, {}, m)
  {
    forall k | k in m.stateInfo
      ensures RowsOf(m.rows, k) + [] == RowsOf(m.rows, k)
    {
    }
  }

  lemma NotYetClosed(s: Setting, m: Machine, done: set<Key>, m1: Machine, key: Key)
    requires s.Timeframe() != 0 && ClosedAt(s, m, done, m1) && key in m.stateInfo && key !in done
    ensures key in m1.stateInfo && m1.stateInfo[key] == m.stateInfo[key]
  {
    assert key in Ends(s, m, done);
    assert Follows(m, m1, key, Ends(s, m, done)[key]);
  }

  lemma EndsStep(s: Setting, m: Machine, done: set<Key>, key: Key)
    requires s.Timeframe() != 0 && key in m.stateInfo
    ensures Ends(s, m, done + {key}) == Ends(s, m, done)[key := End(s, m, {key}, key)]
  {
    forall k | k in m.stateInfo
      ensures End(s, m, done + {key}, k) == if k == key then End(s, m, {key}, key) else End(s, m, done, k)
    {
    }
  }

  lemma ClosedAtStep(s: Setting, m: Machine, done: set<Key>, m1: Machine, key: Key, m2: Machine, o: Outcome)
    requires s.Timeframe() != 0 && ClosedAt(s, m, done, m1) && key in m.stateInfo && key !in done
    requires m.stateInfo[key].key == key && o == End(s, m, {key}, key)
    requires m2 == m1.(stateInfo := m1.stateInfo[key := o.hs], rows := m1.rows + o.rows)
    ensures ClosedAt(s, m, done + {key}, m2)
  {
    ClosedCarries(m.stateInfo[key], s.until, m.Ctx(s).(onlyUpdate := false));
    FollowStep(m, m1, m2, key, o, Ends(s, m, done));
    EndsStep(s, m, done, key);
  }
}
