/** The state history as a state machine over log entries, and what all its runs keep (src/TableStateHistory.cc). */
module StateHistory {
  import opened Basics
  import opened HostServiceStates

  /** The query's timeframe, and the timeperiods that the monitoring core assigns to hosts and services. */
  datatype Setting = Setting(since: int, until: int, notificationPeriodOf: Key -> string,
                             servicePeriodOf: Key -> string)
  {
    function Timeframe(): int {
      until - since - 1
    }
  }

  datatype Machine = Machine(
    stateInfo: map<Key, HostServiceState>, rows: seq<HostServiceState>, periods: map<string, int>,
    onlyUpdate: bool, inInitialStates: bool)
  {
    function Ctx(s: Setting): Context {
      Context(onlyUpdate, periods, s.Timeframe())
    }
  }

  const START := Machine(map[], [], map[], true, false)

  // ---------- One step ----------

  /** The first entry in the timeframe starts all intervals. */
  function Entered(s: Setting, m: Machine, e: Entry): Machine {
    if !m.onlyUpdate || e.time < s.since then m
    else m.(onlyUpdate := false,
            stateInfo := map k | k in m.stateInfo :: m.stateInfo[k].(from := s.since, until := s.since))
  }

  function Marked(hs: HostServiceState): HostServiceState {
    hs.(hasVanished := hs.hasVanished || hs.mayNoLongerExist)
  }

  /** The first entry behind the initial states: what has not been among them has vanished. */
  function VanishedMarked(m: Machine, e: Entry): Machine {
    if !m.inInitialStates || e.event.IsInitialState() then m
    else m.(inInitialStates := false, stateInfo := map k | k in m.stateInfo :: Marked(m.stateInfo[k]))
  }

  function Doubted(hs: HostServiceState, time: int): HostServiceState {
    if hs.hasVanished then hs else hs.(lastKnownTime := time, mayNoLongerExist := true)
  }

  /** A restart of the monitoring core puts every object in doubt. */
  function Restarted(m: Machine, time: int): Machine {
    m.(inInitialStates := true, stateInfo := map k | k in m.stateInfo :: Doubted(m.stateInfo[k], time))
  }

  const NO_REPORT := Report(0, 0.0, PerState(0, 0, 0, 0, 0), PerState(0.0, 0.0, 0.0, 0.0, 0.0))

  /** The record of an object that appears in the log; a service takes over two columns of its host. */
  function NewState(s: Setting, m: Machine, key: Key, time: int, services: seq<Key>): HostServiceState {
    var host := HostKey(key.host);
    var known := key.ServiceKey? && host in m.stateInfo;
    var info := StateInformation(
      known && m.stateInfo[host].info.hostDown, if !m.onlyUpdate && time - s.since > 600 then -1 else 0,
      PeriodStatus(m.periods, s.notificationPeriodOf(key)), PeriodStatus(m.periods, s.servicePeriodOf(key)),
      false, known && m.stateInfo[host].info.inHostDowntime, false);
    HostServiceState(key, 0, s.since, 0, NO_REPORT, info, services, false, false, 0,
                     s.notificationPeriodOf(key), s.servicePeriodOf(key))
  }

  /** A service is added to the list of its host, if there is one. */
  function Listed(stateInfo: map<Key, HostServiceState>, key: Key): map<Key, HostServiceState> {
    var host := HostKey(key.host);
    if key.ServiceKey? && host in stateInfo then
      stateInfo[host := stateInfo[host].(services := stateInfo[host].services + [key])]
    else stateInfo
  }

  /** The object of an entry is tracked; `services` is the list of a host that is tracked from now on. */
  function Tracking(s: Setting, m: Machine, key: Key, time: int, services: seq<Key>): Machine {
    if key in m.stateInfo then m
    else
      var hs := NewState(s, m, key, time, if key.HostKey? then services else []);
      m.(stateInfo := Listed(m.stateInfo, key)[key := hs])
  }

  /** The list holds each tracked service of the host once. */
  ghost predicate ListsServices(stateInfo: map<Key, HostServiceState>, host: string, services: seq<Key>) {
    && NoDuplicates(services)
    && forall k :: k in services <==> k in stateInfo && k.ServiceKey? && k.host == host
  }

  /** The rows about one object. */
  ghost function RowsOf(rows: seq<HostServiceState>, key: Key): seq<HostServiceState> {
    Filtered((r: HostServiceState) => r.key == key, rows)
  }

  /** One record and the rows about it follow an update function. */
  ghost predicate Follows(m: Machine, m': Machine, k: Key, o: Outcome)
    requires k in m'.stateInfo
  {
    m'.stateInfo[k] == o.hs && RowsOf(m'.rows, k) == RowsOf(m.rows, k) + o.rows
  }

  function Target(s: Setting, m: Machine, e: Entry, keys: set<Key>, k: Key): Outcome
    requires s.Timeframe() != 0 && k in m.stateInfo
  {
    if k in keys then Updated(m.stateInfo[k], e, m.Ctx(s)) else Outcome(m.stateInfo[k], [], true)
  }

  function Targets(s: Setting, m: Machine, e: Entry, keys: set<Key>): map<Key, Outcome>
    requires s.Timeframe() != 0
  {
    map k | k in m.stateInfo :: Target(s, m, e, keys, k)
  }

  ghost predicate AllFollow(m: Machine, m': Machine, targets: map<Key, Outcome>) {
    m'.stateInfo.Keys == targets.Keys && forall k | k in targets :: Follows(m, m', k, targets[k])
  }

  /** The entry is applied once to each of the given objects and to no other; the order of the rows is left open. */
  ghost predicate UpdatedAt(s: Setting, m: Machine, e: Entry, keys: set<Key>, m': Machine)
    requires s.Timeframe() != 0
  {
    && keys <= m.stateInfo.Keys && m'.stateInfo.Keys == m.stateInfo.Keys
    && m' == m.(stateInfo := m'.stateInfo, rows := m'.rows)
    && AllFollow(m, m', Targets(s, m, e, keys))
    && (forall r | r in m'.rows :: r.key in m.stateInfo || r in m.rows)
  }

  /** The object of the entry, and the services to which its host passes a change on. */
  function Concerned(s: Setting, m: Machine, e: Entry): set<Key>
    requires s.Timeframe() != 0 && e.event.HasKey() && e.event.key in m.stateInfo
  {
    var hs := m.stateInfo[e.event.key];
    if e.event.Propagates() && Updated(hs, e, m.Ctx(s)).changed then {e.event.key} + (set k | k in hs.services)
    else {e.event.key}
  }

  /** What the entry itself does, after the two general checks. */
  ghost predicate Handled(s: Setting, m: Machine, e: Entry, m': Machine)
    requires s.Timeframe() != 0
  {
    match e.event
    case TimeperiodTransition(name, to) =>
      var t := m.(periods := m.periods[name := to]);
      UpdatedAt(s, t, e, t.stateInfo.Keys, m')
    case InitialStatesLogged => m' == Restarted(m, e.time)
    case OtherEvent(_) => m' == m
    case _ =>
      var key := e.event.key;
      && key in m'.stateInfo
      && (key in m.stateInfo || (key.HostKey? ==> ListsServices(m.stateInfo, key.host, m'.stateInfo[key].services)))
      && var t := Tracking(s, m, key, e.time, m'.stateInfo[key].services);
         UpdatedAt(s, t, e, Concerned(s, t, e), m')
  }

  function Checked(s: Setting, m: Machine, e: Entry): Machine {
    VanishedMarked(Entered(s, m, e), e)
  }

  /** One turn of the main loop. */
  ghost predicate Next(s: Setting, m: Machine, e: Entry, m': Machine)
    requires s.Timeframe() != 0
  {
    Handled(s, Checked(s, m, e), e, m')
  }

  /** What one turn may lead to. */
  ghost function Successors(s: Setting, m: Machine, e: Entry): iset<Machine>
    requires s.Timeframe() != 0
  {
    iset m' | Next(s, m, e, m')
  }

  ghost predicate TurnAt(s: Setting, log: seq<Entry>, run: seq<Machine>, i: nat)
    requires s.Timeframe() != 0 && i + 1 < |run| <= |log| + 1
  {
    log[i].time < s.until && run[i + 1] in Successors(s, run[i], log[i])
  }

  /** The states that the main loop goes through for the first entries of a log. */
  ghost predicate IsRun(s: Setting, log: seq<Entry>, run: seq<Machine>)
    requires s.Timeframe() != 0
  {
    && 0 < |run| <= |log| + 1 && run[0] == START.(periods := run[0].periods)
    && forall i: nat | i + 1 < |run| :: TurnAt(s, log, run, i)
  }

  function End(s: Setting, m: Machine, keys: set<Key>, k: Key): Outcome
    requires s.Timeframe() != 0 && k in m.stateInfo
  {
    if k in keys then Closed(m.stateInfo[k], s.until, m.Ctx(s).(onlyUpdate := false))
    else Outcome(m.stateInfo[k], [], true)
  }

  function Ends(s: Setting, m: Machine, keys: set<Key>): map<Key, Outcome>
    requires s.Timeframe() != 0
  {
    map k | k in m.stateInfo :: End(s, m, keys, k)
  }

  /** Some of the records are closed. */
  ghost predicate ClosedAt(s: Setting, m: Machine, keys: set<Key>, m': Machine)
    requires s.Timeframe() != 0
  {
    && AllFollow(m, m', Ends(s, m, keys))
    && (forall r | r in m'.rows :: r.key in m.stateInfo || r in m.rows)
  }

  /** The final reports: each record is closed. */
  ghost predicate Finals(s: Setting, m: Machine, m': Machine)
    requires s.Timeframe() != 0
  {
    ClosedAt(s, m, m.stateInfo.Keys, m')
  }

  lemma FinalFollows(s: Setting, m: Machine, m': Machine, k: Key)
    requires s.Timeframe() != 0 && Finals(s, m, m')
    ensures k in m.stateInfo <==> k in m'.stateInfo
    ensures k in m.stateInfo ==> Follows(m, m', k, Closed(m.stateInfo[k], s.until, m.Ctx(s).(onlyUpdate := false)))
  {
    assert k in m.stateInfo ==> k in Ends(s, m, m.stateInfo.Keys);
  }

  /** A complete answer: a run over all entries in the timeframe, and the final reports. */
  ghost predicate IsAnswer(s: Setting, log: seq<Entry>, run: seq<Machine>, m': Machine)
    requires s.Timeframe() != 0
  {
    && IsRun(s, log, run) && Finals(s, run[|run| - 1], m')
    && (|run| <= |log| ==> s.until <= log[|run| - 1].time)
  }

  // ---------- Conservation of time ----------

  /** The rows about an object cover the time from the start of the timeframe to the start of its open interval. */
  ghost predicate Covered(s: Setting, rows: seq<HostServiceState>, key: Key, hs: HostServiceState) {
    hs.key == key && FlagsAgree(hs) && Continues(key, s.since, RowsOf(rows, key), hs.from, s.Timeframe())
  }

  ghost predicate AllCovered(s: Setting, m: Machine) {
    && (forall k | k in m.stateInfo :: Covered(s, m.rows, k, m.stateInfo[k]))
    && (forall r | r in m.rows :: r.key in m.stateInfo)
    && (m.onlyUpdate ==> m.rows == [] && forall k | k in m.stateInfo :: m.stateInfo[k].from == s.since)
  }

  lemma RowsOfElements(rows: seq<HostServiceState>, key: Key)
    ensures forall r :: r in RowsOf(rows, key) <==> r in rows && r.key == key
  {
    FilteredElements((r: HostServiceState) => r.key == key, rows);
  }

  lemma RowsOfLast(rows: seq<HostServiceState>)
    requires rows != []
    ensures rows[|rows| - 1] in rows && RowsOf(rows, rows[|rows| - 1].key) != []
  {
  }

  lemma NoRowsOf(rows: seq<HostServiceState>, key: Key)
    requires forall r | r in rows :: r.key != key
    ensures RowsOf(rows, key) == []
  {
    NoneFiltered((r: HostServiceState) => r.key == key, rows);
  }

  lemma ContinuesFurther(key: Key, start: int, a: seq<HostServiceState>, mid: int, b: seq<HostServiceState>, end: int,
                         timeframe: int)
    requires Continues(key, start, a, mid, timeframe) && Continues(key, mid, b, end, timeframe)
    ensures Continues(key, start, a + b, end, timeframe)
  {
    ChainAppend(a, b, start, mid, end);
  }

  /** A further outcome continues what is covered. */
  lemma FurtherCovered(s: Setting, m: Machine, m': Machine, k: Key, o: Outcome, c: Context)
    requires k in m.stateInfo && k in m'.stateInfo && Covered(s, m.rows, k, m.stateInfo[k]) && Follows(m, m', k, o)
    requires Carries(m.stateInfo[k], o, c) && c.timeframe == s.Timeframe() && FlagsAgree(o.hs)
    ensures Covered(s, m'.rows, k, m'.stateInfo[k])
  {
    ContinuesFurther(k, s.since, RowsOf(m.rows, k), m.stateInfo[k].from, o.rows, o.hs.from, s.Timeframe());
  }

  lemma TargetReached(s: Setting, t: Machine, e: Entry, keys: set<Key>, m': Machine, k: Key)
    requires s.Timeframe() != 0 && UpdatedAt(s, t, e, keys, m') && k in m'.stateInfo
    ensures k in t.stateInfo && m'.stateInfo[k] == Target(s, t, e, keys, k).hs
  {
    assert k in Targets(s, t, e, keys);
    assert Follows(t, m', k, Targets(s, t, e, keys)[k]);
  }

  lemma UpdatedCovered(s: Setting, m: Machine, e: Entry, keys: set<Key>, m': Machine, k: Key)
    requires s.Timeframe() != 0 && UpdatedAt(s, m, e, keys, m') && k in m.stateInfo &&
             Covered(s, m.rows, k, m.stateInfo[k])
    ensures Covered(s, m'.rows, k, m'.stateInfo[k])
    ensures m.onlyUpdate ==> m'.stateInfo[k].from == m.stateInfo[k].from && RowsOf(m'.rows, k) == RowsOf(m.rows, k)
  {
    var hs, c := m.stateInfo[k], m.Ctx(s);
    UpdatedCarries(hs, e, c);
    UpdatedFlags(hs, e, c);
    FurtherCovered(s, m, m', k, Target(s, m, e, keys, k), c);
    NothingAdded(RowsOf(m.rows, k));
  }

  lemma UpdatedAtKeepsCovered(s: Setting, m: Machine, e: Entry, keys: set<Key>, m': Machine)
    requires s.Timeframe() != 0 && UpdatedAt(s, m, e, keys, m') && AllCovered(s, m)
    ensures AllCovered(s, m')
  {
    forall k | k in m.stateInfo
      ensures Covered(s, m'.rows, k, m'.stateInfo[k])
      ensures m.onlyUpdate ==> m'.stateInfo[k].from == m.stateInfo[k].from && RowsOf(m'.rows, k) == RowsOf(m.rows, k)
    {
      UpdatedCovered(s, m, e, keys, m', k);
    }
    if m.onlyUpdate && m'.rows != [] {
      RowsOfLast(m'.rows);
    }
  }

  lemma CheckedKeepsCovered(s: Setting, m: Machine, e: Entry)
    requires AllCovered(s, m)
    ensures AllCovered(s, Checked(s, m, e))
  {
    var a := Entered(s, m, e);
    assert AllCovered(s, a);
  }

  lemma TrackingKeepsCovered(s: Setting, m: Machine, key: Key, time: int, services: seq<Key>)
    requires AllCovered(s, m)
    ensures AllCovered(s, Tracking(s, m, key, time, services))
  {
    if key !in m.stateInfo {
      NoRowsOf(m.rows, key);
      var t := Tracking(s, m, key, time, services);
      forall k | k in t.stateInfo
        ensures Covered(s, t.rows, k, t.stateInfo[k])
      {
        if k == key {
          assert Chain([], s.since, s.since);
        }
      }
    }
  }

  lemma ObjectEntryKeepsCovered(s: Setting, c: Machine, e: Entry, m': Machine)
    requires s.Timeframe() != 0 && Handled(s, c, e, m') && e.event.HasKey() && AllCovered(s, c)
    ensures AllCovered(s, m')
  {
    var services := m'.stateInfo[e.event.key].services;
    var t := Tracking(s, c, e.event.key, e.time, services);
    TrackingKeepsCovered(s, c, e.event.key, e.time, services);
    UpdatedAtKeepsCovered(s, t, e, Concerned(s, t, e), m');
  }

  lemma OtherEntryKeepsCovered(s: Setting, c: Machine, e: Entry, m': Machine)
    requires s.Timeframe() != 0 && Handled(s, c, e, m') && !e.event.HasKey() && AllCovered(s, c)
    ensures AllCovered(s, m')
  {
    if e.event.TimeperiodTransition? {
      var t := c.(periods := c.periods[e.event.name := e.event.to]);
      assert AllCovered(s, t);
      UpdatedAtKeepsCovered(s, t, e, t.stateInfo.Keys, m');
    }
  }

  /** Each turn of the main loop keeps the accounts. */
  lemma NextKeepsCovered(s: Setting, m: Machine, e: Entry, m': Machine)
    requires s.Timeframe() != 0 && m' in Successors(s, m, e) && AllCovered(s, m)
    ensures AllCovered(s, m')
  {
    CheckedKeepsCovered(s, m, e);
    if e.event.HasKey() {
      ObjectEntryKeepsCovered(s, Checked(s, m, e), e, m');
    } else {
      OtherEntryKeepsCovered(s, Checked(s, m, e), e, m');
    }
  }

  lemma StepKeepsCovered(s: Setting, log: seq<Entry>, run: seq<Machine>, n: nat)
    requires s.Timeframe() != 0 && IsRun(s, log, run) && n + 1 < |run| && AllCovered(s, run[n])
    ensures AllCovered(s, run[n + 1])
  {
    assert TurnAt(s, log, run, n);
    NextKeepsCovered(s, run[n], log[n], run[n + 1]);
  }

  ghost function CoveredStates(s: Setting, run: seq<Machine>): iset<nat> {
    iset n: nat | n < |run| && AllCovered(s, run[n])
  }

  lemma {:induction false} CoveredAt(s: Setting, log: seq<Entry>, run: seq<Machine>, n: nat)
    requires s.Timeframe() != 0 && IsRun(s, log, run) && n < |run|
    ensures n in CoveredStates(s, run)
  {
    if n > 0 {
      CoveredAt(s, log, run, n - 1);
      StepKeepsCovered(s, log, run, n - 1);
    } else {
      assert AllCovered(s, run[0]);
    }
  }

  lemma RunKeepsCovered(s: Setting, log: seq<Entry>, run: seq<Machine>)
    requires s.Timeframe() != 0 && IsRun(s, log, run)
    ensures forall m | m in run :: AllCovered(s, m)
  {
    forall m | m in run
      ensures AllCovered(s, m)
    {
      var n :| 0 <= n < |run| && run[n] == m;
      CoveredAt(s, log, run, n);
    }
  }

  lemma ClosingCovers(s: Setting, m: Machine, m': Machine, key: Key)
    requires s.Timeframe() != 0 && AllCovered(s, m) && Finals(s, m, m') && key in m'.stateInfo
    ensures Continues(key, s.since, RowsOf(m'.rows, key), s.until - 1, s.Timeframe())
  {
    FinalFollows(s, m, m', key);
    var hs, c := m.stateInfo[key], m.Ctx(s).(onlyUpdate := false);
    ClosedCarries(hs, s.until, c);
    FurtherCovered(s, m, m', key, Closed(hs, s.until, c), c);
  }

  lemma CoveredSums(s: Setting, rows: seq<HostServiceState>, key: Key)
    requires s.Timeframe() != 0 && Continues(key, s.since, rows, s.until - 1, s.Timeframe())
    ensures SumOfDurations(rows) == s.Timeframe() && SumOfParts(rows) == 1.0
  {
    ChainSums(key, rows, s.since, s.until - 1, s.Timeframe());
    SharesAdd(0, 0, s.Timeframe());
  }

  /** The rows about an object are a chain over the timeframe. */
  ghost predicate Conserved(s: Setting, rows: seq<HostServiceState>, key: Key)
    requires s.Timeframe() != 0
  {
    && Continues(key, s.since, rows, s.until - 1, s.Timeframe())
    && SumOfDurations(rows) == s.Timeframe() && SumOfParts(rows) == 1.0
  }

  lemma KeyIsConserved(s: Setting, m: Machine, m': Machine, key: Key)
    requires s.Timeframe() != 0 && AllCovered(s, m) && Finals(s, m, m') && key in m'.stateInfo
    ensures Conserved(s, RowsOf(m'.rows, key), key)
  {
    ClosingCovers(s, m, m', key);
    CoveredSums(s, RowsOf(m'.rows, key), key);
  }

  /**
   Conservation of time: in every run that reaches the final reports, the rows about an object form a chain from the
   first to the last second of the timeframe, so that their durations add up to the timeframe, and their shares to 1.
   */
  lemma TimeIsConserved(s: Setting, log: seq<Entry>, run: seq<Machine>, m': Machine)
    requires s.Timeframe() != 0 && IsRun(s, log, run) && Finals(s, run[|run| - 1], m')
    ensures forall key | key in m'.stateInfo :: Conserved(s, RowsOf(m'.rows, key), key)
    ensures forall r | r in m'.rows :: r.key in m'.stateInfo
  {
    RunKeepsCovered(s, log, run);
    assert run[|run| - 1] in run;
    forall key | key in m'.stateInfo
      ensures Conserved(s, RowsOf(m'.rows, key), key)
    {
      KeyIsConserved(s, run[|run| - 1], m', key);
    }
  }

  /** All rows of a run show their whole time in the column of their state. */
  lemma RowsInTheirColumns(s: Setting, m: Machine)
    requires s.Timeframe() != 0 && AllCovered(s, m)
    ensures forall r | r in m.rows :: TimeInItsColumn(r, s.Timeframe())
  {
    forall r | r in m.rows
      ensures TimeInItsColumn(r, s.Timeframe())
    {
      assert Covered(s, m.rows, r.key, m.stateInfo[r.key]);
      RowsOfElements(m.rows, r.key);
      ReportInItsColumn(r, s.Timeframe());
    }
  }

  /** So do those of a complete answer, and each column of an object adds up to the time that it was in this state. */
  lemma AnswerInItsColumns(s: Setting, log: seq<Entry>, run: seq<Machine>, m': Machine)
    requires s.Timeframe() != 0 && IsRun(s, log, run) && Finals(s, run[|run| - 1], m')
    ensures forall r | r in m'.rows :: TimeInItsColumn(r, s.Timeframe())
    ensures forall key | key in m'.stateInfo :: ColumnsTellStates(RowsOf(m'.rows, key))
  {
    TimeIsConserved(s, log, run, m');
    forall r | r in m'.rows
      ensures TimeInItsColumn(r, s.Timeframe())
    {
      assert Conserved(s, RowsOf(m'.rows, r.key), r.key);
      RowsOfElements(m'.rows, r.key);
      ReportInItsColumn(r, s.Timeframe());
    }
    forall key | key in m'.stateInfo
      ensures ColumnsTellStates(RowsOf(m'.rows, key))
    {
      RowsOfElements(m'.rows, key);
      ColumnsAddUp(RowsOf(m'.rows, key), s.Timeframe());
    }
  }

  // ---------- The service lists ----------

  /** A tracked host lists exactly its tracked services, each once. */
  ghost predicate AllListed(m: Machine) {
    && (forall k | k in m.stateInfo :: m.stateInfo[k].key == k)
    && (forall k | k in m.stateInfo && k.HostKey? :: ListsServices(m.stateInfo, k.host, m.stateInfo[k].services))
  }

  /** Two machines with the same objects and lists. */
  ghost predicate SameLists(m: Machine, m': Machine) {
    && m.stateInfo.Keys == m'.stateInfo.Keys
    && forall k | k in m.stateInfo ::
         m'.stateInfo[k].services == m.stateInfo[k].services && m'.stateInfo[k].key == m.stateInfo[k].key
  }

  lemma SameListsListed(m: Machine, m': Machine)
    requires SameLists(m, m') && AllListed(m)
    ensures AllListed(m')
  {
  }

  lemma TrackingKeepsListed(s: Setting, m: Machine, key: Key, time: int, services: seq<Key>)
    requires AllListed(m) && (key in m.stateInfo || (key.HostKey? ==> ListsServices(m.stateInfo, key.host, services)))
    ensures AllListed(Tracking(s, m, key, time, services))
  {
    if key !in m.stateInfo {
      var t := Tracking(s, m, key, time, services);
      forall k | k in t.stateInfo && k.HostKey?
        ensures ListsServices(t.stateInfo, k.host, t.stateInfo[k].services)
      {
        if k != key {
          assert ListsServices(m.stateInfo, k.host, m.stateInfo[k].services);
        }
      }
    }
  }

  lemma UpdatedAtSameLists(s: Setting, m: Machine, e: Entry, keys: set<Key>, m': Machine)
    requires s.Timeframe() != 0 && UpdatedAt(s, m, e, keys, m')
    ensures SameLists(m, m')
  {
    forall k | k in m.stateInfo
      ensures m'.stateInfo[k].services == m.stateInfo[k].services && m'.stateInfo[k].key == m.stateInfo[k].key
    {
      UpdatedCarries(m.stateInfo[k], e, m.Ctx(s));
    }
  }

  lemma CheckedSameLists(s: Setting, m: Machine, e: Entry)
    ensures SameLists(m, Checked(s, m, e))
  {
  }

  lemma ObjectEntryKeepsListed(s: Setting, c: Machine, e: Entry, m': Machine)
    requires s.Timeframe() != 0 && Handled(s, c, e, m') && e.event.HasKey() && AllListed(c)
    ensures AllListed(m')
  {
    var services := m'.stateInfo[e.event.key].services;
    var t := Tracking(s, c, e.event.key, e.time, services);
    TrackingKeepsListed(s, c, e.event.key, e.time, services);
    UpdatedAtSameLists(s, t, e, Concerned(s, t, e), m');
    SameListsListed(t, m');
  }

  lemma OtherEntrySameLists(s: Setting, c: Machine, e: Entry, m': Machine)
    requires s.Timeframe() != 0 && Handled(s, c, e, m') && !e.event.HasKey()
    ensures SameLists(c, m')
  {
    if e.event.TimeperiodTransition? {
      var t := c.(periods := c.periods[e.event.name := e.event.to]);
      UpdatedAtSameLists(s, t, e, t.stateInfo.Keys, m');
    }
  }

  /** Each turn of the main loop keeps the lists complete and free of duplicates. */
  lemma NextKeepsListed(s: Setting, m: Machine, e: Entry, m': Machine)
    requires s.Timeframe() != 0 && m' in Successors(s, m, e) && AllListed(m)
    ensures AllListed(m')
  {
    var c := Checked(s, m, e);
    CheckedSameLists(s, m, e);
    SameListsListed(m, c);
    if e.event.HasKey() {
      ObjectEntryKeepsListed(s, c, e, m');
    } else {
      OtherEntrySameLists(s, c, e, m');
      SameListsListed(c, m');
    }
  }

  lemma RunKeepsListed(s: Setting, log: seq<Entry>, run: seq<Machine>)
    requires s.Timeframe() != 0 && IsRun(s, log, run)
    ensures AllListed(run[|run| - 1]) && forall m | m in run :: AllListed(m)
  {
    for i := 0 to |run|
      invariant forall j | 0 <= j < i :: AllListed(run[j])
    {
      if i > 0 {
        assert TurnAt(s, log, run, i - 1);
        NextKeepsListed(s, run[i - 1], log[i - 1], run[i]);
      }
    }
  }

  // ---------- A host and its services ----------

  /** A service has the columns of its host; without a tracked host they are unset. */
  ghost predicate HostColumnsAgree(m: Machine, host: string) {
    forall k | k in m.stateInfo && k.ServiceKey? && k.host == host ::
      var info := m.stateInfo[k].info;
      if HostKey(host) in m.stateInfo then SameHostColumns(info, m.stateInfo[HostKey(host)].info)
      else !info.hostDown && !info.inHostDowntime
  }

  ghost predicate AllAgree(m: Machine) {
    forall host :: HostColumnsAgree(m, host)
  }

  /** Two machines with the same objects and the same copied columns. */
  ghost predicate SameColumns(m: Machine, m': Machine) {
    && m.stateInfo.Keys == m'.stateInfo.Keys
    && forall k | k in m.stateInfo :: SameHostColumns(m'.stateInfo[k].info, m.stateInfo[k].info)
  }

  lemma SameColumnsAgree(m: Machine, m': Machine)
    requires SameColumns(m, m') && AllAgree(m)
    ensures AllAgree(m')
  {
    forall host
      ensures HostColumnsAgree(m', host)
    {
      assert HostColumnsAgree(m, host);
    }
  }

  lemma CheckedSameColumns(s: Setting, m: Machine, e: Entry)
    ensures SameColumns(m, Checked(s, m, e))
  {
  }

  lemma TrackingKeepsAgreement(s: Setting, m: Machine, key: Key, time: int, services: seq<Key>)
    requires AllAgree(m)
    ensures AllAgree(Tracking(s, m, key, time, services))
  {
    forall host
      ensures HostColumnsAgree(Tracking(s, m, key, time, services), host)
    {
      assert HostColumnsAgree(m, host);
    }
  }

  lemma OtherEntrySameColumns(s: Setting, c: Machine, e: Entry, m': Machine)
    requires s.Timeframe() != 0 && Handled(s, c, e, m') && !e.event.HasKey()
    ensures SameColumns(c, m')
  {
    if e.event.TimeperiodTransition? {
      var t := c.(periods := c.periods[e.event.name := e.event.to]);
      forall k | k in c.stateInfo
        ensures SameHostColumns(m'.stateInfo[k].info, c.stateInfo[k].info)
      {
        assert Follows(t, m', k, Updated(t.stateInfo[k], e, t.Ctx(s)));
        UpdatedHostColumns(c.stateInfo[k], e, t.Ctx(s));
      }
    }
  }

  /** The copied columns of one record after an update of the concerned objects. */
  lemma ColumnsOf(s: Setting, t: Machine, e: Entry, m': Machine, k: Key)
    requires s.Timeframe() != 0 && e.event.HasKey() && e.event.key in t.stateInfo && k in t.stateInfo
    requires UpdatedAt(s, t, e, Concerned(s, t, e), m') && t.stateInfo[k].key == k
    ensures var told := ConcernsHostColumns(e.event) && k in Concerned(s, t, e) &&
                        (k.HostKey? ==> Updated(t.stateInfo[k], e, t.Ctx(s)).changed);
            SameHostColumns(m'.stateInfo[k].info, if told then Told(t.stateInfo[k].info, e.event)
                            else t.stateInfo[k].info)
  {
    UpdatedHostColumns(t.stateInfo[k], e, t.Ctx(s));
  }

  /** An entry that is passed on reaches a service exactly when it changes its host. */
  lemma PairConcerned(s: Setting, t: Machine, e: Entry, service: Key)
    requires s.Timeframe() != 0 && e.event.HasKey() && e.event.key in t.stateInfo && AllListed(t)
    requires service.ServiceKey? && service in t.stateInfo && e.event.Propagates()
    ensures var host := HostKey(service.host);
            service in Concerned(s, t, e) <==> host == e.event.key && Updated(t.stateInfo[host], e, t.Ctx(s)).changed
    ensures HostKey(service.host) in Concerned(s, t, e) <==> HostKey(service.host) == e.event.key
  {
    var key := e.event.key;
    assert ListsServices(t.stateInfo, key.host, t.stateInfo[key].services);
  }

  /** A service and its host agree after an entry if they did before. */
  lemma PairAgrees(s: Setting, t: Machine, e: Entry, m': Machine, service: Key)
    requires s.Timeframe() != 0 && e.event.HasKey() && e.event.key in t.stateInfo && AllListed(t)
    requires UpdatedAt(s, t, e, Concerned(s, t, e), m')
    requires service.ServiceKey? && service in t.stateInfo
    requires e.event.StateEvent? && e.event.key.HostKey? ==> !e.event.initial
    ensures var host := HostKey(service.host);
            if host in t.stateInfo then
              SameHostColumns(t.stateInfo[service].info, t.stateInfo[host].info) ==>
              SameHostColumns(m'.stateInfo[service].info, m'.stateInfo[host].info)
            else SameHostColumns(m'.stateInfo[service].info, t.stateInfo[service].info)
  {
    var host := HostKey(service.host);
    ColumnsOf(s, t, e, m', service);
    if host in t.stateInfo {
      ColumnsOf(s, t, e, m', host);
    }
    if ConcernsHostColumns(e.event) {
      PairConcerned(s, t, e, service);
    }
  }

  lemma UpdatedAgrees(s: Setting, t: Machine, e: Entry, m': Machine)
    requires s.Timeframe() != 0 && e.event.HasKey() && e.event.key in t.stateInfo && AllListed(t)
    requires UpdatedAt(s, t, e, Concerned(s, t, e), m') && AllAgree(t)
    requires e.event.StateEvent? && e.event.key.HostKey? ==> !e.event.initial
    ensures AllAgree(m')
  {
    forall k | k in t.stateInfo && k.ServiceKey?
      ensures if HostKey(k.host) in t.stateInfo then
                SameHostColumns(m'.stateInfo[k].info, m'.stateInfo[HostKey(k.host)].info)
              else !m'.stateInfo[k].info.hostDown && !m'.stateInfo[k].info.inHostDowntime
    {
      assert HostColumnsAgree(t, k.host);
      PairAgrees(s, t, e, m', k);
    }
  }

  predicate IsInitialHostState(event: Event) {
    event.StateEvent? && event.key.HostKey? && event.initial
  }

  lemma TrackedUpdateAgrees(s: Setting, c: Machine, e: Entry, m': Machine)
    requires s.Timeframe() != 0 && Handled(s, c, e, m') && e.event.HasKey() && AllListed(c) && AllAgree(c)
    requires !IsInitialHostState(e.event)
    ensures AllAgree(m')
  {
    var services := m'.stateInfo[e.event.key].services;
    TrackingKeepsListed(s, c, e.event.key, e.time, services);
    TrackingKeepsAgreement(s, c, e.event.key, e.time, services);
    UpdatedAgrees(s, Tracking(s, c, e.event.key, e.time, services), e, m');
  }

  /** Every turn for another entry than an initial host state keeps the services in agreement with their hosts. */
  lemma NextKeepsAgreement(s: Setting, m: Machine, e: Entry, m': Machine)
    requires s.Timeframe() != 0 && m' in Successors(s, m, e) && AllListed(m) && AllAgree(m)
    requires !IsInitialHostState(e.event)
    ensures AllAgree(m')
  {
    var c := Checked(s, m, e);
    CheckedSameLists(s, m, e);
    SameListsListed(m, c);
    CheckedSameColumns(s, m, e);
    SameColumnsAgree(m, c);
    if e.event.HasKey() {
      TrackedUpdateAgrees(s, c, e, m');
    } else {
      OtherEntrySameColumns(s, c, e, m');
      SameColumnsAgree(c, m');
    }
  }

  ghost predicate ListedAndAgreed(m: Machine) {
    AllListed(m) && AllAgree(m)
  }

  lemma StepKeepsAgreement(s: Setting, log: seq<Entry>, run: seq<Machine>, n: nat)
    requires s.Timeframe() != 0 && IsRun(s, log, run) && n + 1 < |run| && ListedAndAgreed(run[n])
    requires !IsInitialHostState(log[n].event)
    ensures ListedAndAgreed(run[n + 1])
  {
    assert TurnAt(s, log, run, n);
    NextKeepsListed(s, run[n], log[n], run[n + 1]);
    NextKeepsAgreement(s, run[n], log[n], run[n + 1]);
  }

  lemma {:induction false} RunKeepsAgreement(s: Setting, log: seq<Entry>, run: seq<Machine>, n: nat)
    requires s.Timeframe() != 0 && IsRun(s, log, run) && n < |run|
    requires forall i | 0 <= i < n :: !IsInitialHostState(log[i].event)
    ensures ListedAndAgreed(run[n])
  {
    if n > 0 {
      RunKeepsAgreement(s, log, run, n - 1);
      StepKeepsAgreement(s, log, run, n - 1);
    }
  }

  /** The record that an entry about a host finds or creates. */
  function RecordFound(s: Setting, m: Machine, e: Entry): HostServiceState
    requires e.event.HasKey()
  {
    var c := Checked(s, m, e);
    if e.event.key in c.stateInfo then c.stateInfo[e.event.key] else NewState(s, c, e.event.key, e.time, [])
  }

  /** The services of the host are left behind: there are some, and the initial state turns the host up or down. */
  ghost predicate LeavesServicesBehind(s: Setting, m: Machine, e: Entry)
    requires IsInitialHostState(e.event)
  {
    && (exists k :: k in m.stateInfo && k.ServiceKey? && k.host == e.event.key.host)
    && StateSeen(RecordFound(s, m, e), e) != e.event.state
    && RecordFound(s, m, e).info.hostDown != (e.event.state > 0)
  }

  lemma InitialStateColumns(s: Setting, c: Machine, e: Entry, m': Machine, hs: HostServiceState)
    requires s.Timeframe() != 0 && Handled(s, c, e, m') && AllListed(c) && IsInitialHostState(e.event)
    requires hs == if e.event.key in c.stateInfo then c.stateInfo[e.event.key]
             else NewState(s, c, e.event.key, e.time, [])
    ensures m'.stateInfo.Keys == c.stateInfo.Keys + {e.event.key}
    ensures forall k | k in c.stateInfo && k != e.event.key :: m'.stateInfo[k].info == c.stateInfo[k].info
    ensures SameHostColumns(m'.stateInfo[e.event.key].info,
                            if StateSeen(hs, e) == e.event.state then hs.info else Told(hs.info, e.event))
  {
    var key := e.event.key;
    var services := m'.stateInfo[key].services;
    var t := Tracking(s, c, key, e.time, services);
    assert Concerned(s, t, e) == {key};
    OnlyOneUpdated(s, t, e, key, m');
    TrackedRecord(s, c, e, services, hs);
    UpdatedHostColumns(t.stateInfo[key], e, t.Ctx(s));
  }

  lemma TrackedRecord(s: Setting, c: Machine, e: Entry, services: seq<Key>, hs: HostServiceState)
    requires IsInitialHostState(e.event) && AllListed(c)
    requires hs == if e.event.key in c.stateInfo then c.stateInfo[e.event.key]
             else NewState(s, c, e.event.key, e.time, [])
    ensures var t := Tracking(s, c, e.event.key, e.time, services); var found := t.stateInfo[e.event.key];
            && t.stateInfo.Keys == c.stateInfo.Keys + {e.event.key}
            && found.key == e.event.key && found.info == hs.info && StateSeen(found, e) == StateSeen(hs, e)
            && forall k | k in c.stateInfo && k != e.event.key :: t.stateInfo[k] == c.stateInfo[k]
  {
  }

  lemma OnlyOneUpdated(s: Setting, t: Machine, e: Entry, key: Key, m': Machine)
    requires s.Timeframe() != 0 && UpdatedAt(s, t, e, {key}, m')
    ensures key in m'.stateInfo && m'.stateInfo[key] == Updated(t.stateInfo[key], e, t.Ctx(s)).hs
    ensures m'.stateInfo.Keys == t.stateInfo.Keys
    ensures forall k | k in t.stateInfo && k != key :: m'.stateInfo[k] == t.stateInfo[k]
  {
    forall k | k in t.stateInfo
      ensures Follows(t, m', k, Target(s, t, e, {key}, k))
    {
      assert k in Targets(s, t, e, {key});
    }
  }

  /** The agreement for the host of an initial state, and for another host. */
  lemma InitialStateAgreement(s: Setting, c: Machine, m': Machine, host: string, key: Key, hs: StateInformation)
    requires m'.stateInfo.Keys == c.stateInfo.Keys + {key} && key.HostKey?
    requires forall k | k in c.stateInfo && k != key :: m'.stateInfo[k].info == c.stateInfo[k].info
    requires HostColumnsAgree(c, host)
    requires key in c.stateInfo ==> hs == c.stateInfo[key].info
    requires key !in c.stateInfo ==> !hs.hostDown && !hs.inHostDowntime
    ensures host != key.host ==> HostColumnsAgree(m', host)
    ensures host == key.host ==>
              (HostColumnsAgree(m', host) <==>
               (exists k :: k in c.stateInfo && k.ServiceKey? && k.host == host) ==>
                 SameHostColumns(m'.stateInfo[key].info, hs))
  {
    if host == key.host && HostColumnsAgree(m', host) &&
       exists k :: k in c.stateInfo && k.ServiceKey? && k.host == host {
      var k :| k in c.stateInfo && k.ServiceKey? && k.host == host;
      assert k in m'.stateInfo && SameHostColumns(m'.stateInfo[k].info, hs);
    }
  }

  lemma OneHostAgreement(s: Setting, m: Machine, e: Entry, c: Machine, m': Machine, host: string)
    requires s.Timeframe() != 0 && IsInitialHostState(e.event) && c == Checked(s, m, e) && Handled(s, c, e, m')
    requires AllListed(c) && HostColumnsAgree(c, host)
    ensures HostColumnsAgree(m', host) <==> (host == e.event.key.host ==> !LeavesServicesBehind(s, m, e))
  {
    var hs := RecordFound(s, m, e);
    InitialStateColumns(s, c, e, m', hs);
    InitialStateAgreement(s, c, m', host, e.event.key, hs.info);
  }

  /** An initial host state keeps the agreement if and only if it does not leave services behind. */
  lemma InitialHostStateAgreement(s: Setting, m: Machine, e: Entry, m': Machine)
    requires s.Timeframe() != 0 && m' in Successors(s, m, e) && AllListed(m) && AllAgree(m) &&
             IsInitialHostState(e.event)
    ensures AllAgree(m') <==> !LeavesServicesBehind(s, m, e)
  {
    var c := Checked(s, m, e);
    assert Handled(s, c, e, m');
    CheckedSameLists(s, m, e);
    SameListsListed(m, c);
    CheckedSameColumns(s, m, e);
    SameColumnsAgree(m, c);
    AgreementByHost(s, m, e, c, m');
  }

  lemma AgreementByHost(s: Setting, m: Machine, e: Entry, c: Machine, m': Machine)
    requires s.Timeframe() != 0 && IsInitialHostState(e.event) && c == Checked(s, m, e) && Handled(s, c, e, m')
    requires AllListed(c) && AllAgree(c)
    ensures AllAgree(m') <==> !LeavesServicesBehind(s, m, e)
  {
    forall host
      ensures HostColumnsAgree(m', host) <==> (host == e.event.key.host ==> !LeavesServicesBehind(s, m, e))
    {
      assert HostColumnsAgree(c, host);
      OneHostAgreement(s, m, e, c, m', host);
    }
    assert AllAgree(m') ==> HostColumnsAgree(m', e.event.key.host);
  }

  // ---------- Durations that are not negative ----------

  predicate Ordered(log: seq<Entry>) {
    forall i, j | 0 <= i < j < |log| :: log[i].time <= log[j].time
  }

  /** No timeperiod entry changes an object that is in doubt or has vanished. */
  ghost predicate Undisturbed(m: Machine, e: Entry) {
    forall k | k in m.stateInfo && m.stateInfo[k].mayNoLongerExist :: !PeriodChanges(m.stateInfo[k], e)
  }

  /** Nothing is in the future. */
  ghost predicate AllPast(s: Setting, m: Machine, now: int) {
    && (!m.onlyUpdate ==> s.since <= now)
    && forall k | k in m.stateInfo :: FlagsAgree(m.stateInfo[k]) && Past(m.stateInfo[k], now, m.onlyUpdate)
  }

  lemma CheckedKeepsPast(s: Setting, m: Machine, e: Entry, now: int)
    requires AllPast(s, m, now) && now <= e.time
    ensures AllPast(s, Checked(s, m, e), e.time)
  {
  }

  lemma TrackingKeepsPast(s: Setting, m: Machine, e: Entry, services: seq<Key>)
    requires e.event.HasKey() && AllPast(s, m, e.time)
    ensures AllPast(s, Tracking(s, m, e.event.key, e.time, services), e.time)
  {
  }

  /** An update of the record, if there is one, revives it too late. */
  predicate TooLate(hs: HostServiceState, e: Entry) {
    Revives(hs, e) && !InTime(hs)
  }

  lemma RecordDurations(s: Setting, m: Machine, e: Entry, keys: set<Key>, m': Machine, k: Key)
    requires s.Timeframe() != 0 && UpdatedAt(s, m, e, keys, m') && AllPast(s, m, e.time) && k in m.stateInfo
    ensures k in m'.stateInfo && FlagsAgree(m'.stateInfo[k]) && Past(m'.stateInfo[k], e.time, m.onlyUpdate)
    ensures NoneNegative(RowsOf(m'.rows, k)) <==>
            NoneNegative(RowsOf(m.rows, k)) && !(k in keys && !m.onlyUpdate && TooLate(m.stateInfo[k], e))
  {
    var hs, c := m.stateInfo[k], m.Ctx(s);
    assert k in Targets(s, m, e, keys);
    var o := Target(s, m, e, keys, k);
    assert Follows(m, m', k, o);
    NoneNegativeParts(RowsOf(m.rows, k), o.rows);
    UpdatedFlags(hs, e, c);
    UpdatedPast(hs, e, c);
    UpdatedCarries(hs, e, c);
    if !m.onlyUpdate {
      UpdatedDurations(hs, e, c);
    }
  }

  lemma NoneNegativeByKey(rows: seq<HostServiceState>, keys: set<Key>)
    requires forall r | r in rows :: r.key in keys
    ensures NoneNegative(rows) <==> forall k | k in keys :: NoneNegative(RowsOf(rows, k))
  {
    forall k | k in keys
      ensures NoneNegative(rows) ==> NoneNegative(RowsOf(rows, k))
    {
      RowsOfElements(rows, k);
    }
    forall r | r in rows
      ensures NoneNegative(RowsOf(rows, r.key)) ==> r.report.duration >= 0
    {
      RowsOfElements(rows, r.key);
    }
  }

  lemma UpdatedAtDurations(s: Setting, m: Machine, e: Entry, keys: set<Key>, m': Machine)
    requires s.Timeframe() != 0 && UpdatedAt(s, m, e, keys, m') && AllPast(s, m, e.time) && AllCovered(s, m)
    ensures AllPast(s, m', e.time)
    ensures NoneNegative(m'.rows) <==>
            NoneNegative(m.rows) && (m.onlyUpdate || forall k | k in keys :: !TooLate(m.stateInfo[k], e))
  {
    NoneNegativeByKey(m.rows, m.stateInfo.Keys);
    NoneNegativeByKey(m'.rows, m.stateInfo.Keys);
    forall k | k in m.stateInfo
      ensures FlagsAgree(m'.stateInfo[k]) && Past(m'.stateInfo[k], e.time, m.onlyUpdate)
      ensures NoneNegative(RowsOf(m'.rows, k)) <==>
              NoneNegative(RowsOf(m.rows, k)) && !(k in keys && !m.onlyUpdate && TooLate(m.stateInfo[k], e))
    {
      RecordDurations(s, m, e, keys, m', k);
    }
  }

  /**
   The entry is about objects of which none has vanished with an open interval
   that starts behind its last known time.
   */
  ghost predicate RevivesInTime(s: Setting, m: Machine, e: Entry, m': Machine)
    requires s.Timeframe() != 0
  {
    e.event.HasKey() && e.event.key in m'.stateInfo ==>
      var c := Checked(s, m, e);
      var t := Tracking(s, c, e.event.key, e.time, m'.stateInfo[e.event.key].services);
      c.onlyUpdate || forall k | k in Concerned(s, t, e) && k in t.stateInfo :: !TooLate(t.stateInfo[k], e)
  }

  lemma ObjectEntryDurations(s: Setting, m: Machine, c: Machine, e: Entry, m': Machine)
    requires s.Timeframe() != 0 && c == Checked(s, m, e) && Handled(s, c, e, m') && e.event.HasKey()
    requires AllPast(s, c, e.time) && AllCovered(s, c)
    ensures AllPast(s, m', e.time)
    ensures NoneNegative(m'.rows) <==> NoneNegative(c.rows) && RevivesInTime(s, m, e, m')
  {
    var services := m'.stateInfo[e.event.key].services;
    var t := Tracking(s, c, e.event.key, e.time, services);
    TrackingKeepsPast(s, c, e, services);
    TrackingKeepsCovered(s, c, e.event.key, e.time, services);
    UpdatedAtDurations(s, t, e, Concerned(s, t, e), m');
  }

  lemma OtherEntryDurations(s: Setting, c: Machine, e: Entry, m': Machine)
    requires s.Timeframe() != 0 && Handled(s, c, e, m') && !e.event.HasKey()
    requires AllPast(s, c, e.time) && AllCovered(s, c)
    ensures AllPast(s, m', e.time) && (NoneNegative(m'.rows) <==> NoneNegative(c.rows))
  {
    if e.event.TimeperiodTransition? {
      var t := c.(periods := c.periods[e.event.name := e.event.to]);
      assert AllCovered(s, t) && AllPast(s, t, e.time);
      UpdatedAtDurations(s, t, e, t.stateInfo.Keys, m');
    }
  }

  /** A turn adds a row of negative duration if and only if it revives an object too late. */
  lemma NextDurations(s: Setting, m: Machine, e: Entry, m': Machine, now: int)
    requires s.Timeframe() != 0 && m' in Successors(s, m, e) && AllCovered(s, m) && AllPast(s, m, now) && now <= e.time
    ensures AllPast(s, m', e.time)
    ensures NoneNegative(m'.rows) <==> NoneNegative(m.rows) && RevivesInTime(s, m, e, m')
  {
    var c := Checked(s, m, e);
    CheckedKeepsPast(s, m, e, now);
    CheckedKeepsCovered(s, m, e);
    if e.event.HasKey() {
      ObjectEntryDurations(s, m, c, e, m');
    } else {
      OtherEntryDurations(s, c, e, m');
    }
  }

  /** The time up to which the machine has looked when it is in its n-th state. */
  function NowAt(log: seq<Entry>, n: nat): int
    requires n <= |log|
  {
    if n > 0 then log[n - 1].time else if log == [] then 0 else log[0].time
  }

  ghost predicate AllRevivedInTime(s: Setting, log: seq<Entry>, run: seq<Machine>, n: nat)
    requires s.Timeframe() != 0 && n < |run| <= |log| + 1
  {
    forall i | 0 <= i < n :: RevivesInTime(s, run[i], log[i], run[i + 1])
  }

  lemma RevivedNext(s: Setting, log: seq<Entry>, run: seq<Machine>, n: nat)
    requires s.Timeframe() != 0 && n + 1 < |run| <= |log| + 1
    ensures AllRevivedInTime(s, log, run, n + 1) <==>
            AllRevivedInTime(s, log, run, n) && RevivesInTime(s, run[n], log[n], run[n + 1])
  {
  }

  lemma StartDurations(s: Setting, m: Machine, now: int)
    requires m == START.(periods := m.periods)
    ensures AllPast(s, m, now) && AllCovered(s, m) && NoneNegative(m.rows) && AllInTime(m)
  {
  }

  lemma StepKeepsPast(s: Setting, log: seq<Entry>, run: seq<Machine>, n: nat)
    requires s.Timeframe() != 0 && IsRun(s, log, run) && Ordered(log) && n + 1 < |run|
    requires AllPast(s, run[n], NowAt(log, n)) && AllCovered(s, run[n])
    ensures AllPast(s, run[n + 1], NowAt(log, n + 1))
    ensures NoneNegative(run[n + 1].rows) <==> NoneNegative(run[n].rows) && RevivesInTime(s, run[n], log[n], run[n + 1])
  {
    assert TurnAt(s, log, run, n);
    NextDurations(s, run[n], log[n], run[n + 1], NowAt(log, n));
  }

  ghost function PastStates(s: Setting, log: seq<Entry>, run: seq<Machine>): iset<nat> {
    iset n: nat | n < |run| && n <= |log| && AllPast(s, run[n], NowAt(log, n))
  }

  lemma {:induction false} PastAt(s: Setting, log: seq<Entry>, run: seq<Machine>, n: nat)
    requires s.Timeframe() != 0 && IsRun(s, log, run) && Ordered(log) && n < |run|
    ensures n in PastStates(s, log, run) && n in CoveredStates(s, run)
  {
    CoveredAt(s, log, run, n);
    if n > 0 {
      PastAt(s, log, run, n - 1);
      StepKeepsPast(s, log, run, n - 1);
    } else {
      StartDurations(s, run[0], NowAt(log, 0));
    }
  }

  lemma StepDurations(s: Setting, log: seq<Entry>, run: seq<Machine>, n: nat)
    requires s.Timeframe() != 0 && IsRun(s, log, run) && Ordered(log) && n + 1 < |run|
    ensures NoneNegative(run[n + 1].rows) <==> NoneNegative(run[n].rows) && RevivesInTime(s, run[n], log[n], run[n + 1])
  {
    PastAt(s, log, run, n);
    StepKeepsPast(s, log, run, n);
  }

  lemma {:induction false} RowsAt(s: Setting, log: seq<Entry>, run: seq<Machine>, n: nat)
    requires s.Timeframe() != 0 && IsRun(s, log, run) && Ordered(log) && n < |run|
    ensures NoneNegative(run[n].rows) <==> AllRevivedInTime(s, log, run, n)
  {
    if n > 0 {
      RowsAt(s, log, run, n - 1);
      StepDurations(s, log, run, n - 1);
      RevivedNext(s, log, run, n - 1);
    }
  }

  /** In a run over a log in order nothing is in the future, and rows are negative exactly by late revivals. */
  lemma RunDurations(s: Setting, log: seq<Entry>, run: seq<Machine>, n: nat)
    requires s.Timeframe() != 0 && IsRun(s, log, run) && Ordered(log) && n < |run|
    ensures AllPast(s, run[n], NowAt(log, n)) && AllCovered(s, run[n])
    ensures NoneNegative(run[n].rows) <==> AllRevivedInTime(s, log, run, n)
  {
    PastAt(s, log, run, n);
    RowsAt(s, log, run, n);
  }

  ghost predicate ClosesInTime(m: Machine) {
    forall k | k in m.stateInfo && m.stateInfo[k].mayNoLongerExist :: InTime(m.stateInfo[k])
  }

  lemma ClosedRecordDurations(s: Setting, m: Machine, m': Machine, k: Key)
    requires s.Timeframe() != 0 && Finals(s, m, m') && k in m.stateInfo && Past(m.stateInfo[k], s.until - 1, false)
    ensures NoneNegative(RowsOf(m'.rows, k)) <==>
            NoneNegative(RowsOf(m.rows, k)) && (m.stateInfo[k].mayNoLongerExist ==> InTime(m.stateInfo[k]))
  {
    var c := m.Ctx(s).(onlyUpdate := false);
    ClosedDurations(m.stateInfo[k], s.until, c);
    FinalFollows(s, m, m', k);
    NoneNegativeParts(RowsOf(m.rows, k), Closed(m.stateInfo[k], s.until, c).rows);
  }

  /** At the end of the timeframe nothing is in the future. */
  ghost predicate EndsPast(s: Setting, m: Machine) {
    forall k | k in m.stateInfo :: Past(m.stateInfo[k], s.until - 1, false)
  }

  lemma ClosingDurations(s: Setting, m: Machine, m': Machine)
    requires s.Timeframe() != 0 && Finals(s, m, m') && AllCovered(s, m) && EndsPast(s, m)
    ensures NoneNegative(m'.rows) <==> NoneNegative(m.rows) && ClosesInTime(m)
  {
    NoneNegativeByKey(m.rows, m.stateInfo.Keys);
    NoneNegativeByKey(m'.rows, m.stateInfo.Keys);
    forall k | k in m.stateInfo
      ensures NoneNegative(RowsOf(m'.rows, k)) <==>
              NoneNegative(RowsOf(m.rows, k)) && (m.stateInfo[k].mayNoLongerExist ==> InTime(m.stateInfo[k]))
    {
      ClosedRecordDurations(s, m, m', k);
    }
  }

  lemma PastAtTheEnd(s: Setting, m: Machine, now: int)
    requires s.since < s.until && AllPast(s, m, now) && AllCovered(s, m)
    requires now < s.until || m.stateInfo == map[]
    ensures EndsPast(s, m)
  {
  }

  /**
   Exactly when no reported interval of a complete answer has a negative length, for a log in order: whenever an object
   that had vanished is revived, and whenever the final reports find one absent, its open interval must not have started
   behind the time when it was last seen.
   */
  lemma DurationsExactly(s: Setting, log: seq<Entry>, run: seq<Machine>, m': Machine)
    requires s.since < s.until && s.Timeframe() != 0 && IsRun(s, log, run) && Ordered(log) &&
             Finals(s, run[|run| - 1], m')
    ensures NoneNegative(m'.rows) <==> AllRevivedInTime(s, log, run, |run| - 1) && ClosesInTime(run[|run| - 1])
  {
    var n := |run| - 1;
    RunDurations(s, log, run, n);
    assert n > 0 ==> TurnAt(s, log, run, n - 1);
    PastAtTheEnd(s, run[n], NowAt(log, n));
    ClosingDurations(s, run[n], m');
  }

  /** Only from the timeframe on objects are in doubt, and none of them has been reported since it was last seen. */
  ghost predicate AllInTime(m: Machine) {
    forall k | k in m.stateInfo && m.stateInfo[k].mayNoLongerExist :: !m.onlyUpdate && InTime(m.stateInfo[k])
  }

  lemma UpdatedAtKeepsInTime(s: Setting, m: Machine, e: Entry, keys: set<Key>, m': Machine)
    requires s.Timeframe() != 0 && UpdatedAt(s, m, e, keys, m') && AllInTime(m) && Undisturbed(m, e)
    ensures AllInTime(m')
  {
    forall k | k in m.stateInfo && m'.stateInfo[k].mayNoLongerExist
      ensures !m.onlyUpdate && InTime(m'.stateInfo[k])
    {
      assert k in Targets(s, m, e, keys) && Follows(m, m', k, Targets(s, m, e, keys)[k]);
      UpdatedInTime(m.stateInfo[k], e, m.Ctx(s));
    }
  }

  lemma CheckedKeepsInTime(s: Setting, m: Machine, e: Entry)
    requires AllInTime(m) && Undisturbed(m, e)
    ensures AllInTime(Checked(s, m, e)) && Undisturbed(Checked(s, m, e), e)
  {
  }

  lemma TrackingKeepsInTime(s: Setting, c: Machine, e: Entry, services: seq<Key>)
    requires e.event.HasKey() && AllInTime(c)
    ensures var t := Tracking(s, c, e.event.key, e.time, services); AllInTime(t) && Undisturbed(t, e)
  {
  }

  lemma RestartKeepsInTime(s: Setting, c: Machine, time: int)
    requires AllInTime(c) && AllPast(s, c, time) && !c.onlyUpdate
    ensures AllInTime(Restarted(c, time))
  {
  }

  lemma HandledKeepsInTime(s: Setting, c: Machine, e: Entry, m': Machine)
    requires s.Timeframe() != 0 && Handled(s, c, e, m') && AllInTime(c) && AllPast(s, c, e.time) && Undisturbed(c, e)
    requires e.event.InitialStatesLogged? ==> !c.onlyUpdate
    ensures AllInTime(m')
  {
    if e.event.HasKey() {
      var services := m'.stateInfo[e.event.key].services;
      TrackingKeepsInTime(s, c, e, services);
      var t := Tracking(s, c, e.event.key, e.time, services);
      UpdatedAtKeepsInTime(s, t, e, Concerned(s, t, e), m');
    } else if e.event.TimeperiodTransition? {
      var t := c.(periods := c.periods[e.event.name := e.event.to]);
      assert AllInTime(t) && Undisturbed(t, e);
      UpdatedAtKeepsInTime(s, t, e, t.stateInfo.Keys, m');
    } else if e.event.InitialStatesLogged? {
      RestartKeepsInTime(s, c, e.time);
    }
  }

  lemma InTimeRevivesInTime(s: Setting, m: Machine, e: Entry, m': Machine)
    requires s.Timeframe() != 0 && AllInTime(Checked(s, m, e)) && AllPast(s, Checked(s, m, e), e.time)
    ensures RevivesInTime(s, m, e, m')
  {
  }

  /** A turn that starts no restart before the timeframe and changes no absent object keeps all objects in time. */
  lemma NextKeepsInTime(s: Setting, m: Machine, e: Entry, m': Machine, now: int)
    requires s.Timeframe() != 0 && m' in Successors(s, m, e) && AllInTime(m) && AllPast(s, m, now) && now <= e.time
    requires Undisturbed(m, e) && (e.event.InitialStatesLogged? ==> s.since <= e.time)
    ensures AllInTime(m') && RevivesInTime(s, m, e, m')
  {
    CheckedKeepsPast(s, m, e, now);
    CheckedKeepsInTime(s, m, e);
    HandledKeepsInTime(s, Checked(s, m, e), e, m');
    InTimeRevivesInTime(s, m, e, m');
  }

  lemma {:induction false} RunKeepsInTime(s: Setting, log: seq<Entry>, run: seq<Machine>, n: nat)
    requires s.Timeframe() != 0 && IsRun(s, log, run) && Ordered(log) && n < |run|
    requires forall e | e in log && e.event.InitialStatesLogged? :: s.since <= e.time
    requires forall i | 0 <= i < |run| - 1 :: Undisturbed(run[i], log[i])
    ensures AllInTime(run[n]) && AllRevivedInTime(s, log, run, n)
  {
    if n == 0 {
      StartDurations(s, run[0], 0);
    } else {
      RunKeepsInTime(s, log, run, n - 1);
      RunDurations(s, log, run, n - 1);
      assert log[n - 1] in log && Undisturbed(run[n - 1], log[n - 1]);
      assert TurnAt(s, log, run, n - 1);
      NextKeepsInTime(s, run[n - 1], log[n - 1], run[n], NowAt(log, n - 1));
      RevivedNext(s, log, run, n - 1);
    }
  }

  /**
   No reported interval has a negative length, through vanishing, revival and the final reports, if the log is in order,
   the monitoring core does not restart before the timeframe, and no timeperiod entry changes an absent object.
   */
  lemma DurationsAreNotNegative(s: Setting, log: seq<Entry>, run: seq<Machine>, m': Machine)
    requires s.since < s.until && s.Timeframe() != 0 && IsRun(s, log, run) && Ordered(log) &&
             Finals(s, run[|run| - 1], m')
    requires forall e | e in log && e.event.InitialStatesLogged? :: s.since <= e.time
    requires forall i | 0 <= i < |run| - 1 :: Undisturbed(run[i], log[i])
    ensures NoneNegative(m'.rows)
  {
    RunKeepsInTime(s, log, run, |run| - 1);
    DurationsExactly(s, log, run, m');
  }
}
