/**
 Objects in doubt after a restart of the monitoring core (src/TableStateHistory.cc): which events put them out of
 time, and concrete logs with rows of negative duration and with services that are left behind.
 */
module AbsentObjects {
  import opened HostServiceStates
  import opened StateHistory
  import opened TableStateHistories

  // ---------- Doubt, by events ----------

  /** The entry is a restart, and puts the object in doubt or does so again. */
  ghost predicate PutsInDoubt(s: Setting, m: Machine, e: Entry, k: Key) {
    e.event.InitialStatesLogged? && k in m.stateInfo && !Checked(s, m, e).stateInfo[k].hasVanished
  }

  predicate InDoubt(m: Machine, k: Key) {
    k in m.stateInfo && m.stateInfo[k].mayNoLongerExist
  }

  /**
   In the n-th state of the run the object is in doubt, and entry r is the last
   restart that it was there to notice.
   */
  ghost predicate InDoubtSince(s: Setting, log: seq<Entry>, run: seq<Machine>, k: Key, r: nat, n: nat)
    requires |run| <= |log| + 1
  {
    && r < n < |run| && PutsInDoubt(s, run[r], log[r], k)
    && forall j | r < j <= n :: InDoubt(run[j], k) && (j < n ==> !PutsInDoubt(s, run[j], log[j], k))
  }

  /**
   Since the restart, the timeframe has started strictly later, or a timeperiod
   has changed the object strictly later.
   */
  ghost predicate Overtaken(s: Setting, log: seq<Entry>, run: seq<Machine>, k: Key, r: nat, n: nat)
    requires r < n < |run| <= |log| + 1
  {
    log[r].time < s.since ||
    exists j :: r < j < n && log[r].time < log[j].time && k in run[j].stateInfo &&
      PeriodChanges(run[j].stateInfo[k], log[j])
  }

  /** A record that stays in doubt: its last known time stays, and its interval starts anew only by a timeperiod. */
  ghost predicate StaysInDoubt(before: HostServiceState, after: HostServiceState, e: Entry, onlyUpdate: bool) {
    && before.mayNoLongerExist && after.lastKnownTime == before.lastKnownTime
    && after.from == if !onlyUpdate && PeriodChanges(before, e) then e.time else before.from
  }

  lemma ObjectEntryInDoubt(s: Setting, c: Machine, e: Entry, m': Machine, k: Key)
    requires s.Timeframe() != 0 && Handled(s, c, e, m') && e.event.HasKey() && InDoubt(m', k)
    ensures k in c.stateInfo && StaysInDoubt(c.stateInfo[k], m'.stateInfo[k], e, c.onlyUpdate)
  {
    var key := e.event.key;
    var t := Tracking(s, c, key, e.time, m'.stateInfo[key].services);
    TargetReached(s, t, e, Concerned(s, t, e), m', k);
    UpdatedFlags(t.stateInfo[k], e, t.Ctx(s));
    TrackingKeepsDoubt(s, c, key, e.time, m'.stateInfo[key].services, k);
  }

  lemma TrackingKeepsDoubt(s: Setting, c: Machine, key: Key, time: int, services: seq<Key>, k: Key)
    requires InDoubt(Tracking(s, c, key, time, services), k)
    ensures k in c.stateInfo
    ensures var hs := Tracking(s, c, key, time, services).stateInfo[k];
            c.stateInfo[k].mayNoLongerExist && c.stateInfo[k].from == hs.from &&
              c.stateInfo[k].lastKnownTime == hs.lastKnownTime
  {
  }

  lemma TransitionInDoubt(s: Setting, c: Machine, e: Entry, m': Machine, k: Key)
    requires s.Timeframe() != 0 && Handled(s, c, e, m') && e.event.TimeperiodTransition? && InDoubt(m', k)
    ensures k in c.stateInfo && StaysInDoubt(c.stateInfo[k], m'.stateInfo[k], e, c.onlyUpdate)
  {
    var t := c.(periods := c.periods[e.event.name := e.event.to]);
    TargetReached(s, t, e, t.stateInfo.Keys, m', k);
    UpdatedFlags(t.stateInfo[k], e, t.Ctx(s));
    TransitionTimes(t.stateInfo[k], e, t.Ctx(s));
  }

  lemma HandledInDoubt(s: Setting, c: Machine, e: Entry, m': Machine, k: Key)
    requires s.Timeframe() != 0 && Handled(s, c, e, m') && InDoubt(m', k)
    requires e.event.InitialStatesLogged? && k in c.stateInfo ==>
               c.stateInfo[k].hasVanished && FlagsAgree(c.stateInfo[k])
    ensures k in c.stateInfo && StaysInDoubt(c.stateInfo[k], m'.stateInfo[k], e, c.onlyUpdate)
  {
    if e.event.HasKey() {
      ObjectEntryInDoubt(s, c, e, m', k);
    } else if e.event.TimeperiodTransition? {
      TransitionInDoubt(s, c, e, m', k);
    }
  }

  /** What one entry does to the two times of an object that is in doubt and is not put in doubt by it. */
  lemma StepInDoubt(s: Setting, m: Machine, e: Entry, m': Machine, k: Key, now: int)
    requires s.Timeframe() != 0 && m' in Successors(s, m, e) && AllCovered(s, m) && AllPast(s, m, now) && now <= e.time
    requires InDoubt(m', k) && !PutsInDoubt(s, m, e, k)
    ensures k in m.stateInfo && StaysInDoubt(m.stateInfo[k], m'.stateInfo[k], e, e.time < s.since)
  {
    var c := Checked(s, m, e);
    CheckedKeepsPast(s, m, e, now);
    assert Handled(s, c, e, m');
    HandledInDoubt(s, c, e, m', k);
    CheckedRecord(s, m, e, k, now);
  }

  /** The general checks only move the start of an interval to that of the timeframe, and mark objects as vanished. */
  lemma CheckedFields(s: Setting, m: Machine, e: Entry, k: Key)
    requires AllCovered(s, m) && k in m.stateInfo
    ensures k in Checked(s, m, e).stateInfo
    ensures var c := Checked(s, m, e).stateInfo[k]; c == m.stateInfo[k].(until := c.until, hasVanished := c.hasVanished)
  {
    assert Entered(s, m, e).stateInfo[k].from == m.stateInfo[k].from;
  }

  lemma CheckedRecord(s: Setting, m: Machine, e: Entry, k: Key, now: int)
    requires AllCovered(s, m) && AllPast(s, m, now) && now <= e.time && k in m.stateInfo
    ensures k in Checked(s, m, e).stateInfo && (Checked(s, m, e).onlyUpdate <==> e.time < s.since)
    ensures var hs, c := m.stateInfo[k], Checked(s, m, e).stateInfo[k];
            && c.from == hs.from && c.lastKnownTime == hs.lastKnownTime && c.mayNoLongerExist == hs.mayNoLongerExist
            && PeriodChanges(c, e) == PeriodChanges(hs, e)
  {
    CheckedFields(s, m, e, k);
  }

  lemma TransitionTimes(hs: HostServiceState, e: Entry, c: Context)
    requires c.timeframe != 0 && e.event.TimeperiodTransition?
    ensures var o := Updated(hs, e, c);
            && o.hs.lastKnownTime == hs.lastKnownTime
            && o.hs.from == if !c.onlyUpdate && PeriodChanges(hs, e) then e.time else hs.from
  {
  }

  /** A restart finds the object in time, unless the timeframe has not started. */
  lemma RestartInDoubt(s: Setting, m: Machine, e: Entry, m': Machine, k: Key, now: int)
    requires s.Timeframe() != 0 && m' in Successors(s, m, e) && AllCovered(s, m) && AllPast(s, m, now) && now <= e.time
    requires PutsInDoubt(s, m, e, k)
    ensures InDoubt(m', k) && m'.stateInfo[k].lastKnownTime == e.time
    ensures InTime(m'.stateInfo[k]) <==> s.since <= e.time
  {
    CheckedRecord(s, m, e, k, now);
    CheckedKeepsPast(s, m, e, now);
  }

  lemma InDoubtSinceNext(s: Setting, log: seq<Entry>, run: seq<Machine>, k: Key, r: nat, n: nat)
    requires |run| <= |log| + 1 && r < n && n + 1 < |run|
    ensures InDoubtSince(s, log, run, k, r, n + 1) <==>
            InDoubtSince(s, log, run, k, r, n) && !PutsInDoubt(s, run[n], log[n], k) && InDoubt(run[n + 1], k)
  {
  }

  /** A turn of a run, for an object that is in doubt behind it. */
  lemma TurnInDoubt(s: Setting, log: seq<Entry>, run: seq<Machine>, k: Key, n: nat)
    requires s.Timeframe() != 0 && IsRun(s, log, run) && Ordered(log) && n + 1 < |run|
    requires InDoubt(run[n + 1], k) && !PutsInDoubt(s, run[n], log[n], k)
    ensures InDoubt(run[n], k) && StaysInDoubt(run[n].stateInfo[k], run[n + 1].stateInfo[k], log[n],
                                               log[n].time < s.since)
    ensures run[n].stateInfo[k].from <= s.since || run[n].stateInfo[k].from <= log[n].time
  {
    RunDurations(s, log, run, n);
    assert TurnAt(s, log, run, n);
    StepInDoubt(s, run[n], log[n], run[n + 1], k, NowAt(log, n));
    StartsBefore(s, run[n], k, NowAt(log, n));
  }

  /** One more entry, seen from the last restart. */
  lemma OutOfTimeStep(s: Setting, log: seq<Entry>, run: seq<Machine>, k: Key, r: nat, n: nat)
    requires s.Timeframe() != 0 && IsRun(s, log, run) && Ordered(log) && r < n && n + 1 < |run|
    requires InDoubt(run[n + 1], k) && !PutsInDoubt(s, run[n], log[n], k)
    requires k in run[n].stateInfo && run[n].stateInfo[k].lastKnownTime == log[r].time
    requires !InTime(run[n].stateInfo[k]) <==> Overtaken(s, log, run, k, r, n)
    ensures run[n + 1].stateInfo[k].lastKnownTime == log[r].time
    ensures !InTime(run[n + 1].stateInfo[k]) <==> Overtaken(s, log, run, k, r, n + 1)
  {
    OvertakenNext(s, log, run, k, r, n);
    TurnInDoubt(s, log, run, k, n);
  }

  lemma OutOfTimeStart(s: Setting, log: seq<Entry>, run: seq<Machine>, k: Key, r: nat)
    requires s.Timeframe() != 0 && IsRun(s, log, run) && Ordered(log) && r + 1 < |run| &&
             PutsInDoubt(s, run[r], log[r], k)
    ensures k in run[r + 1].stateInfo && run[r + 1].stateInfo[k].lastKnownTime == log[r].time
    ensures !InTime(run[r + 1].stateInfo[k]) <==> Overtaken(s, log, run, k, r, r + 1)
  {
    RunDurations(s, log, run, r);
    assert TurnAt(s, log, run, r);
    RestartInDoubt(s, run[r], log[r], run[r + 1], k, NowAt(log, r));
  }

  lemma StartsBefore(s: Setting, m: Machine, k: Key, now: int)
    requires AllCovered(s, m) && AllPast(s, m, now) && k in m.stateInfo
    ensures m.stateInfo[k].from <= (if m.onlyUpdate then s.since else now)
  {
    assert Covered(s, m.rows, k, m.stateInfo[k]);
  }

  /** An object in doubt is out of time if and only if it has been overtaken since its last restart. */
  lemma {:induction false} OutOfTimeExactly(s: Setting, log: seq<Entry>, run: seq<Machine>, k: Key, r: nat, n: nat)
    requires s.Timeframe() != 0 && IsRun(s, log, run) && Ordered(log) && InDoubtSince(s, log, run, k, r, n)
    ensures run[n].stateInfo[k].lastKnownTime == log[r].time
    ensures !InTime(run[n].stateInfo[k]) <==> Overtaken(s, log, run, k, r, n)
    decreases n
  {
    if n == r + 1 {
      OutOfTimeStart(s, log, run, k, r);
    } else {
      InDoubtSinceNext(s, log, run, k, r, n - 1);
      OutOfTimeExactly(s, log, run, k, r, n - 1);
      OutOfTimeStep(s, log, run, k, r, n - 1);
    }
  }

  lemma OvertakenNext(s: Setting, log: seq<Entry>, run: seq<Machine>, k: Key, r: nat, n: nat)
    requires r < n && n + 1 < |run| <= |log| + 1 && k in run[n].stateInfo
    ensures Overtaken(s, log, run, k, r, n + 1) <==>
            Overtaken(s, log, run, k, r, n) || (log[r].time < log[n].time && PeriodChanges(run[n].stateInfo[k], log[n]))
  {
  }

  /** Every doubt began with a restart. */
  lemma {:induction false} DoubtBegins(s: Setting, log: seq<Entry>, run: seq<Machine>, k: Key, n: nat) returns (r: nat)
    requires s.Timeframe() != 0 && IsRun(s, log, run) && Ordered(log) && n < |run| && InDoubt(run[n], k)
    ensures InDoubtSince(s, log, run, k, r, n)
  {
    assert n > 0;
    if PutsInDoubt(s, run[n - 1], log[n - 1], k) {
      r := n - 1;
    } else {
      TurnInDoubt(s, log, run, k, n - 1);
      r := DoubtBegins(s, log, run, k, n - 1);
      InDoubtSinceNext(s, log, run, k, r, n - 1);
    }
  }

  // ---------- Vanishing, by events ----------

  /** An object in doubt that has not vanished is still waited for among the initial states. */
  ghost predicate StillWaitedFor(m: Machine, k: Key)
    requires k in m.stateInfo
  {
    FlagsAgree(m.stateInfo[k]) && (m.stateInfo[k].mayNoLongerExist && !m.stateInfo[k].hasVanished ==> m.inInitialStates)
  }

  ghost predicate AllWaitedFor(m: Machine) {
    forall k | k in m.stateInfo :: StillWaitedFor(m, k)
  }

  predicate HasVanished(m: Machine, k: Key) {
    k in m.stateInfo && m.stateInfo[k].hasVanished
  }

  /** The general checks: every entry that is no initial state ends the wait. */
  lemma CheckedVanishes(s: Setting, m: Machine, e: Entry, k: Key)
    requires AllWaitedFor(m) && k in m.stateInfo
    ensures var c := Checked(s, m, e);
            && k in c.stateInfo && StillWaitedFor(c, k) && (InDoubt(c, k) <==> InDoubt(m, k))
            && (HasVanished(c, k) <==> InDoubt(m, k) && (HasVanished(m, k) || !e.event.IsInitialState()))
  {
    assert StillWaitedFor(m, k);
  }

  /** The entry updates the record. */
  ghost predicate Reaches(s: Setting, c: Machine, e: Entry, m': Machine, k: Key)
    requires s.Timeframe() != 0
  {
    && e.event.HasKey() && e.event.key in m'.stateInfo
    && k in Concerned(s, Tracking(s, c, e.event.key, e.time, m'.stateInfo[e.event.key].services), e)
  }

  /** What an entry other than a restart makes of the two flags: it leaves them alone, or clears both. */
  ghost predicate FlagsAfter(c: Machine, m': Machine, k: Key)
    requires k in m'.stateInfo
  {
    var hs := m'.stateInfo[k];
    || (!hs.mayNoLongerExist && !hs.hasVanished)
    || (k in c.stateInfo && hs.mayNoLongerExist == c.stateInfo[k].mayNoLongerExist &&
        hs.hasVanished == c.stateInfo[k].hasVanished)
  }

  lemma TargetFlags(s: Setting, t: Machine, e: Entry, keys: set<Key>, m': Machine, k: Key)
    requires s.Timeframe() != 0 && UpdatedAt(s, t, e, keys, m') && k in m'.stateInfo && e.event.HasKey()
    ensures m'.inInitialStates == t.inInitialStates && k in t.stateInfo
    ensures var hs := m'.stateInfo[k];
            if k in keys then !hs.mayNoLongerExist && !hs.hasVanished else hs == t.stateInfo[k]
  {
    TargetReached(s, t, e, keys, m', k);
    UpdatedFlags(t.stateInfo[k], e, t.Ctx(s));
  }

  lemma TrackedEntryFlags(s: Setting, c: Machine, e: Entry, services: seq<Key>, t: Machine, keys: set<Key>, m': Machine,
                          k: Key)
    requires s.Timeframe() != 0 && UpdatedAt(s, t, e, keys, m') && k in m'.stateInfo && e.event.HasKey()
    requires t == Tracking(s, c, e.event.key, e.time, services)
    ensures FlagsAfter(c, m', k) && m'.inInitialStates == c.inInitialStates
    ensures InDoubt(c, k) ==> (InDoubt(m', k) <==> k !in keys)
  {
    TargetFlags(s, t, e, keys, m', k);
    TrackedFlags(s, c, e.event.key, e.time, services, k);
  }

  lemma ObjectEntryFlags(s: Setting, c: Machine, e: Entry, m': Machine, k: Key)
    requires s.Timeframe() != 0 && Handled(s, c, e, m') && k in m'.stateInfo && e.event.HasKey()
    ensures FlagsAfter(c, m', k) && m'.inInitialStates == c.inInitialStates
    ensures InDoubt(c, k) ==> (InDoubt(m', k) <==> !Reaches(s, c, e, m', k))
  {
    var services := m'.stateInfo[e.event.key].services;
    var t := Tracking(s, c, e.event.key, e.time, services);
    TrackedEntryFlags(s, c, e, services, t, Concerned(s, t, e), m', k);
  }

  lemma TrackedFlags(s: Setting, c: Machine, key: Key, time: int, services: seq<Key>, k: Key)
    requires k in Tracking(s, c, key, time, services).stateInfo
    ensures Tracking(s, c, key, time, services).inInitialStates == c.inInitialStates
    ensures var hs := Tracking(s, c, key, time, services).stateInfo[k];
            if k in c.stateInfo then
              hs.mayNoLongerExist == c.stateInfo[k].mayNoLongerExist && hs.hasVanished == c.stateInfo[k].hasVanished
            else !hs.mayNoLongerExist && !hs.hasVanished
  {
  }

  lemma TransitionFlags(s: Setting, c: Machine, e: Entry, m': Machine, k: Key)
    requires s.Timeframe() != 0 && Handled(s, c, e, m') && k in m'.stateInfo && e.event.TimeperiodTransition?
    ensures FlagsAfter(c, m', k) && m'.inInitialStates == c.inInitialStates
  {
    var t := c.(periods := c.periods[e.event.name := e.event.to]);
    TargetReached(s, t, e, t.stateInfo.Keys, m', k);
    UpdatedFlags(t.stateInfo[k], e, t.Ctx(s));
  }

  /** A restart puts everything in doubt and leaves the vanished objects as they are; see above for other entries. */
  lemma HandledFlags(s: Setting, c: Machine, e: Entry, m': Machine, k: Key)
    requires s.Timeframe() != 0 && Handled(s, c, e, m') && k in m'.stateInfo
    requires k in c.stateInfo ==> FlagsAgree(c.stateInfo[k])
    ensures !e.event.InitialStatesLogged? ==> FlagsAfter(c, m', k) && m'.inInitialStates == c.inInitialStates
    ensures e.event.InitialStatesLogged? ==>
              k in c.stateInfo && InDoubt(m', k) && HasVanished(m', k) == HasVanished(c, k) && m'.inInitialStates
  {
    if e.event.HasKey() {
      ObjectEntryFlags(s, c, e, m', k);
    } else if e.event.TimeperiodTransition? {
      TransitionFlags(s, c, e, m', k);
    }
  }

  /** One turn: a restart puts in doubt what is not in doubt; any other entry but an initial state makes vanish. */
  lemma VanishedStep(s: Setting, m: Machine, e: Entry, m': Machine, k: Key)
    requires s.Timeframe() != 0 && m' in Successors(s, m, e) && AllWaitedFor(m) && k in m'.stateInfo
    ensures StillWaitedFor(m', k)
    ensures HasVanished(m', k) <==>
            InDoubt(m', k) && InDoubt(m, k) && (HasVanished(m, k) || !e.event.IsInitialState())
    ensures InDoubt(m', k) && !InDoubt(m, k) ==> e.event.InitialStatesLogged? && k in m.stateInfo
    ensures PutsInDoubt(s, m, e, k) <==> e.event.InitialStatesLogged? && k in m.stateInfo && !InDoubt(m, k)
    ensures e.event.InitialStatesLogged? ==> InDoubt(m', k)
  {
    var c := Checked(s, m, e);
    assert Handled(s, c, e, m');
    if k in m.stateInfo {
      CheckedVanishes(s, m, e, k);
    }
    assert k !in m.stateInfo ==> k !in c.stateInfo;
    HandledFlags(s, c, e, m', k);
  }

  lemma TurnKeepsWaiting(s: Setting, m: Machine, e: Entry, m': Machine)
    requires s.Timeframe() != 0 && m' in Successors(s, m, e) && AllWaitedFor(m)
    ensures AllWaitedFor(m')
  {
    forall k | k in m'.stateInfo
      ensures StillWaitedFor(m', k)
    {
      VanishedStep(s, m, e, m', k);
    }
  }

  ghost function WaitedStates(run: seq<Machine>): iset<nat> {
    iset n: nat | n < |run| && AllWaitedFor(run[n])
  }

  lemma TurnWaits(s: Setting, log: seq<Entry>, run: seq<Machine>, n: nat)
    requires s.Timeframe() != 0 && IsRun(s, log, run) && n + 1 < |run| && n in WaitedStates(run)
    ensures n + 1 in WaitedStates(run)
  {
    assert TurnAt(s, log, run, n);
    TurnKeepsWaiting(s, run[n], log[n], run[n + 1]);
  }

  lemma {:induction false} RunWaits(s: Setting, log: seq<Entry>, run: seq<Machine>, n: nat)
    requires s.Timeframe() != 0 && IsRun(s, log, run) && n < |run|
    ensures n in WaitedStates(run)
  {
    if n > 0 {
      RunWaits(s, log, run, n - 1);
      TurnWaits(s, log, run, n - 1);
    }
  }

  /** The object has been in doubt since entry r, a restart. */
  ghost predicate DoubtedSince(log: seq<Entry>, run: seq<Machine>, k: Key, r: nat, n: nat) {
    && r < n < |run| <= |log| + 1
    && log[r].event.InitialStatesLogged? && k in run[r].stateInfo && !InDoubt(run[r], k)
    && forall j | r < j <= n :: InDoubt(run[j], k)
  }

  /** Since then another entry has come than the initial state of an object, be it configured or not. */
  ghost predicate WaitIsOver(log: seq<Entry>, r: nat, n: nat) {
    exists j :: r < j < n <= |log| &&
                match log[j].event
                case StateEvent(_, initial, _) => !initial
                case OtherEvent(initial) => !initial
                case _ => true
  }

  /** What turn n makes of an object that is in doubt behind it. */
  lemma TurnVanishes(s: Setting, log: seq<Entry>, run: seq<Machine>, k: Key, n: nat)
    requires s.Timeframe() != 0 && IsRun(s, log, run) && n + 1 < |run| && InDoubt(run[n + 1], k)
    ensures HasVanished(run[n + 1], k) <==>
            InDoubt(run[n], k) && (HasVanished(run[n], k) || !log[n].event.IsInitialState())
    ensures !InDoubt(run[n], k) ==> log[n].event.InitialStatesLogged? && k in run[n].stateInfo
  {
    RunWaits(s, log, run, n);
    assert TurnAt(s, log, run, n);
    VanishedStep(s, run[n], log[n], run[n + 1], k);
  }

  lemma {:induction false} DoubtedBy(s: Setting, log: seq<Entry>, run: seq<Machine>, k: Key, n: nat) returns (r: nat)
    requires s.Timeframe() != 0 && IsRun(s, log, run) && n < |run| && InDoubt(run[n], k)
    ensures DoubtedSince(log, run, k, r, n)
  {
    assert n > 0;
    TurnVanishes(s, log, run, k, n - 1);
    if InDoubt(run[n - 1], k) {
      r := DoubtedBy(s, log, run, k, n - 1);
    } else {
      r := n - 1;
    }
  }

  /**
   Exactly the objects have vanished that a restart has put in doubt and that are still in doubt behind the initial
   states.
   */
  lemma {:induction false} VanishedExactly(s: Setting, log: seq<Entry>, run: seq<Machine>, k: Key, r: nat, n: nat)
    requires s.Timeframe() != 0 && IsRun(s, log, run) && DoubtedSince(log, run, k, r, n)
    ensures HasVanished(run[n], k) <==> WaitIsOver(log, r, n)
    decreases n
  {
    TurnVanishes(s, log, run, k, n - 1);
    if r < n - 1 {
      VanishedExactly(s, log, run, k, r, n - 1);
      assert WaitIsOver(log, r, n) <==> WaitIsOver(log, r, n - 1) || !log[n - 1].event.IsInitialState();
    }
  }

  /** What has vanished is in doubt, and a revival ends both. */
  lemma RevivedExactly(s: Setting, log: seq<Entry>, run: seq<Machine>, k: Key, n: nat)
    requires s.Timeframe() != 0 && IsRun(s, log, run) && Ordered(log) && n + 1 < |run|
    ensures HasVanished(run[n], k) ==> InDoubt(run[n], k)
    ensures RevivedBy(s, run[n], log[n], run[n + 1], k) <==>
            && s.since <= log[n].time && InDoubt(run[n], k) && !InDoubt(run[n + 1], k)
            && (HasVanished(run[n], k) || !log[n].event.IsInitialState())
  {
    RunWaits(s, log, run, n);
    RunDurations(s, log, run, n);
    assert TurnAt(s, log, run, n);
    if k in run[n].stateInfo {
      assert StillWaitedFor(run[n], k);
      RevivedStep(s, run[n], log[n], run[n + 1], k, NowAt(log, n));
    }
  }

  lemma RevivedStep(s: Setting, m: Machine, e: Entry, m': Machine, k: Key, now: int)
    requires s.Timeframe() != 0 && m' in Successors(s, m, e) && AllWaitedFor(m) && k in m.stateInfo
    requires AllPast(s, m, now) && now <= e.time && AllCovered(s, m)
    ensures RevivedBy(s, m, e, m', k) <==>
            s.since <= e.time && InDoubt(m, k) && !InDoubt(m', k) && (HasVanished(m, k) || !e.event.IsInitialState())
  {
    var c := Checked(s, m, e);
    assert Handled(s, c, e, m');
    CheckedVanishes(s, m, e, k);
    CheckedRecord(s, m, e, k, now);
    RevivedByParts(s, m, e, m', k, c);
    if InDoubt(m, k) {
      DoubtEnds(s, c, e, m', k);
    }
  }

  lemma RevivedByParts(s: Setting, m: Machine, e: Entry, m': Machine, k: Key, c: Machine)
    requires s.Timeframe() != 0 && c == Checked(s, m, e) && k in m.stateInfo
    ensures RevivedBy(s, m, e, m', k) <==> !c.onlyUpdate && HasVanished(c, k) && Reaches(s, c, e, m', k)
  {
  }

  lemma KeysStay(s: Setting, c: Machine, e: Entry, m': Machine, k: Key)
    requires s.Timeframe() != 0 && Handled(s, c, e, m') && e.event.HasKey() && k in c.stateInfo
    ensures k in m'.stateInfo
  {
    assert k in Tracking(s, c, e.event.key, e.time, m'.stateInfo[e.event.key].services).stateInfo;
  }

  lemma TransitionKeepsDoubt(s: Setting, c: Machine, e: Entry, m': Machine, k: Key)
    requires s.Timeframe() != 0 && Handled(s, c, e, m') && e.event.TimeperiodTransition? && InDoubt(c, k)
    ensures InDoubt(m', k)
  {
    var t := c.(periods := c.periods[e.event.name := e.event.to]);
    assert k in m'.stateInfo;
    TargetReached(s, t, e, t.stateInfo.Keys, m', k);
    UpdatedFlags(t.stateInfo[k], e, t.Ctx(s));
  }

  /** Doubt ends when the record is updated. */
  lemma DoubtEnds(s: Setting, c: Machine, e: Entry, m': Machine, k: Key)
    requires s.Timeframe() != 0 && Handled(s, c, e, m') && InDoubt(c, k)
    ensures !InDoubt(m', k) <==> Reaches(s, c, e, m', k)
  {
    if e.event.HasKey() {
      KeysStay(s, c, e, m', k);
      ObjectEntryFlags(s, c, e, m', k);
    } else if e.event.TimeperiodTransition? {
      TransitionKeepsDoubt(s, c, e, m', k);
    }
  }

  /** The object has been overtaken since the restart that put it in doubt. */
  ghost predicate OutOfTime(s: Setting, log: seq<Entry>, run: seq<Machine>, k: Key, n: nat)
    requires |run| <= |log| + 1
  {
    exists r: nat :: InDoubtSince(s, log, run, k, r, n) && Overtaken(s, log, run, k, r, n)
  }

  lemma OutOfTimeByEvents(s: Setting, log: seq<Entry>, run: seq<Machine>, k: Key, n: nat)
    requires s.Timeframe() != 0 && IsRun(s, log, run) && Ordered(log) && n < |run| && InDoubt(run[n], k)
    ensures InTime(run[n].stateInfo[k]) <==> !OutOfTime(s, log, run, k, n)
  {
    var r := DoubtBegins(s, log, run, k, n);
    OutOfTimeExactly(s, log, run, k, r, n);
    forall q: nat | InDoubtSince(s, log, run, k, q, n) && Overtaken(s, log, run, k, q, n)
      ensures !InTime(run[n].stateInfo[k])
    {
      OutOfTimeExactly(s, log, run, k, q, n);
    }
  }

  /** The entry is in the timeframe and revives an object that has vanished: its own, or a service of its host. */
  ghost predicate RevivedBy(s: Setting, m: Machine, e: Entry, m': Machine, k: Key)
    requires s.Timeframe() != 0
  {
    && e.event.HasKey() && e.event.key in m'.stateInfo && k in m.stateInfo
    && !Checked(s, m, e).onlyUpdate && Checked(s, m, e).stateInfo[k].hasVanished
    && k in Concerned(s, Tracking(s, Checked(s, m, e), e.event.key, e.time, m'.stateInfo[e.event.key].services), e)
  }

  /** Turn n revives no object that has been overtaken. */
  ghost predicate NoLateRevival(s: Setting, log: seq<Entry>, run: seq<Machine>, n: nat)
    requires s.Timeframe() != 0 && n + 1 < |run| <= |log| + 1
  {
    forall k | RevivedBy(s, run[n], log[n], run[n + 1], k) :: !OutOfTime(s, log, run, k, n)
  }

  lemma TrackedTimes(s: Setting, c: Machine, key: Key, time: int, services: seq<Key>, k: Key)
    requires k in Tracking(s, c, key, time, services).stateInfo
    ensures var hs := Tracking(s, c, key, time, services).stateInfo[k];
            if k in c.stateInfo then
              && hs.hasVanished == c.stateInfo[k].hasVanished && hs.from == c.stateInfo[k].from
              && hs.lastKnownTime == c.stateInfo[k].lastKnownTime
            else !hs.hasVanished
  {
  }

  lemma CheckedDoubt(s: Setting, m: Machine, e: Entry, k: Key, now: int)
    requires AllPast(s, m, now) && now <= e.time && k in m.stateInfo && Checked(s, m, e).stateInfo[k].hasVanished
    ensures InDoubt(m, k)
  {
    CheckedKeepsPast(s, m, e, now);
    assert FlagsAgree(Checked(s, m, e).stateInfo[k]);
  }

  lemma TooLateByKey(s: Setting, m: Machine, e: Entry, t: Machine, services: seq<Key>, k: Key, now: int)
    requires AllCovered(s, m) && AllPast(s, m, now) && now <= e.time && e.event.HasKey()
    requires t == Tracking(s, Checked(s, m, e), e.event.key, e.time, services) && k in t.stateInfo
    ensures TooLate(t.stateInfo[k], e) <==>
            k in m.stateInfo && Checked(s, m, e).stateInfo[k].hasVanished && !InTime(m.stateInfo[k])
    ensures k in m.stateInfo && Checked(s, m, e).stateInfo[k].hasVanished ==> InDoubt(m, k)
  {
    TrackedTimes(s, Checked(s, m, e), e.event.key, e.time, services, k);
    if k in m.stateInfo {
      CheckedRecord(s, m, e, k, now);
      if Checked(s, m, e).stateInfo[k].hasVanished {
        CheckedDoubt(s, m, e, k, now);
      }
    }
  }

  lemma RevivedIsTracked(s: Setting, m: Machine, e: Entry, t: Machine, services: seq<Key>, k: Key)
    requires e.event.HasKey() && k in m.stateInfo
    requires t == Tracking(s, Checked(s, m, e), e.event.key, e.time, services)
    ensures k in t.stateInfo
  {
  }

  lemma RevivalsByKey(s: Setting, m: Machine, e: Entry, m': Machine, now: int)
    requires s.Timeframe() != 0 && AllCovered(s, m) && AllPast(s, m, now) && now <= e.time
    requires e.event.HasKey() && e.event.key in m'.stateInfo
    ensures RevivesInTime(s, m, e, m') <==> forall k | RevivedBy(s, m, e, m', k) :: InTime(m.stateInfo[k])
    ensures forall k | RevivedBy(s, m, e, m', k) :: InDoubt(m, k)
  {
    var c, services := Checked(s, m, e), m'.stateInfo[e.event.key].services;
    var t := Tracking(s, c, e.event.key, e.time, services);
    forall k | RevivedBy(s, m, e, m', k)
      ensures k in t.stateInfo && InDoubt(m, k) && (TooLate(t.stateInfo[k], e) <==> !InTime(m.stateInfo[k]))
    {
      RevivedIsTracked(s, m, e, t, services, k);
      TooLateByKey(s, m, e, t, services, k, now);
    }
    forall k | !c.onlyUpdate && k in Concerned(s, t, e) && k in t.stateInfo && TooLate(t.stateInfo[k], e)
      ensures RevivedBy(s, m, e, m', k)
    {
      TooLateByKey(s, m, e, t, services, k, now);
    }
  }

  lemma LateRevivalByEvents(s: Setting, log: seq<Entry>, run: seq<Machine>, n: nat)
    requires s.Timeframe() != 0 && IsRun(s, log, run) && Ordered(log) && n + 1 < |run|
    ensures RevivesInTime(s, run[n], log[n], run[n + 1]) <==> NoLateRevival(s, log, run, n)
  {
    var m, e, m' := run[n], log[n], run[n + 1];
    if e.event.HasKey() && e.event.key in m'.stateInfo {
      RunDurations(s, log, run, n);
      RevivalsByKey(s, m, e, m', NowAt(log, n));
      forall k | RevivedBy(s, m, e, m', k)
        ensures InTime(m.stateInfo[k]) <==> !OutOfTime(s, log, run, k, n)
      {
        OutOfTimeByEvents(s, log, run, k, n);
      }
    }
  }

  /** No object is absent at the end after it has been overtaken. */
  ghost predicate NoLateEnd(s: Setting, log: seq<Entry>, run: seq<Machine>, n: nat)
    requires n < |run| <= |log| + 1
  {
    forall k | InDoubt(run[n], k) :: !OutOfTime(s, log, run, k, n)
  }

  lemma LateEndByEvents(s: Setting, log: seq<Entry>, run: seq<Machine>)
    requires s.Timeframe() != 0 && IsRun(s, log, run) && Ordered(log)
    ensures ClosesInTime(run[|run| - 1]) <==> NoLateEnd(s, log, run, |run| - 1)
  {
    var n := |run| - 1;
    forall k | InDoubt(run[n], k)
      ensures InTime(run[n].stateInfo[k]) <==> !OutOfTime(s, log, run, k, n)
    {
      OutOfTimeByEvents(s, log, run, k, n);
    }
    assert ClosesInTime(run[n]) <==> forall k | InDoubt(run[n], k) :: InTime(run[n].stateInfo[k]);
  }

  /**
   Exactly when no reported interval of a complete answer has a negative length, by events, for a log in order: when
   no object is revived in the timeframe, and none is absent at its end, after it was overtaken since the restart that
   put it in doubt.
   */
  lemma DurationsByEvents(s: Setting, log: seq<Entry>, run: seq<Machine>, m': Machine)
    requires s.since < s.until && s.Timeframe() != 0 && IsRun(s, log, run) && Ordered(log) &&
             Finals(s, run[|run| - 1], m')
    ensures NoneNegative(m'.rows) <==>
            (forall n: nat | n + 1 < |run| :: NoLateRevival(s, log, run, n)) && NoLateEnd(s, log, run, |run| - 1)
  {
    DurationsExactly(s, log, run, m');
    forall n: nat | n + 1 < |run|
      ensures RevivesInTime(s, run[n], log[n], run[n + 1]) <==> NoLateRevival(s, log, run, n)
    {
      LateRevivalByEvents(s, log, run, n);
    }
    LateEndByEvents(s, log, run);
  }

  // ---------- A log with a row of negative duration ----------

  const HOST := HostKey("h")
  const SERVICE := ServiceKey("h", "s")

  /**
   A host is down, the core restarts, the host is not among the initial states,
   and then its notification period ends.
   */
  function AbsentHostLog(): seq<Entry> {
    [Entry(100, StateEvent(HOST, false, 1)), Entry(200, InitialStatesLogged), Entry(201, OtherEvent(false)),
     Entry(300, TimeperiodTransition("day", 0))]
  }

  predicate IsExample(s: Setting) {
    s.since == 50 && s.until == 1000 && s.notificationPeriodOf(HOST) == "day" && s.servicePeriodOf(HOST) == "always"
  }

  /** The only object is the host, with these times. */
  ghost predicate HostAlone(s: Setting, m: Machine, from: int, doubt: bool, vanished: bool, lastKnownTime: int) {
    && m.stateInfo.Keys == {HOST} && !m.onlyUpdate
    && var hs := m.stateInfo[HOST];
       && hs.notificationPeriod == "day" && hs.servicePeriod == "always" && hs.from == from
       && hs.mayNoLongerExist == doubt && hs.hasVanished == vanished && (doubt ==> hs.lastKnownTime == lastKnownTime)
       && (from < 300 ==> hs.info.inNotificationPeriod == 1)
  }

  lemma AlertTracksHost(s: Setting, m': Machine)
    requires IsExample(s) && m' in Successors(s, START, AbsentHostLog()[0])
    ensures HostAlone(s, m', 100, false, false, 0) && !m'.inInitialStates
  {
    var e, c := AbsentHostLog()[0], Checked(s, START, AbsentHostLog()[0]);
    assert Handled(s, c, e, m');
    var services := m'.stateInfo[HOST].services;
    var t := Tracking(s, c, HOST, e.time, services);
    assert (set k | k in services) == {};
    assert Concerned(s, t, e) == {HOST};
    OnlyOneUpdated(s, t, e, HOST, m');
    AlertedRecord(t.stateInfo[HOST], e, t.Ctx(s));
  }

  lemma AlertedRecord(hs: HostServiceState, e: Entry, c: Context)
    requires c.timeframe != 0 && !c.onlyUpdate && hs.key == HOST && hs.info.state == 0 && !hs.hasVanished
    requires e == Entry(100, StateEvent(HOST, false, 1))
    ensures var o := Updated(hs, e, c).hs;
            && o.from == 100 && !o.mayNoLongerExist && !o.hasVanished
            && o.notificationPeriod == hs.notificationPeriod && o.servicePeriod == hs.servicePeriod
            && o.info.inNotificationPeriod == hs.info.inNotificationPeriod
  {
  }

  lemma RestartDoubtsHost(s: Setting, m: Machine, m': Machine)
    requires IsExample(s) && m' in Successors(s, m, AbsentHostLog()[1])
    requires HostAlone(s, m, 100, false, false, 0) && !m.inInitialStates
    ensures HostAlone(s, m', 100, true, false, 200) && m'.inInitialStates
  {
    assert Handled(s, Checked(s, m, AbsentHostLog()[1]), AbsentHostLog()[1], m');
  }

  lemma OtherLineMarksHost(s: Setting, m: Machine, m': Machine)
    requires IsExample(s) && m' in Successors(s, m, AbsentHostLog()[2])
    requires HostAlone(s, m, 100, true, false, 200) && m.inInitialStates
    ensures HostAlone(s, m', 100, true, true, 200) && !m'.inInitialStates
  {
    assert Handled(s, Checked(s, m, AbsentHostLog()[2]), AbsentHostLog()[2], m');
  }

  lemma PeriodMovesHost(s: Setting, m: Machine, m': Machine)
    requires IsExample(s) && m' in Successors(s, m, AbsentHostLog()[3])
    requires HostAlone(s, m, 100, true, true, 200) && !m.inInitialStates
    ensures HostAlone(s, m', 300, true, true, 200)
  {
    var e := AbsentHostLog()[3];
    assert Checked(s, m, e) == m;
    var t := m.(periods := m.periods["day" := 0]);
    OnlyOneUpdated(s, t, e, HOST, m');
    TransitionTimes(t.stateInfo[HOST], e, t.Ctx(s));
    UpdatedFlags(t.stateInfo[HOST], e, t.Ctx(s));
    TransitionKeepsPeriods(t.stateInfo[HOST], e, t.Ctx(s));
  }

  lemma TransitionKeepsPeriods(hs: HostServiceState, e: Entry, c: Context)
    requires c.timeframe != 0 && e.event.TimeperiodTransition?
    ensures Updated(hs, e, c).hs.notificationPeriod == hs.notificationPeriod
    ensures Updated(hs, e, c).hs.servicePeriod == hs.servicePeriod
  {
  }

  lemma AbsentHostRun(s: Setting, run: seq<Machine>)
    requires IsExample(s) && |run| == 5 && run[0] == START && IsRun(s, AbsentHostLog(), run)
    ensures HostAlone(s, run[4], 300, true, true, 200)
  {
    var log := AbsentHostLog();
    assert TurnAt(s, log, run, 0) && TurnAt(s, log, run, 1) && TurnAt(s, log, run, 2) && TurnAt(s, log, run, 3);
    AlertTracksHost(s, run[1]);
    RestartDoubtsHost(s, run[1], run[2]);
    OtherLineMarksHost(s, run[2], run[3]);
    PeriodMovesHost(s, run[3], run[4]);
  }

  /** The complete answer to this log has a row of negative duration. */
  lemma AbsentHostIsNegative(s: Setting, run: seq<Machine>, m': Machine)
    requires IsExample(s) && run != [] && run[0] == START && IsAnswer(s, AbsentHostLog(), run, m')
    ensures !NoneNegative(m'.rows)
  {
    assert |run| == 5;
    AbsentHostRun(s, run);
    assert !InTime(run[4].stateInfo[HOST]);
    DurationsExactly(s, AbsentHostLog(), run, m');
  }

  function ExampleSetting(): Setting {
    Setting(50, 1000, k => "day", k => "always")
  }

  /** The query is answered, and one of its rows is negative. */
  method AnswerAboutAbsentHost() returns (rows: seq<HostServiceState>)
    ensures !NoneNegative(rows)
  {
    var table := new TableStateHistory(ExampleSetting(), rows => true);
    var answer, run, final := table.AnswerQuery(AbsentHostLog());
    AbsentHostIsNegative(ExampleSetting(), run, final);
    rows := table.rows;
  }

  // ---------- A log with a service that is left behind ----------

  /** A service is up, and then its host is found down among the initial states. */
  function LeftBehindLog(): seq<Entry> {
    [Entry(100, StateEvent(SERVICE, false, 0)), Entry(150, StateEvent(HOST, true, 1))]
  }

  ghost predicate ServiceAlone(m: Machine) {
    && m.stateInfo.Keys == {SERVICE} && !m.onlyUpdate && !m.inInitialStates
    && var hs := m.stateInfo[SERVICE];
       hs.key == SERVICE && !hs.info.hostDown && !hs.info.inHostDowntime && !hs.mayNoLongerExist && !hs.hasVanished
  }

  lemma AliveServiceStaysUp(hs: HostServiceState, c: Context)
    requires c.timeframe != 0 && !hs.info.hostDown && !hs.info.inHostDowntime
    ensures var o := Updated(hs, LeftBehindLog()[0], c);
            && o.hs.key == hs.key && !o.hs.info.hostDown && !o.hs.info.inHostDowntime
            && !o.hs.mayNoLongerExist && !o.hs.hasVanished
  {
    UpdatedHostColumns(hs, LeftBehindLog()[0], c);
    UpdatedFlags(hs, LeftBehindLog()[0], c);
    UpdatedCarries(hs, LeftBehindLog()[0], c);
  }

  lemma ServiceIsNew(s: Setting, services: seq<Key>)
    requires IsExample(s)
    ensures ServiceAlone(Tracking(s, Checked(s, START, LeftBehindLog()[0]), SERVICE, 100, services))
  {
  }

  lemma ServiceIsTracked(s: Setting, m': Machine)
    requires IsExample(s) && m' in Successors(s, START, LeftBehindLog()[0])
    ensures ServiceAlone(m')
  {
    var e := LeftBehindLog()[0];
    var t := Tracking(s, Checked(s, START, e), SERVICE, e.time, m'.stateInfo[SERVICE].services);
    ServiceIsNew(s, m'.stateInfo[SERVICE].services);
    assert Concerned(s, t, e) == {SERVICE};
    OnlyOneUpdated(s, t, e, SERVICE, m');
    AliveServiceStaysUp(t.stateInfo[SERVICE], t.Ctx(s));
  }

  lemma HostGoesDownAlone(s: Setting, m: Machine, m': Machine)
    requires IsExample(s) && m' in Successors(s, m, LeftBehindLog()[1]) && ServiceAlone(m)
    ensures m'.stateInfo.Keys == {SERVICE, HOST} && m'.stateInfo[SERVICE] == m.stateInfo[SERVICE]
    ensures m'.stateInfo[HOST].info.hostDown && !m'.stateInfo[HOST].mayNoLongerExist
  {
    var e := LeftBehindLog()[1];
    var t := Tracking(s, Checked(s, m, e), HOST, e.time, m'.stateInfo[HOST].services);
    assert Concerned(s, t, e) == {HOST};
    OnlyOneUpdated(s, t, e, HOST, m');
    UpdatedHostColumns(t.stateInfo[HOST], e, t.Ctx(s));
    UpdatedFlags(t.stateInfo[HOST], e, t.Ctx(s));
  }

  /** Behind the answer to this log the host is down, and its service does not know. */
  lemma ServiceIsLeftBehind(s: Setting, run: seq<Machine>, m': Machine)
    requires IsExample(s) && run != [] && run[0] == START && IsAnswer(s, LeftBehindLog(), run, m')
    ensures SERVICE in m'.stateInfo && HOST in m'.stateInfo
    ensures m'.stateInfo[HOST].info.hostDown && !m'.stateInfo[SERVICE].info.hostDown
  {
    assert |run| == 3;
    assert TurnAt(s, LeftBehindLog(), run, 0) && TurnAt(s, LeftBehindLog(), run, 1);
    ServiceIsTracked(s, run[1]);
    HostGoesDownAlone(s, run[1], run[2]);
    FinalFollows(s, run[2], m', SERVICE);
    FinalFollows(s, run[2], m', HOST);
  }

  method AnswerAboutLeftService() returns (stateInfo: map<Key, HostServiceState>)
    ensures SERVICE in stateInfo && HOST in stateInfo
    ensures stateInfo[HOST].info.hostDown && !stateInfo[SERVICE].info.hostDown
  {
    var table := new TableStateHistory(ExampleSetting(), rows => true);
    var answer, run, final := table.AnswerQuery(LeftBehindLog());
    ServiceIsLeftBehind(ExampleSetting(), run, final);
    stateInfo := table.stateInfo;
  }
}
