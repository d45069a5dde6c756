/**
 The timeperiods that a state history knows: what it collects over a run is what the logged transitions say
 (src/TableStateHistory.cc, src/TimeperiodsCache.cc).
 */
module PeriodHistory {
  import opened Basics
  import opened HostServiceStates
  import opened StateHistory
  import opened Timeperiods

  predicate IsTransition(e: Entry) {
    e.event.TimeperiodTransition?
  }

  /** What an entry says about a timeperiod; other entries and broken lines say nothing. */
  function ReadingOf(e: Entry): Reading {
    if IsTransition(e) then Reading(e.event.name, e.event.to) else BrokenLine
  }

  function ReadingsOf(log: seq<Entry>): seq<Reading> {
    seq(|log|, i requires 0 <= i < |log| => ReadingOf(log[i]))
  }

  function Noted(periods: map<string, int>, r: Reading): map<string, int> {
    if r.BrokenLine? then periods else periods[r.name := r.status]
  }

  lemma ReplayedNext(log: seq<Entry>, e: Entry)
    ensures Replayed(ReadingsOf(log + [e])) == Noted(Replayed(ReadingsOf(log)), ReadingOf(e))
  {
    assert ReadingsOf(log + [e])[..|log|] == ReadingsOf(log);
  }

  lemma HandledPeriods(s: Setting, c: Machine, e: Entry, m': Machine)
    requires s.Timeframe() != 0 && Handled(s, c, e, m')
    ensures m'.periods == Noted(c.periods, ReadingOf(e))
  {
  }

  lemma UpdatedPeriods(s: Setting, m: Machine, e: Entry, m': Machine)
    requires s.Timeframe() != 0 && m' in Successors(s, m, e)
    ensures m'.periods == Noted(m.periods, ReadingOf(e))
  {
    assert Handled(s, Checked(s, m, e), e, m');
    HandledPeriods(s, Checked(s, m, e), e, m');
  }

  lemma TurnPeriods(s: Setting, log: seq<Entry>, run: seq<Machine>, i: nat)
    requires s.Timeframe() != 0 && IsRun(s, log, run) && i + 1 < |run|
    ensures run[i + 1].periods == Noted(run[i].periods, ReadingOf(log[i]))
  {
    assert TurnAt(s, log, run, i);
    UpdatedPeriods(s, run[i], log[i], run[i + 1]);
  }

  /** In every state of a run the periods are those of the start, and over them what the entries so far say. */
  lemma {:induction false} RunPeriods(s: Setting, log: seq<Entry>, run: seq<Machine>, n: nat)
    requires s.Timeframe() != 0 && IsRun(s, log, run) && n < |run|
    ensures run[n].periods == run[0].periods + Replayed(ReadingsOf(log[..n]))
  {
    if n > 0 {
      RunPeriods(s, log, run, n - 1);
      TurnPeriods(s, log, run, n - 1);
      ReplayedNext(log[..n - 1], log[n - 1]);
      assert log[..n - 1] + [log[n - 1]] == log[..n];
    }
  }

  /** Other entries do not matter to the replay. */
  lemma {:induction false} ReplayOfTransitions(log: seq<Entry>)
    ensures Replayed(ReadingsOf(log)) == Replayed(ReadingsOf(Filtered(IsTransition, log)))
  {
    if log != [] {
      var before, last := log[..|log| - 1], log[|log| - 1];
      ReplayOfTransitions(before);
      ReplayedNext(before, last);
      ReplayedNext(Filtered(IsTransition, before), last);
      assert before + [last] == log;
    }
  }

  /**
   A history whose entries hold the lines that the timeperiods cache has logged, among any others, ends up with the
   contents of that cache.
   */
  lemma HistoryKnowsCache(s: Setting, log: seq<Entry>, run: seq<Machine>, n: nat,
                          lines: seq<string>, stampOf: nat -> string, ts: seq<Transition>, cache: map<string, bool>)
    requires s.Timeframe() != 0 && IsRun(s, log, run) && n < |run| && run[0].periods == map[]
    requires Logged(lines, stampOf, ts) && Reflects(cache, ts) && forall i | 0 <= i < |ts| :: Loggable(ts[i])
    requires ReadingsOf(Filtered(IsTransition, log[..n])) == Readings(lines)
    ensures run[n].periods == map name | name in cache :: Flag(cache[name])
  {
    RunPeriods(s, log, run, n);
    ReplayOfTransitions(log[..n]);
    ReplayRebuildsCache(lines, stampOf, ts, cache);
  }
}
