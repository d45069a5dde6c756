/**
 Columns about the services of a list and the hosts of a group: one pass over a list answers all of them, and the query
 keeps the results (src/ServicelistStateColumn.cc, src/HostlistStateColumn.cc, src/Query.cc).
 */
module StateColumns {

  // ---------- Services ----------

  /** `visible`: the query has no authenticated user, or that user may see the object. */
  datatype Service = Service(currentState: int, lastHardState: int, hasBeenChecked: bool, visible: bool)

  predicate SvcStateIsWorse(state1: int, state2: int) {
    if state1 == 0 then false
    else if state2 == 0 then true
    else if state2 == 2 then false
    else if state1 == 2 then true
    else state1 > state2
  }

  /** OK, WARN, UNKNOWN, CRIT: how bad the states 0, 1, 3 and 2 are. */
  function Severity(state: int): nat
    requires 0 <= state <= 3
  {
    if state == 2 then 3 else if state == 3 then 2 else state
  }

  /**
   For the four states "worse" compares severities; for all numbers it is a
   strict total order whose least element is 0.
   */
  lemma WorseIsStrictOrder(a: int, b: int, c: int)
    ensures 0 <= a <= 3 && 0 <= b <= 3 ==> (SvcStateIsWorse(a, b) <==> Severity(a) > Severity(b))
    ensures !SvcStateIsWorse(a, a) && !SvcStateIsWorse(0, a)
    ensures SvcStateIsWorse(a, b) && SvcStateIsWorse(b, c) ==> SvcStateIsWorse(a, c)
    ensures a != b ==> SvcStateIsWorse(a, b) != SvcStateIsWorse(b, a)
    ensures SvcStateIsWorse(2, 3) && SvcStateIsWorse(3, 1) && SvcStateIsWorse(1, 0)
  {
  }

  function Worst(a: int, b: int): int {
    if SvcStateIsWorse(b, a) then b else a
  }

  lemma WorstAssociative(a: int, b: int, c: int)
    ensures Worst(Worst(a, b), c) == Worst(a, Worst(b, c))
    ensures Worst(a, 0) == a && Worst(0, a) == a
  {
  }

  /** What a column asks for; numbers from 60 on mean the hard variant of the number less 64. */
  datatype Wanted = All | Pending | InState(state: int, hard: bool) | WorstState(hard: bool) | Nothing

  function Decoded(logictype: int): Wanted {
    var hard := logictype >= 60;
    var lt := if hard then logictype - 64 else logictype;
    if lt == -1 then All
    else if lt == 4 then Pending
    else if lt == -2 then WorstState(hard)
    else if 0 <= lt <= 3 then InState(lt, hard)
    else Nothing
  }

  function StateOf(svc: Service, hard: bool): int {
    if hard then svc.lastHardState else svc.currentState
  }

  /** One step of a walk for a single column. */
  function Walked(wanted: Wanted, value: int, svc: Service): int {
    if !svc.visible then value
    else
      match wanted
      case All => value + 1
      case Pending => if svc.hasBeenChecked then value else value + 1
      case InState(state, hard) => if svc.hasBeenChecked && StateOf(svc, hard) == state then value + 1 else value
      case WorstState(hard) => Worst(value, StateOf(svc, hard))
      case Nothing => value
  }

  /** The value of a column by a walk of its own. */
  function ColumnValue(wanted: Wanted, services: seq<Service>): int {
    if services == [] then 0
    else Walked(wanted, ColumnValue(wanted, services[..|services| - 1]), services[|services| - 1])
  }

  /** A worst-state column shows the state of a visible service that no other one is worse than, or 0. */
  lemma {:induction false} WorstIsGreatest(hard: bool, services: seq<Service>)
    ensures var worst := ColumnValue(WorstState(hard), services);
            && (worst == 0 || exists svc :: svc in services && svc.visible && StateOf(svc, hard) == worst)
            && forall svc | svc in services && svc.visible :: !SvcStateIsWorse(StateOf(svc, hard), worst)
  {
    if services != [] {
      var before, last := services[..|services| - 1], services[|services| - 1];
      WorstIsGreatest(hard, before);
      assert services == before + [last];
      var previous, worst := ColumnValue(WorstState(hard), before), ColumnValue(WorstState(hard), services);
      forall svc | svc in services && svc.visible
        ensures !SvcStateIsWorse(StateOf(svc, hard), worst)
      {
        WorseIsStrictOrder(StateOf(svc, hard), worst, previous);
        WorseIsStrictOrder(worst, previous, StateOf(svc, hard));
      }
    }
  }

  /** The other columns count the visible services of a kind. */
  predicate IsCounted(wanted: Wanted, svc: Service) {
    svc.visible &&
    match wanted
    case All => true
    case Pending => !svc.hasBeenChecked
    case InState(state, hard) => svc.hasBeenChecked && StateOf(svc, hard) == state
    case WorstState(_) => false
    case Nothing => false
  }

  ghost function Positions(wanted: Wanted, services: seq<Service>): set<nat> {
    set i: nat | i < |services| && IsCounted(wanted, services[i])
  }

  lemma {:induction false} ColumnCounts(wanted: Wanted, services: seq<Service>)
    requires !wanted.WorstState?
    ensures ColumnValue(wanted, services) == |Positions(wanted, services)|
  {
    if services == [] {
      assert Positions(wanted, services) == {};
    } else {
      var n := |services| - 1;
      ColumnCounts(wanted, services[..n]);
      assert Positions(wanted, services) ==
             Positions(wanted, services[..n]) + if IsCounted(wanted, services[n]) then {n as nat} else {};
    }
  }

  /** The worst of the states of visible services; no service has a worse one. */
  ghost predicate IsWorstState(hard: bool, services: seq<Service>, worst: int) {
    && (worst == 0 || exists svc :: svc in services && svc.visible &&
                                    worst == if hard then svc.lastHardState else svc.currentState)
    && forall svc | svc in services && svc.visible ::
         !SvcStateIsWorse(if hard then svc.lastHardState else svc.currentState, worst)
  }

  /**
   What each column about a list of services is: how many of those that are visible there are (-1), are pending (4), or
   have been checked and are in the state 0 to 3; with 64 added, in this hard state; or the worst state (-2 and 62).
   */
  ghost predicate IsServiceColumn(logictype: int, services: seq<Service>, value: int) {
    var n := |services|;
    && (logictype in {-1, 63} ==> value == |set i: nat | i < n && services[i].visible|)
    && (logictype in {4, 68} ==>
          value == |set i: nat | i < n && services[i].visible && !services[i].hasBeenChecked|)
    && (logictype in {0, 1, 2, 3} ==>
          value == |set i: nat | i < n && services[i].visible && services[i].hasBeenChecked &&
                                 services[i].currentState == logictype|)
    && (logictype in {64, 65, 66, 67} ==>
          value == |set i: nat | i < n && services[i].visible && services[i].hasBeenChecked &&
                                 services[i].lastHardState == logictype - 64|)
    && (logictype == -2 ==> IsWorstState(false, services, value))
    && (logictype == 62 ==> IsWorstState(true, services, value))
    && (logictype < -2 || 4 < logictype < 62 || 68 < logictype ==> value == 0)
  }

  lemma ColumnMeans(logictype: int, services: seq<Service>)
    ensures IsServiceColumn(logictype, services, ColumnValue(Decoded(logictype), services))
  {
    var wanted, n := Decoded(logictype), |services|;
    if wanted.WorstState? {
      WorstIsGreatest(wanted.hard, services);
    } else {
      ColumnCounts(wanted, services);
      var at := Positions(wanted, services);
      if logictype in {-1, 63} {
        assert at == set i: nat | i < n && services[i].visible;
      } else if logictype in {4, 68} {
        assert at == set i: nat | i < n && services[i].visible && !services[i].hasBeenChecked;
      } else if logictype in {0, 1, 2, 3} {
        assert at == set i: nat | i < n && services[i].visible && services[i].hasBeenChecked &&
                                  services[i].currentState == logictype;
      } else if logictype in {64, 65, 66, 67} {
        assert at == set i: nat | i < n && services[i].visible && services[i].hasBeenChecked &&
                                  services[i].lastHardState == logictype - 64;
      } else {
        assert at == {};
      }
    }
  }

  /** Values of two parts of a list, put together. */
  function Joined(wanted: Wanted, a: int, b: int): int {
    if wanted.WorstState? then Worst(a, b) else a + b
  }

  lemma {:induction false} ColumnAppend(wanted: Wanted, a: seq<Service>, b: seq<Service>)
    ensures ColumnValue(wanted, a + b) == Joined(wanted, ColumnValue(wanted, a), ColumnValue(wanted, b))
  {
    if b == [] {
      assert a + b == a;
      WorstAssociative(ColumnValue(wanted, a), 0, 0);
    } else {
      var before, last := b[..|b| - 1], b[|b| - 1];
      assert (a + b)[..|a + b| - 1] == a + before;
      ColumnAppend(wanted, a, before);
      if wanted.WorstState? {
        WorstAssociative(ColumnValue(wanted, a), ColumnValue(wanted, before), StateOf(last, wanted.hard));
      }
    }
  }

  datatype ServiceAggregates = ServiceAggregates(num: int, numPending: int, soft: seq<int>, hard: seq<int>,
                                                 worstSoft: int, worstHard: int)
  {
    function Get(logictype: int): int
      requires |soft| == |hard| == 4
    {
      var lt, useHard := if logictype >= 60 then logictype - 64 else logictype, logictype >= 60;
      match lt
      case -1 => num
      case 4 => numPending
      case -2 => if useHard then worstHard else worstSoft
      case _ => if 0 <= lt <= 3 then (if useHard then hard[lt] else soft[lt]) else 0
    }
  }

  /** All columns of the list at once. */
  ghost predicate Answers(a: ServiceAggregates, services: seq<Service>) {
    && |a.soft| == |a.hard| == 4
    && forall logictype :: a.Get(logictype) == ColumnValue(Decoded(logictype), services)
  }

  /** The body of the loop of `computeAggregates`. */
  method Account(a: ServiceAggregates, svc: Service) returns (a': ServiceAggregates)
    requires |a.soft| == |a.hard| == 4
    ensures |a'.soft| == |a'.hard| == 4
    ensures forall logictype :: a'.Get(logictype) == Walked(Decoded(logictype), a.Get(logictype), svc)
  {
    a' := a;
    if svc.visible {
      a' := a'.(num := a'.num + 1);
      if !svc.hasBeenChecked {
        a' := a'.(numPending := a'.numPending + 1);
      } else {
        var softState, hardState := svc.currentState, svc.lastHardState;
        if 0 <= softState <= 3 {
          a' := a'.(soft := a'.soft[softState := a'.soft[softState] + 1]);
        }
        if 0 <= hardState <= 3 {
          a' := a'.(hard := a'.hard[hardState := a'.hard[hardState] + 1]);
        }
      }
      if SvcStateIsWorse(svc.currentState, a'.worstSoft) {
        a' := a'.(worstSoft := svc.currentState);
      }
      if SvcStateIsWorse(svc.lastHardState, a'.worstHard) {
        a' := a'.(worstHard := svc.lastHardState);
      }
    }
  }

  /** One pass gives, for every logictype, what a walk for that column alone would give. */
  method ComputeServiceAggregates(services: seq<Service>) returns (aggregates: ServiceAggregates)
    ensures Answers(aggregates, services)
  {
    aggregates := ServiceAggregates(0, 0, [0, 0, 0, 0], [0, 0, 0, 0], 0, 0);
    for i := 0 to |services|
      invariant Answers(aggregates, services[..i])
    {
      aggregates := Account(aggregates, services[i]);
      assert services[..i + 1][..i] == services[..i];
    }
    assert services[..|services|] == services;
  }

  // ---------- Hosts ----------

  /** `services` stands for the pointer to the head of the host's service list. */
  datatype Host = Host(currentState: int, hasBeenChecked: bool, visible: bool, services: nat)

  predicate HstStateIsWorse(state1: int, state2: int) {
    if state1 == 0 then false
    else if state2 == 0 then true
    else if state2 == 1 then false
    else state1 == 1
  }

  /** UP, UNREACHABLE, DOWN: how bad the states 0, 2 and 1 are. */
  function HostSeverity(state: int): nat
    requires 0 <= state <= 2
  {
    if state == 1 then 2 else if state == 2 then 1 else 0
  }

  lemma HostWorseIsStrictOrder(a: int, b: int)
    requires 0 <= a <= 2 && 0 <= b <= 2
    ensures HstStateIsWorse(a, b) <==> HostSeverity(a) > HostSeverity(b)
    ensures HstStateIsWorse(1, 2) && HstStateIsWorse(2, 0)
  {
  }

  const NUM_HST_UP := 10
  const NUM_HST_DOWN := 11
  const NUM_HST_UNREACH := 12
  const NUM_HST_PENDING := 13
  const NUM_HST := -11
  const WORST_HST_STATE := -12

  predicate IsHostStateLogicType(logictype: int) {
    logictype in {NUM_HST, NUM_HST_PENDING, NUM_HST_UP, NUM_HST_DOWN, NUM_HST_UNREACH, WORST_HST_STATE}
  }

  /** One step of a walk over the hosts for a single host column. */
  function WalkedHost(logictype: int, value: int, hst: Host): int {
    if !hst.visible then value
    else if logictype == NUM_HST then value + 1
    else if logictype == NUM_HST_PENDING then if hst.hasBeenChecked then value else value + 1
    else if NUM_HST_UP <= logictype <= NUM_HST_UNREACH then
      if hst.hasBeenChecked && hst.currentState == logictype - NUM_HST_UP then value + 1 else value
    else if logictype == WORST_HST_STATE then
      if HstStateIsWorse(hst.currentState, value) then hst.currentState else value
    else value
  }

  function HostColumnValue(logictype: int, hosts: seq<Host>): int {
    if hosts == [] then 0
    else WalkedHost(logictype, HostColumnValue(logictype, hosts[..|hosts| - 1]), hosts[|hosts| - 1])
  }

  /** For the three states, the worst host state is the greatest one of the visible hosts. */
  lemma {:induction false} WorstHostIsGreatest(hosts: seq<Host>)
    requires forall h | h in hosts :: 0 <= h.currentState <= 2
    ensures var worst := HostColumnValue(WORST_HST_STATE, hosts);
            && 0 <= worst <= 2 && (worst == 0 || exists h :: h in hosts && h.visible && h.currentState == worst)
            && forall h | h in hosts && h.visible :: HostSeverity(h.currentState) <= HostSeverity(worst)
  {
    if hosts != [] {
      assert hosts == hosts[..|hosts| - 1] + [hosts[|hosts| - 1]];
      WorstHostIsGreatest(hosts[..|hosts| - 1]);
    }
  }

  ghost function HostPositions(logictype: int, hosts: seq<Host>): set<nat> {
    set i: nat | i < |hosts| && hosts[i].visible &&
                 (logictype == NUM_HST || (logictype == NUM_HST_PENDING && !hosts[i].hasBeenChecked) ||
                  (NUM_HST_UP <= logictype <= NUM_HST_UNREACH && hosts[i].hasBeenChecked &&
                   hosts[i].currentState == logictype - NUM_HST_UP))
  }

  lemma {:induction false} HostColumnCounts(logictype: int, hosts: seq<Host>)
    requires logictype != WORST_HST_STATE
    ensures HostColumnValue(logictype, hosts) == |HostPositions(logictype, hosts)|
  {
    if hosts == [] {
      assert HostPositions(logictype, hosts) == {};
    } else {
      var n := |hosts| - 1;
      HostColumnCounts(logictype, hosts[..n]);
      var before, all := HostPositions(logictype, hosts[..n]), HostPositions(logictype, hosts);
      assert n !in before && all == if n in all then before + {n} else before;
    }
  }

  /**
   What each column about a list of hosts is: how many of the visible hosts there are, are pending, or have been checked
   and are UP, DOWN or UNREACHABLE; or, for these three states, the worst one: DOWN before UNREACHABLE before UP.
   */
  ghost predicate IsHostColumn(logictype: int, hosts: seq<Host>, value: int) {
    var n := |hosts|;
    && (logictype == -11 ==> value == |set i: nat | i < n && hosts[i].visible|)
    && (logictype == 13 ==> value == |set i: nat | i < n && hosts[i].visible && !hosts[i].hasBeenChecked|)
    && (logictype in {10, 11, 12} ==>
          value == |set i: nat | i < n && hosts[i].visible && hosts[i].hasBeenChecked &&
                                 hosts[i].currentState == logictype - 10|)
    && (logictype == -12 && (forall h | h in hosts :: 0 <= h.currentState <= 2) ==>
          value == if exists h :: h in hosts && h.visible && h.currentState == 1 then 1
                   else if exists h :: h in hosts && h.visible && h.currentState == 2 then 2 else 0)
    && (logictype !in {-12, -11, 10, 11, 12, 13} ==> value == 0)
  }

  lemma HostColumnMeans(logictype: int, hosts: seq<Host>)
    ensures IsHostColumn(logictype, hosts, HostColumnValue(logictype, hosts))
  {
    var n := |hosts|;
    if logictype == WORST_HST_STATE {
      if forall h | h in hosts :: 0 <= h.currentState <= 2 {
        WorstHostIsGreatest(hosts);
      }
    } else {
      HostColumnCounts(logictype, hosts);
      var at := HostPositions(logictype, hosts);
      if logictype == NUM_HST {
        assert at == set i: nat | i < n && hosts[i].visible;
      } else if logictype == NUM_HST_PENDING {
        assert at == set i: nat | i < n && hosts[i].visible && !hosts[i].hasBeenChecked;
      } else if NUM_HST_UP <= logictype <= NUM_HST_UNREACH {
        assert at == set i: nat | i < n && hosts[i].visible && hosts[i].hasBeenChecked &&
                                  hosts[i].currentState == logictype - 10;
      } else {
        assert at == {};
      }
    }
  }

  datatype HostAggregates = HostAggregates(num: int, numPending: int, up: int, down: int, unreach: int, worstHost: int)
  {
    function Get(logictype: int): int {
      if logictype == NUM_HST then num
      else if logictype == NUM_HST_PENDING then numPending
      else if logictype == NUM_HST_UP then up
      else if logictype == NUM_HST_DOWN then down
      else if logictype == NUM_HST_UNREACH then unreach
      else if logictype == WORST_HST_STATE then worstHost
      else 0
    }
  }

  /** One pass over the hosts gives, for every logictype, what a walk for that column alone would give. */
  method ComputeHostAggregates(hosts: seq<Host>) returns (a: HostAggregates)
    ensures forall logictype :: a.Get(logictype) == HostColumnValue(logictype, hosts)
  {
    a := HostAggregates(0, 0, 0, 0, 0, 0);
    for i := 0 to |hosts|
      invariant forall logictype :: a.Get(logictype) == HostColumnValue(logictype, hosts[..i])
    {
      var hst := hosts[i];
      assert hosts[..i + 1][..i] == hosts[..i];
      if hst.visible {
        a := a.(num := a.num + 1);
        if !hst.hasBeenChecked {
          a := a.(numPending := a.numPending + 1);
        } else {
          match hst.currentState {
            case 0 => a := a.(up := a.up + 1);
            case 1 => a := a.(down := a.down + 1);
            case 2 => a := a.(unreach := a.unreach + 1);
            case _ =>
          }
        }
        if HstStateIsWorse(hst.currentState, a.worstHost) {
          a := a.(worstHost := hst.currentState);
        }
      }
    }
    assert hosts[..|hosts|] == hosts;
  }

  // ---------- Host groups ----------

  /** The columns of a host group about the services of its hosts; the hard variants are not among them. */
  predicate IsServiceLogicType(logictype: int) {
    -2 <= logictype <= 4
  }

  /** The services of all hosts that are visible. */
  function AllServices(hosts: seq<Host>, lists: nat -> seq<Service>): seq<Service> {
    if hosts == [] then []
    else
      var before, last := AllServices(hosts[..|hosts| - 1], lists), hosts[|hosts| - 1];
      if last.visible then before + lists(last.services) else before
  }

  /** The value of a column of a host group. */
  function GroupValue(logictype: int, hosts: seq<Host>, lists: nat -> seq<Service>): int {
    if IsHostStateLogicType(logictype) then HostColumnValue(logictype, hosts)
    else if IsServiceLogicType(logictype) then ColumnValue(Decoded(logictype), AllServices(hosts, lists))
    else 0
  }

  lemma {:induction false} AllServicesElements(hosts: seq<Host>, lists: nat -> seq<Service>)
    ensures forall svc :: svc in AllServices(hosts, lists) <==>
                          exists h :: h in hosts && h.visible && svc in lists(h.services)
  {
    if hosts != [] {
      var before, last := hosts[..|hosts| - 1], hosts[|hosts| - 1];
      AllServicesElements(before, lists);
      assert hosts == before + [last];
    }
  }

  /** The places of services of a kind: the number of a visible host, and the number of the service in its list. */
  ghost function Places(logictype: int, hosts: seq<Host>, lists: nat -> seq<Service>): set<(nat, nat)> {
    set i: nat, j: nat | i < |hosts| && j < |lists(hosts[i].services)| && hosts[i].visible &&
                         IsOfKind(logictype, lists(hosts[i].services)[j]) :: (i, j)
  }

  /** Whether the service is counted by a column of a host group. */
  ghost predicate IsOfKind(logictype: int, svc: Service) {
    svc.visible &&
    if logictype == -1 then true
    else if logictype == 4 then !svc.hasBeenChecked
    else svc.hasBeenChecked && svc.currentState == logictype
  }

  function PairsWith(n: nat, js: set<nat>): set<(nat, nat)> {
    set j | j in js :: (n, j)
  }

  lemma {:induction false} PairsOfOne(n: nat, js: set<nat>)
    ensures |PairsWith(n, js)| == |js|
  {
    if js == {} {
      assert PairsWith(n, js) == {};
    } else {
      var j :| j in js;
      PairsOfOne(n, js - {j});
      assert (n, j) !in PairsWith(n, js - {j});
      assert PairsWith(n, js) == PairsWith(n, js - {j}) + {(n, j)};
    }
  }

  /** The positions in the list of one host. */
  ghost function PlacesOf(logictype: int, host: Host, lists: nat -> seq<Service>): set<nat> {
    set j: nat | j < |lists(host.services)| && host.visible && IsOfKind(logictype, lists(host.services)[j])
  }

  lemma PlacesOfCount(logictype: int, host: Host, lists: nat -> seq<Service>)
    requires -1 <= logictype <= 4
    ensures |PlacesOf(logictype, host, lists)| ==
            if host.visible then ColumnValue(Decoded(logictype), lists(host.services)) else 0
  {
    var at := PlacesOf(logictype, host, lists);
    if host.visible {
      ColumnCounts(Decoded(logictype), lists(host.services));
      assert at == Positions(Decoded(logictype), lists(host.services));
    } else {
      assert at == {};
    }
  }

  lemma PlacesNext(logictype: int, hosts: seq<Host>, lists: nat -> seq<Service>)
    requires hosts != []
    ensures var n := |hosts| - 1;
            |Places(logictype, hosts, lists)| ==
            |Places(logictype, hosts[..n], lists)| + |PlacesOf(logictype, hosts[n], lists)|
  {
    var n: nat := |hosts| - 1;
    var before, here := Places(logictype, hosts[..n], lists), PlacesOf(logictype, hosts[n], lists);
    forall i: nat, j: nat
      ensures (i, j) in Places(logictype, hosts, lists) <==> (i, j) in before + PairsWith(n, here)
    {
      assert i < n ==> hosts[..n][i] == hosts[i];
    }
    assert Places(logictype, hosts, lists) == before + PairsWith(n, here);
    assert before !! PairsWith(n, here);
    PairsOfOne(n, here);
  }

  lemma ServicesNext(logictype: int, hosts: seq<Host>, lists: nat -> seq<Service>)
    requires -1 <= logictype <= 4 && hosts != []
    ensures var n, wanted := |hosts| - 1, Decoded(logictype);
            ColumnValue(wanted, AllServices(hosts, lists)) == ColumnValue(wanted, AllServices(hosts[..n], lists)) +
            if hosts[n].visible then ColumnValue(wanted, lists(hosts[n].services)) else 0
  {
    var n := |hosts| - 1;
    ColumnAppend(Decoded(logictype), AllServices(hosts[..n], lists), lists(hosts[n].services));
  }

  lemma {:induction false} PlacesCount(logictype: int, hosts: seq<Host>, lists: nat -> seq<Service>)
    requires -1 <= logictype <= 4
    ensures ColumnValue(Decoded(logictype), AllServices(hosts, lists)) == |Places(logictype, hosts, lists)|
  {
    if hosts == [] {
      assert Places(logictype, hosts, lists) == {};
    } else {
      PlacesCount(logictype, hosts[..|hosts| - 1], lists);
      PlacesNext(logictype, hosts, lists);
      ServicesNext(logictype, hosts, lists);
      PlacesOfCount(logictype, hosts[|hosts| - 1], lists);
    }
  }

  /** The worst state of the visible services of visible hosts. */
  ghost predicate IsWorstOfHosts(hosts: seq<Host>, lists: nat -> seq<Service>, worst: int) {
    && (worst == 0 || exists h, svc :: h in hosts && h.visible && svc in lists(h.services) && svc.visible &&
                                       svc.currentState == worst)
    && forall h, svc | h in hosts && h.visible && svc in lists(h.services) && svc.visible ::
         !SvcStateIsWorse(svc.currentState, worst)
  }

  /**
   What each column of a host group is: a column about its hosts, or one about the services of its visible hosts, of
   which it counts those that are visible and of a kind, or shows the worst state.
   */
  ghost predicate IsGroupColumn(logictype: int, hosts: seq<Host>, lists: nat -> seq<Service>, value: int) {
    && (logictype in {-12, -11, 10, 11, 12, 13} ==> IsHostColumn(logictype, hosts, value))
    && (-1 <= logictype <= 4 ==> value == |Places(logictype, hosts, lists)|)
    && (logictype == -2 ==> IsWorstOfHosts(hosts, lists, value))
    && (logictype !in {-12, -11, 10, 11, 12, 13} && !(-2 <= logictype <= 4) ==> value == 0)
  }

  lemma GroupMeans(logictype: int, hosts: seq<Host>, lists: nat -> seq<Service>)
    ensures IsGroupColumn(logictype, hosts, lists, GroupValue(logictype, hosts, lists))
  {
    HostColumnMeans(logictype, hosts);
    if -1 <= logictype <= 4 {
      PlacesCount(logictype, hosts, lists);
    } else if logictype == -2 {
      WorstIsGreatest(false, AllServices(hosts, lists));
      AllServicesElements(hosts, lists);
    }
  }

  /** The part of the query that keeps aggregates; nothing changes the lists while it runs. */
  class AggregateCache {
    const lists: nat -> seq<Service>
    const groups: nat -> seq<Host>
    var serviceAggregates: map<nat, ServiceAggregates>
    var hostAggregates: map<nat, HostAggregates>

    ghost predicate Valid()
      reads this
    {
      && (forall list | list in serviceAggregates :: Answers(serviceAggregates[list], lists(list)))
      && (forall group | group in hostAggregates ::
            forall logictype :: hostAggregates[group].Get(logictype) == HostColumnValue(logictype, groups(group)))
    }

    constructor (lists: nat -> seq<Service>, groups: nat -> seq<Host>)
      ensures Valid() && this.lists == lists && this.groups == groups
    {
      this.lists, this.groups := lists, groups;
      serviceAggregates, hostAggregates := map[], map[];
    }

    method ServiceAggregatesOf(list: nat) returns (a: ServiceAggregates)
      requires Valid()
      modifies this`serviceAggregates
      ensures Valid() && Answers(a, lists(list))
    {
      if list in serviceAggregates {
        return serviceAggregates[list];
      }
      a := ComputeServiceAggregates(lists(list));
      serviceAggregates := serviceAggregates[list := a];
    }

    method HostAggregatesOf(group: nat) returns (a: HostAggregates)
      requires Valid()
      modifies this`hostAggregates
      ensures Valid() && forall logictype :: a.Get(logictype) == HostColumnValue(logictype, groups(group))
    {
      if group in hostAggregates {
        return hostAggregates[group];
      }
      a := ComputeHostAggregates(groups(group));
      hostAggregates := hostAggregates[group := a];
    }

    /** ServicelistStateColumn::getValue. */
    method ServiceColumn(logictype: int, list: nat) returns (value: int)
      requires Valid()
      modifies this`serviceAggregates
      ensures Valid() && value == ColumnValue(Decoded(logictype), lists(list))
      ensures IsServiceColumn(logictype, lists(list), value)
    {
      ColumnMeans(logictype, lists(list));
      var a := ServiceAggregatesOf(list);
      value := a.Get(logictype);
    }

    /** `get_subvalue`: adds what one host contributes to a column about services. */
    method AddSubvalue(logictype: int, hst: Host, result: int) returns (value: int)
      requires Valid()
      modifies this`serviceAggregates
      ensures Valid()
      ensures value == if !hst.visible || !IsServiceLogicType(logictype) then result
                       else Joined(Decoded(logictype), result, ColumnValue(Decoded(logictype), lists(hst.services)))
    {
      value := result;
      if hst.visible {
        if -1 <= logictype <= 4 {
          var sub := ServiceColumn(logictype, hst.services);
          value := value + sub;
        } else if logictype == -2 {
          var state := ServiceColumn(logictype, hst.services);
          if SvcStateIsWorse(state, value) {
            value := state;
          }
        }
      }
    }

    /** HostlistStateColumn::getValue: put together from the hosts, the value is that of all their services. */
    method HostlistColumn(logictype: int, group: nat) returns (value: int)
      requires Valid()
      modifies this`serviceAggregates, this`hostAggregates
      ensures Valid() && IsGroupColumn(logictype, groups(group), lists, value)
    {
      GroupMeans(logictype, groups(group), lists);
      if IsHostStateLogicType(logictype) {
        var a := HostAggregatesOf(group);
        return a.Get(logictype);
      }
      var hosts := groups(group);
      value := 0;
      for i := 0 to |hosts|
        invariant Valid()
        invariant value == if !IsServiceLogicType(logictype) then 0
                           else ColumnValue(Decoded(logictype), AllServices(hosts[..i], lists))
      {
        assert hosts[..i + 1][..i] == hosts[..i];
        ColumnAppend(Decoded(logictype), AllServices(hosts[..i], lists), lists(hosts[i].services));
        value := AddSubvalue(logictype, hosts[i], value);
      }
      assert hosts[..|hosts|] == hosts;
    }
  }
}
