/**
 One service instance seen as the peer table it keeps: the receive goroutine (service/io.go), the
 storage scan (service/storage.go) and the passing of time, interleaved in any order. What arrives
 is unconstrained: packets may be lost, duplicated, reordered or invented.
*/
module Observer {
  import opened Base
  import opened PeerTable

  /** The receive goroutine, between its latency check and its update. */
  datatype Receiving = Listening | Checked(node: Node, at: int)

  /** A storage scan: its threshold, the objects it will load, the object just fetched and the hosts loaded. */
  datatype Scanning =
    | Idle
    | Scan(thresholdNs: int, loads: set<(IpAddr, int)>, fetched: Option<Node>, loaded: set<IpAddr>)

  /**
   `log` lists every node that entered the table, `floor` is the threshold of the last expiry and
   `scanned` the time of the last scan; the three are history that no step consults.
  */
  datatype State = State(now: int, table: Table, receiving: Receiving, scanning: Scanning,
                         log: seq<Node>, floor: int, scanned: int)

  datatype Action =
    | Tick(elapsed: nat)
    | Receive(packet: Node)
    | Update
    | BeginScan
    | ListObject(ipAddr: IpAddr, lastModified: int)
    | GetObject(listed: int, stored: Node)
    | UpdateLoaded
    | EndScan

  ghost predicate Init(s: State) {
    s.table == map[] && s.receiving == Listening && s.scanning == Idle && s.log == [] &&
    s.floor <= s.now - EXPIRE_TIMEOUT && s.scanned <= s.now
  }

  /** `stall` bounds the time from a packet's latency check to its update. */
  predicate Enabled(s: State, a: Action, stall: int) {
    match a
    case Tick(elapsed) => s.receiving.Checked? ==> s.now + elapsed <= s.receiving.at + stall
    case Receive(packet) => s.receiving == Listening && s.now - packet.timeNs <= LATENCY_TOLERANCE
    case Update => s.receiving.Checked?
    case BeginScan => s.scanning == Idle
    case ListObject(ipAddr, lastModified) =>
      s.scanning.Scan? && s.scanning.fetched == None && s.scanning.thresholdNs < lastModified &&
      IsUpdatable(s.table, ipAddr, lastModified)
    case GetObject(listed, stored) =>
      s.scanning.Scan? && s.scanning.fetched == None && (stored.ipAddr, listed) in s.scanning.loads &&
      listed <= stored.timeNs
    case UpdateLoaded => s.scanning.Scan? && s.scanning.fetched.Some?
    case EndScan => s.scanning.Scan? && s.scanning.fetched == None
  }

  /** Merges the node; it is admitted if that made it the entry of its host. */
  function Admit(s: State, node: Node): State {
    s.(table := Merge(s.table, node),
       log := if IsUpdatable(s.table, node.ipAddr, node.timeNs)
              then s.log + [node] else s.log)
  }

  function Step(s: State, a: Action, stall: int): State
    requires Enabled(s, a, stall)
  {
    match a
    case Tick(elapsed) => s.(now := s.now + elapsed)
    case Receive(packet) => s.(receiving := Checked(packet, s.now))
    case Update => Admit(s, s.receiving.node).(receiving := Listening)
    case BeginScan => s.(scanning := Scan(s.now - EXPIRE_TIMEOUT, {}, None, {}), scanned := s.now)
    case ListObject(ipAddr, lastModified) =>
      s.(scanning := s.scanning.(loads := s.scanning.loads + {(ipAddr, lastModified)}))
    case GetObject(listed, stored) => s.(scanning := s.scanning.(fetched := Some(stored)))
    case UpdateLoaded =>
      var node := s.scanning.fetched.value;
      Admit(s, node).(scanning := s.scanning.(fetched := None, loaded := s.scanning.loaded + {node.ipAddr}))
    case EndScan => s.(table := Prune(s.table, s.scanning.thresholdNs), scanning := Idle,
                       floor := s.scanning.thresholdNs)
  }

  ghost predicate Next(s: State, t: State, stall: int) {
    exists a :: Enabled(s, a, stall) && t == Step(s, a, stall)
  }

  lemma Taken(s: State, t: State, stall: int) returns (a: Action)
    requires Next(s, t, stall)
    ensures Enabled(s, a, stall) && t == Step(s, a, stall)
  {
    a :| Enabled(s, a, stall) && t == Step(s, a, stall);
  }

  ghost predicate Behavior(run: seq<State>, stall: int) {
    |run| > 0 && Init(run[0]) && forall i, j :: 0 <= i && j == i + 1 < |run| ==> Next(run[i], run[j], stall)
  }

  /** For each host, every stamp admitted is newer than all those admitted before it. */
  ghost predicate Monotone(log: seq<Node>) {
    forall i, j :: 0 <= i < j < |log| && log[i].ipAddr == log[j].ipAddr ==> log[i].timeNs < log[j].timeNs
  }

  ghost predicate ReceivingInv(s: State, stall: int) {
    s.receiving.Checked? ==>
      s.receiving.at <= s.now <= s.receiving.at + stall &&
      s.receiving.at - LATENCY_TOLERANCE <= s.receiving.node.timeNs
  }

  /** All that a scan loads is newer than its threshold. */
  ghost predicate LoadedInv(s: State) {
    s.scanning.Scan? ==>
      (forall load :: load in s.scanning.loads ==> s.scanning.thresholdNs < load.1) &&
      (s.scanning.fetched.Some? ==> s.scanning.thresholdNs < s.scanning.fetched.value.timeNs) &&
      (forall ip :: ip in s.scanning.loaded ==> ip in s.table && s.scanning.thresholdNs < s.table[ip].timeNs)
  }

  ghost predicate ScanningInv(s: State) {
    LoadedInv(s) && (s.scanning.Scan? ==> s.floor <= s.scanning.thresholdNs <= s.now - EXPIRE_TIMEOUT)
  }

  /** A stamp admitted earlier is either covered by the entry or older than the last expiry. */
  ghost predicate LogInv(s: State) {
    forall i :: 0 <= i < |s.log| ==>
      var ip := s.log[i].ipAddr;
      if ip in s.table then s.log[i].timeNs <= s.table[ip].timeNs else s.log[i].timeNs < s.floor
  }

  ghost predicate Inv(s: State, stall: int) {
    Keyed(s.table) && s.floor <= s.now - EXPIRE_TIMEOUT &&
    ReceivingInv(s, stall) && ScanningInv(s) && LogInv(s) && Monotone(s.log)
  }

  lemma AdmitKeepsLog(s: State, node: Node)
    requires Keyed(s.table) && LogInv(s) && Monotone(s.log) && s.floor <= node.timeNs
    ensures LogInv(Admit(s, node)) && Monotone(Admit(s, node).log) && Keyed(Admit(s, node).table)
  {
  }

  lemma StepKeepsInv(s: State, a: Action, stall: int)
    requires 0 <= stall <= EXPIRE_TIMEOUT - LATENCY_TOLERANCE
    requires Inv(s, stall) && Enabled(s, a, stall)
    ensures Inv(Step(s, a, stall), stall)
  {
    match a
    case Update => AdmitKeepsLog(s, s.receiving.node);
    case UpdateLoaded => AdmitKeepsLog(s, s.scanning.fetched.value);
    case _ =>
  }

  lemma {:induction false} BehaviorKeepsInv(run: seq<State>, i: nat, stall: int)
    requires 0 <= stall <= EXPIRE_TIMEOUT - LATENCY_TOLERANCE
    requires Behavior(run, stall) && i < |run|
    ensures Inv(run[i], stall)
  {
    if i > 0 {
      BehaviorKeepsInv(run, i - 1, stall);
      var a := Taken(run[i - 1], run[i], stall);
      StepKeepsInv(run[i - 1], a, stall);
    }
  }

  /** Whatever arrives, no run of the instance admits a host's stamp out of order. */
  ghost predicate AlwaysMonotone(stall: int) {
    forall run: seq<State>, i :: Behavior(run, stall) && 0 <= i < |run| ==> Monotone(run[i].log)
  }

  /** A packet, its expiry, and a copy whose latency was checked before the expiry. */
  lemma StalledCopyReadmitted(stall: int)
    requires stall > 885 * SECOND
    ensures !AlwaysMonotone(stall)
  {
    var packet := Node("10.0.0.1", 0, map[]);
    var s0 := State(LATENCY_TOLERANCE, map[], Listening, Idle, [], LATENCY_TOLERANCE - EXPIRE_TIMEOUT, 0);
    var s1 := Step(s0, Receive(packet), stall);
    var s2 := Step(s1, Update, stall);
    var s3 := Step(s2, Receive(packet), stall);
    var s4 := Step(s3, Tick(EXPIRE_TIMEOUT - LATENCY_TOLERANCE + 1), stall);
    var s5 := Step(s4, BeginScan, stall);
    var s6 := Step(s5, EndScan, stall);
    assert s6.table == map[];
    var s7 := Step(s6, Update, stall);
    assert s7.log[0] == s7.log[1] == packet;
    var run := [s0, s1, s2, s3, s4, s5, s6, s7];
    assert Behavior(run, stall);
    assert !Monotone(run[7].log);
  }

  /** Admissions are in order over every run exactly when a checked packet waits at most 885 seconds. */
  lemma WholeRunMonotone(stall: int)
    requires 0 <= stall
    ensures AlwaysMonotone(stall) <==> stall <= 885 * SECOND
  {
    if stall <= 885 * SECOND {
      forall run: seq<State>, i | Behavior(run, stall) && 0 <= i < |run|
        ensures Monotone(run[i].log)
      {
        BehaviorKeepsInv(run, i, stall);
      }
    } else {
      StalledCopyReadmitted(stall);
    }
  }

  lemma {:induction false} BehaviorKeepsLoaded(run: seq<State>, i: nat, stall: int)
    requires Behavior(run, stall) && i < |run|
    ensures LoadedInv(run[i])
  {
    if i > 0 {
      BehaviorKeepsLoaded(run, i - 1, stall);
      var _ := Taken(run[i - 1], run[i], stall);
    }
  }

  /** The expiry that ends a scan keeps every entry the scan has loaded. */
  lemma LoadedSurvivesExpiry(run: seq<State>, i: nat, stall: int, ip: IpAddr)
    requires Behavior(run, stall) && i < |run|
    requires Enabled(run[i], EndScan, stall) && ip in run[i].scanning.loaded
    ensures ip in run[i].table
    ensures ip in Step(run[i], EndScan, stall).table
    ensures Step(run[i], EndScan, stall).table[ip] == run[i].table[ip]
  {
    BehaviorKeepsLoaded(run, i, stall);
  }

  // Peers that have fallen silent.

  /**
   Scans and updates take no time and scans are at most one storage interval apart; no packet or
   object of the host carries a stamp after `last`.
  */
  predicate Timely(s: State, a: Action, ip: IpAddr, last: int) {
    match a
    case Tick(elapsed) => s.scanning == Idle && s.now + elapsed <= s.scanned + MAX_STORAGE_INTERVAL
    case Receive(packet) => packet.ipAddr == ip ==> packet.timeNs <= last
    case GetObject(_, stored) => stored.ipAddr == ip ==> stored.timeNs <= last
    case _ => true
  }

  ghost predicate TimelyNext(s: State, t: State, ip: IpAddr, last: int) {
    exists a :: Enabled(s, a, 0) && Timely(s, a, ip, last) && t == Step(s, a, 0)
  }

  lemma TimelyTaken(s: State, t: State, ip: IpAddr, last: int) returns (a: Action)
    requires TimelyNext(s, t, ip, last)
    ensures Enabled(s, a, 0) && Timely(s, a, ip, last) && t == Step(s, a, 0)
  {
    a :| Enabled(s, a, 0) && Timely(s, a, ip, last) && t == Step(s, a, 0);
  }

  ghost predicate TimelyBehavior(run: seq<State>, ip: IpAddr, last: int) {
    |run| > 0 && Init(run[0]) && run[0].now <= run[0].scanned + MAX_STORAGE_INTERVAL &&
    forall i, j :: 0 <= i && j == i + 1 < |run| ==> TimelyNext(run[i], run[j], ip, last)
  }

  ghost predicate SilentInv(s: State, ip: IpAddr, last: int) {
    Inv(s, 0) &&
    (s.receiving.Checked? && s.receiving.node.ipAddr == ip ==> s.receiving.node.timeNs <= last) &&
    (s.scanning.Scan? ==> s.scanning.thresholdNs == s.now - EXPIRE_TIMEOUT && s.scanned == s.now) &&
    (s.scanning.Scan? && s.scanning.fetched.Some? && s.scanning.fetched.value.ipAddr == ip ==>
      s.scanning.fetched.value.timeNs <= last) &&
    (ip in s.table ==>
      s.table[ip].timeNs <= last && s.now <= last + EXPIRE_TIMEOUT + MAX_STORAGE_INTERVAL &&
      (s.scanning == Idle ==> s.scanned <= last + EXPIRE_TIMEOUT)) &&
    s.scanned <= s.now
  }

  lemma StepKeepsSilentInv(s: State, a: Action, ip: IpAddr, last: int)
    requires SilentInv(s, ip, last) && Enabled(s, a, 0) && Timely(s, a, ip, last)
    ensures SilentInv(Step(s, a, 0), ip, last)
  {
    StepKeepsInv(s, a, 0);
  }

  lemma {:induction false} TimelyBehaviorKeepsInv(run: seq<State>, i: nat, ip: IpAddr, last: int)
    requires TimelyBehavior(run, ip, last) && i < |run|
    ensures SilentInv(run[i], ip, last)
  {
    if i > 0 {
      TimelyBehaviorKeepsInv(run, i - 1, ip, last);
      var a := TimelyTaken(run[i - 1], run[i], ip, last);
      StepKeepsSilentInv(run[i - 1], a, ip, last);
    }
  }

  /** A peer last heard of at `last` is out of the table 1140 seconds later, and never returns. */
  lemma DeadPeerGone(run: seq<State>, i: nat, ip: IpAddr, last: int)
    requires TimelyBehavior(run, ip, last) && i < |run|
    requires run[i].now > last + 1140 * SECOND
    ensures ip !in run[i].table
  {
    TimelyBehaviorKeepsInv(run, i, ip, last);
  }
}
