/**
 Senders, the packets they have put on the wire, the object store, and one observer of them all.
 Which feature version an observer holds is what the timestamps are for; versions, incarnations and
 the farewell mark are history carried along to state it.
*/
module Network {
  import opened Base
  import opened PeerTable
  import Observer

  /** One snapshot of a sender's features; `farewell` is the empty one sent and stored at shutdown. */
  datatype Body = Body(features: Features, incarnation: nat, version: nat, farewell: bool)

  /** A packet with its stamp, or a stored object with its LastModified. */
  datatype Stamped = Stamped(node: Node, body: Body)

  /**
   A sender's current body, the body its transmit goroutine has loaded but not yet stamped, the one
   its storage goroutine has loaded but not yet stored, and its last stamp.
  */
  datatype Sender = Sender(up: bool, current: Body, loaded: Option<Body>, snapshot: Option<Body>, stamp: int)

  /** `sent` and `puts` are all packets ever sent and all objects ever stored. */
  datatype State = State(senders: map<IpAddr, Sender>, sent: set<Stamped>, puts: set<Stamped>,
                         store: map<IpAddr, Stamped>, storeNow: int, observer: Observer.State)

  /** The transmit goroutine ends with `Shutdown`; the storage goroutine may marshal the empty node before that. */
  datatype Action =
    | SetFeatures(ipAddr: IpAddr, features: Features)
    | LoadNode(ipAddr: IpAddr)
    | SendStamped(ipAddr: IpAddr, timeNs: int)
    | Shutdown(ipAddr: IpAddr)
    | Crash(ipAddr: IpAddr)
    | Restart(ipAddr: IpAddr)
    | MarshalForStorage(ipAddr: IpAddr)
    | MarshalEmpty(ipAddr: IpAddr)
    | PutObject(ipAddr: IpAddr)
    | DeleteObject(ipAddr: IpAddr)
    | StoreTick(elapsed: nat)
    | Observe(action: Observer.Action)

  const EMPTY := Body(map[], 0, 0, false)
  const MAX_STALL := EXPIRE_TIMEOUT - LATENCY_TOLERANCE

  function Parted(body: Body): Body {
    body.(features := map[], farewell := true)
  }

  /** What a sender would have others hold of it. */
  function Latest(sender: Sender): Body {
    if sender.up then sender.current else Parted(sender.current)
  }

  ghost predicate Init(s: State) {
    s.sent == {} && s.puts == {} && s.store == map[] && Observer.Init(s.observer) &&
    forall ip :: ip in s.senders ==>
      s.senders[ip].current == EMPTY && s.senders[ip].loaded == None && s.senders[ip].snapshot == None
  }

  /** The observer receives what was sent and lists and fetches what is stored. */
  ghost predicate ObserverSees(s: State, a: Observer.Action) {
    match a
    case Receive(packet) => exists p :: p in s.sent && p.node == packet
    case ListObject(ip, lastModified) => ip in s.store && lastModified == s.store[ip].node.timeNs
    case GetObject(_, stored) => stored.ipAddr in s.store && stored == s.store[stored.ipAddr].node
    case _ => true
  }

  ghost predicate Enabled(s: State, a: Action) {
    match a
    case SetFeatures(ip, _) => ip in s.senders && s.senders[ip].up
    case LoadNode(ip) => ip in s.senders && s.senders[ip].up && s.senders[ip].loaded == None
    case SendStamped(ip, timeNs) =>
      ip in s.senders && s.senders[ip].loaded.Some? && s.senders[ip].stamp < timeNs
    case Shutdown(ip) => ip in s.senders && s.senders[ip].up && s.senders[ip].loaded == None
    case Crash(ip) => ip in s.senders
    case Restart(ip) => ip in s.senders && !s.senders[ip].up && s.senders[ip].loaded == None
    case MarshalForStorage(ip) => ip in s.senders
    case MarshalEmpty(ip) => ip in s.senders
    case PutObject(ip) => ip in s.senders && s.senders[ip].snapshot.Some?
    case DeleteObject(_) => true
    case StoreTick(_) => true
    case Observe(action) => Observer.Enabled(s.observer, action, MAX_STALL) && ObserverSees(s, action)
  }

  function WithSender(s: State, ip: IpAddr, sender: Sender): State {
    s.(senders := s.senders[ip := sender])
  }

  ghost function Step(s: State, a: Action): State
    requires Enabled(s, a)
  {
    match a
    case SetFeatures(ip, features) =>
      var sender := s.senders[ip];
      WithSender(s, ip, sender.(current :=
        sender.current.(features := features, version := sender.current.version + 1)))
    case LoadNode(ip) =>
      WithSender(s, ip, s.senders[ip].(loaded := Some(s.senders[ip].current)))
    case SendStamped(ip, timeNs) =>
      var body := s.senders[ip].loaded.value;
      WithSender(s, ip, s.senders[ip].(loaded := None, stamp := timeNs))
        .(sent := s.sent + {Stamped(Node(ip, timeNs, body.features), body)})
    case Shutdown(ip) =>
      WithSender(s, ip, s.senders[ip].(up := false, loaded := Some(Parted(s.senders[ip].current))))
    case Crash(ip) =>
      WithSender(s, ip, s.senders[ip].(up := false, loaded := None, snapshot := None))
    case Restart(ip) =>
      WithSender(s, ip, s.senders[ip].(up := true, current :=
        Body(map[], s.senders[ip].current.incarnation + 1, 0, false)))
    case MarshalForStorage(ip) =>
      WithSender(s, ip, s.senders[ip].(snapshot := Some(s.senders[ip].current)))
    case MarshalEmpty(ip) =>
      WithSender(s, ip, s.senders[ip].(snapshot := Some(Parted(s.senders[ip].current))))
    case PutObject(ip) =>
      var body := s.senders[ip].snapshot.value;
      var put := Stamped(Node(ip, s.storeNow, body.features), body);
      WithSender(s, ip, s.senders[ip].(snapshot := None)).(store := s.store[ip := put], puts := s.puts + {put})
    case DeleteObject(ip) => s.(store := s.store - {ip})
    case StoreTick(elapsed) => s.(storeNow := s.storeNow + elapsed)
    case Observe(action) => s.(observer := Observer.Step(s.observer, action, MAX_STALL))
  }

  /**
   What a set of runs may and may not do. With `loads` the observer loads objects. The others are disciplines
   that the service does not keep by itself: each put stores the sender's latest body, each put is later than the
   sender's stamps so far, no put falls between loading a node and stamping it, and each stamp is later than the
   sender's puts so far.
  */
  datatype Discipline = Discipline(loads: bool, putsLatest: bool, putsAfterStamps: bool, sendsUnbroken: bool,
                                   sendsAfterPuts: bool)

  ghost predicate Obeys(d: Discipline, s: State, a: Action) {
    match a
    case SendStamped(ip, timeNs) =>
      d.sendsAfterPuts ==> forall p :: p in s.puts && p.node.ipAddr == ip ==> p.node.timeNs < timeNs
    case PutObject(ip) =>
      ip in s.senders &&
      (d.putsLatest ==> s.senders[ip].snapshot == Some(Latest(s.senders[ip]))) &&
      (d.putsAfterStamps ==> s.senders[ip].stamp < s.storeNow) &&
      (d.sendsUnbroken ==> s.senders[ip].loaded == None)
    case Observe(action) => d.loads || !action.GetObject?
    case _ => true
  }

  ghost predicate Next(s: State, t: State, d: Discipline) {
    exists a :: Enabled(s, a) && Obeys(d, s, a) && t == Step(s, a)
  }

  lemma Taken(s: State, t: State, d: Discipline) returns (a: Action)
    requires Next(s, t, d)
    ensures Enabled(s, a) && Obeys(d, s, a) && t == Step(s, a)
  {
    a :| Enabled(s, a) && Obeys(d, s, a) && t == Step(s, a);
  }

  ghost predicate Behavior(run: seq<State>, d: Discipline) {
    |run| > 0 && Init(run[0]) && forall i, j :: 0 <= i && j == i + 1 < |run| ==> Next(run[i], run[j], d)
  }

  /** `b` replaces `a` without going back: a later incarnation, or the same one not yet ended. */
  predicate Follows(a: Body, b: Body) {
    a.incarnation < b.incarnation ||
    (a.incarnation == b.incarnation && !a.farewell && a.version <= b.version)
  }

  predicate NotBefore(a: Body, b: Body) {
    a == b || Follows(a, b)
  }

  // Senders stamp in the order in which they load.

  /** The body is one the sender has had; a farewell is its last until a restart. */
  ghost predicate HadBody(sender: Sender, body: Body) {
    (body.farewell ==> body.features == map[]) &&
    (body.incarnation < sender.current.incarnation ||
      (body.incarnation == sender.current.incarnation && body.version <= sender.current.version &&
       (body.farewell ==> !sender.up && sender.loaded == None && body == Parted(sender.current)))) &&
    (sender.loaded.Some? ==> Follows(body, sender.loaded.value))
  }

  ghost predicate SenderInv(s: State, p: Stamped) {
    p.node.ipAddr in s.senders && p.node.features == p.body.features &&
    HadBody(s.senders[p.node.ipAddr], p.body) && p.node.timeNs <= s.senders[p.node.ipAddr].stamp
  }

  ghost predicate LoadedInv(sender: Sender) {
    !sender.current.farewell &&
    (sender.loaded.Some? ==>
      var body := sender.loaded.value;
      body.incarnation == sender.current.incarnation && body.version <= sender.current.version &&
      (body.farewell ==> !sender.up && body == Parted(sender.current)))
  }

  ghost predicate InOrder(p: Stamped, q: Stamped) {
    p.node.ipAddr == q.node.ipAddr ==>
      (p.node.timeNs < q.node.timeNs ==> Follows(p.body, q.body)) &&
      (p.node.timeNs == q.node.timeNs ==> p == q)
  }

  ghost predicate WireInv(s: State) {
    (forall ip :: ip in s.senders ==> LoadedInv(s.senders[ip])) &&
    (forall p :: p in s.sent ==> SenderInv(s, p)) &&
    (forall p, q :: p in s.sent && q in s.sent ==> InOrder(p, q))
  }

  lemma SendKeepsWireInv(s: State, a: Action)
    requires WireInv(s) && a.SendStamped? && Enabled(s, a)
    ensures WireInv(Step(s, a))
  {
    var t := Step(s, a);
    forall p | p in t.sent
      ensures SenderInv(t, p)
    {
      assert p in s.sent ==> SenderInv(s, p);
    }
    forall p, q | p in t.sent && q in t.sent
      ensures InOrder(p, q)
    {
      assert p in s.sent ==> SenderInv(s, p);
      assert q in s.sent ==> SenderInv(s, q);
      assert p in s.sent && q in s.sent ==> InOrder(p, q);
    }
  }

  lemma StepKeepsWireInv(s: State, a: Action)
    requires WireInv(s) && Enabled(s, a)
    ensures WireInv(Step(s, a))
  {
    if a.SendStamped? {
      SendKeepsWireInv(s, a);
    } else {
      var t := Step(s, a);
      forall p | p in t.sent
        ensures SenderInv(t, p)
      {
        assert SenderInv(s, p);
      }
    }
  }

  // The store never shows a scan an object older than the one it listed.

  ghost predicate StoreInv(s: State) {
    (forall ip :: ip in s.store ==> s.store[ip].node.ipAddr == ip && s.store[ip] in s.puts) &&
    (forall p :: p in s.puts ==> p.node.timeNs <= s.storeNow) &&
    (s.observer.scanning.Scan? ==> forall load :: load in s.observer.scanning.loads ==>
      load.1 <= s.storeNow && (load.0 in s.store ==> load.1 <= s.store[load.0].node.timeNs))
  }

  lemma StepKeepsStoreInv(s: State, a: Action)
    requires StoreInv(s) && Enabled(s, a)
    ensures StoreInv(Step(s, a))
  {
  }

  // Under the four disciplines packets and objects are in order together.

  ghost predicate Disciplined(d: Discipline) {
    d.putsLatest && d.putsAfterStamps && d.sendsUnbroken && d.sendsAfterPuts
  }

  ghost predicate PutInv(s: State, p: Stamped) {
    p.node.ipAddr in s.senders && p.node.features == p.body.features && HadBody(s.senders[p.node.ipAddr], p.body)
  }

  /** Unlike two packets, two puts may have one stamp. */
  ghost predicate MixedInOrder(p: Stamped, q: Stamped) {
    p.node.ipAddr == q.node.ipAddr && p.node.timeNs < q.node.timeNs ==> NotBefore(p.body, q.body)
  }

  ghost predicate PutsInv(s: State) {
    (forall p :: p in s.puts ==> PutInv(s, p)) &&
    forall p, q :: p in s.sent + s.puts && q in s.sent + s.puts ==> MixedInOrder(p, q)
  }

  lemma SendKeepsPutsInv(s: State, a: Action, d: Discipline)
    requires WireInv(s) && PutsInv(s) && a.SendStamped? && Enabled(s, a) && Obeys(d, s, a) && Disciplined(d)
    ensures PutsInv(Step(s, a))
  {
    var t := Step(s, a);
    forall p | p in t.puts
      ensures PutInv(t, p)
    {
      assert PutInv(s, p);
    }
    forall p, q | p in t.sent + t.puts && q in t.sent + t.puts
      ensures MixedInOrder(p, q)
    {
      assert p in s.sent ==> SenderInv(s, p);
      assert p in s.puts ==> PutInv(s, p);
      assert q in s.sent ==> SenderInv(s, q);
      assert q in s.puts ==> PutInv(s, q);
      assert p in s.sent + s.puts && q in s.sent + s.puts ==> MixedInOrder(p, q);
    }
  }

  /** A sender's latest body comes after all it has had. */
  lemma LatestIsLast(sender: Sender, body: Body)
    requires HadBody(sender, body) && LoadedInv(sender) && sender.loaded == None
    ensures NotBefore(body, Latest(sender))
  {
  }

  lemma PutKeepsPutsInv(s: State, a: Action, d: Discipline)
    requires WireInv(s) && StoreInv(s) && PutsInv(s) && a.PutObject? && Enabled(s, a) && Obeys(d, s, a) && Disciplined(d)
    ensures PutsInv(Step(s, a))
  {
    var t, sender := Step(s, a), s.senders[a.ipAddr];
    assert LoadedInv(sender);
    forall p | p in t.puts
      ensures PutInv(t, p)
    {
      assert p in s.puts ==> PutInv(s, p);
    }
    forall p, q | p in t.sent + t.puts && q in t.sent + t.puts
      ensures MixedInOrder(p, q)
    {
      assert p in s.sent ==> SenderInv(s, p);
      assert p in s.puts ==> PutInv(s, p);
      assert q in s.sent ==> SenderInv(s, q);
      if p in s.sent + s.puts && q in s.sent + s.puts {
        assert MixedInOrder(p, q);
      } else if p in s.sent + s.puts && p.node.ipAddr == a.ipAddr {
        LatestIsLast(sender, p.body);
      }
    }
  }

  lemma StepKeepsPutsInv(s: State, a: Action, d: Discipline)
    requires WireInv(s) && StoreInv(s) && PutsInv(s) && Enabled(s, a) && Obeys(d, s, a) && Disciplined(d)
    ensures PutsInv(Step(s, a))
  {
    if a.SendStamped? {
      SendKeepsPutsInv(s, a, d);
    } else if a.PutObject? {
      PutKeepsPutsInv(s, a, d);
    } else {
      var t := Step(s, a);
      assert t.sent == s.sent && t.puts == s.puts;
      forall p | p in t.puts
        ensures PutInv(t, p)
      {
        assert PutInv(s, p);
      }
    }
  }

  // The observer holds nothing that was not sent or, where it loads, stored.

  ghost function Sources(s: State, loads: bool): set<Stamped> {
    if loads then s.sent + s.puts else s.sent
  }

  ghost predicate Sourced(s: State, node: Node, loads: bool) {
    exists p :: p in Sources(s, loads) && p.node == node
  }

  ghost predicate TableSourced(s: State, o: Observer.State, loads: bool) {
    forall ip :: ip in o.table ==> Sourced(s, o.table[ip], loads) && o.table[ip] in o.log
  }

  ghost predicate HeldInv(s: State, loads: bool) {
    TableSourced(s, s.observer, loads) &&
    (s.observer.receiving.Checked? ==> Sourced(s, s.observer.receiving.node, loads)) &&
    (s.observer.scanning.Scan? && s.observer.scanning.fetched.Some? ==>
      Sourced(s, s.observer.scanning.fetched.value, loads))
  }

  lemma AdmitKeepsHeld(s: State, o: Observer.State, node: Node, loads: bool)
    requires TableSourced(s, o, loads) && Sourced(s, node, loads)
    ensures TableSourced(s, Observer.Admit(o, node), loads)
  {
    var t := Observer.Admit(o, node);
    forall ip | ip in t.table
      ensures Sourced(s, t.table[ip], loads) && t.table[ip] in t.log
    {
      if t.table == o.table {
        assert o.table[ip] in o.log;
      } else {
        assert t.log == o.log + [node];
      }
    }
  }

  lemma ObserverKeepsHeld(s: State, a: Observer.Action, loads: bool)
    requires HeldInv(s, loads) && StoreInv(s) && Enabled(s, Observe(a)) && (loads || !a.GetObject?)
    ensures HeldInv(Step(s, Observe(a)), loads)
  {
    var o := s.observer;
    var t := Step(s, Observe(a));
    assert forall node :: Sourced(s, node, loads) ==> Sourced(t, node, loads);
    match a
    case Update => AdmitKeepsHeld(s, o, o.receiving.node, loads);
    case UpdateLoaded => AdmitKeepsHeld(s, o, o.scanning.fetched.value, loads);
    case Receive(packet) => assert Sourced(s, packet, loads);
    case GetObject(_, stored) => assert s.store[stored.ipAddr] in Sources(s, loads);
    case _ =>
  }

  lemma StepKeepsHeldInv(s: State, a: Action, loads: bool)
    requires HeldInv(s, loads) && StoreInv(s) && Enabled(s, a)
    requires loads || !(a.Observe? && a.action.GetObject?)
    ensures HeldInv(Step(s, a), loads)
  {
    if a.Observe? {
      ObserverKeepsHeld(s, a.action, loads);
    } else {
      SourcesGrow(s, a, loads);
      assert Step(s, a).observer == s.observer;
      assert forall node :: Sourced(s, node, loads) ==> Sourced(Step(s, a), node, loads);
    }
  }

  lemma SourcesGrow(s: State, a: Action, loads: bool)
    requires Enabled(s, a)
    ensures Sources(s, loads) <= Sources(Step(s, a), loads)
  {
  }

  ghost predicate Inv(s: State, d: Discipline) {
    WireInv(s) && StoreInv(s) && Observer.Inv(s.observer, MAX_STALL) && HeldInv(s, d.loads) &&
    (Disciplined(d) ==> PutsInv(s))
  }

  lemma StepKeepsInv(s: State, a: Action, d: Discipline)
    requires Inv(s, d) && Enabled(s, a) && Obeys(d, s, a)
    ensures Inv(Step(s, a), d)
  {
    StepKeepsWireInv(s, a);
    StepKeepsStoreInv(s, a);
    StepKeepsHeldInv(s, a, d.loads);
    if a.Observe? {
      Observer.StepKeepsInv(s.observer, a.action, MAX_STALL);
    }
    if Disciplined(d) {
      StepKeepsPutsInv(s, a, d);
    }
  }

  lemma {:induction false} BehaviorKeepsInv(run: seq<State>, i: nat, d: Discipline)
    requires Behavior(run, d) && i < |run|
    ensures Inv(run[i], d)
  {
    if i > 0 {
      BehaviorKeepsInv(run, i - 1, d);
      var a := Taken(run[i - 1], run[i], d);
      StepKeepsInv(run[i - 1], a, d);
    }
  }

  /** What is fetched is never older than what was listed, so the observer's own check of it is idle. */
  lemma FetchedNotOlderThanListed(run: seq<State>, i: nat, d: Discipline, listed: int, stored: Node)
    requires Behavior(run, d) && i < |run|
    requires run[i].observer.scanning.Scan? && (stored.ipAddr, listed) in run[i].observer.scanning.loads
    requires ObserverSees(run[i], Observer.GetObject(listed, stored))
    ensures listed <= stored.timeNs
  {
    BehaviorKeepsInv(run, i, d);
  }

  /** History is only added to. */
  ghost predicate Grown(s: State, t: State) {
    s.observer.log <= t.observer.log && s.sent <= t.sent && s.puts <= t.puts
  }

  lemma StepGrows(s: State, a: Action)
    requires Enabled(s, a)
    ensures Grown(s, Step(s, a))
  {
  }

  lemma NextGrows(s: State, t: State, d: Discipline)
    requires Next(s, t, d)
    ensures Grown(s, t)
  {
    var a := Taken(s, t, d);
    StepGrows(s, a);
  }

  lemma GrownFurther(s: State, t: State, u: State)
    requires Grown(s, t) && Grown(t, u)
    ensures Grown(s, u)
  {
  }

  lemma {:induction false} LogGrows(run: seq<State>, i: nat, j: nat, d: Discipline)
    requires Behavior(run, d) && i <= j < |run|
    ensures Grown(run[i], run[j])
    decreases j
  {
    if i < j {
      LogGrows(run, i, j - 1, d);
      assert Next(run[j - 1], run[j], d);
      NextGrows(run[j - 1], run[j], d);
      GrownFurther(run[i], run[j - 1], run[j]);
    }
  }

  lemma StampAdmittedOnce(log: seq<Node>, a: Node, b: Node)
    requires Observer.Monotone(log) && a in log && b in log && a.ipAddr == b.ipAddr && a.timeNs == b.timeNs
    ensures a == b
  {
    var k :| 0 <= k < |log| && log[k] == a;
    var l :| 0 <= l < |log| && log[l] == b;
  }

  lemma AdmittedNotNewer(o: Observer.State, node: Node)
    requires Observer.LogInv(o) && node in o.log && node.ipAddr in o.table
    ensures node.timeNs <= o.table[node.ipAddr].timeNs
  {
    var k :| 0 <= k < |o.log| && o.log[k] == node;
  }

  /** Of two entries held for a host the later one has a later stamp, or it is the same entry. */
  lemma HeldStampsGrow(run: seq<State>, i: nat, j: nat, ip: IpAddr, d: Discipline)
    requires Behavior(run, d) && i <= j < |run|
    requires ip in run[i].observer.table && ip in run[j].observer.table
    ensures var a, b := run[i].observer.table[ip], run[j].observer.table[ip];
      a.ipAddr == b.ipAddr == ip && (a == b || a.timeNs < b.timeNs)
  {
    BehaviorKeepsInv(run, i, d);
    BehaviorKeepsInv(run, j, d);
    LogGrows(run, i, j, d);
    var a, o := run[i].observer.table[ip], run[j].observer;
    assert a in run[i].observer.log && a in o.log && o.table[ip] in o.log;
    AdmittedNotNewer(o, a);
    if a.timeNs == o.table[ip].timeNs {
      StampAdmittedOnce(o.log, a, o.table[ip]);
    }
  }

  /**
   On packets alone, whatever is lost, duplicated or reordered and whatever expires, a host's body
   held later follows the body held earlier; after a farewell that means another incarnation.
  */
  lemma HeldVersionNeverRegresses(run: seq<State>, i: nat, j: nat, ip: IpAddr, p: Stamped, q: Stamped, d: Discipline)
    requires Behavior(run, d) && !d.loads && i <= j < |run|
    requires ip in run[i].observer.table && ip in run[j].observer.table
    requires p in run[i].sent && p.node == run[i].observer.table[ip]
    requires q in run[j].sent && q.node == run[j].observer.table[ip]
    ensures p == q || Follows(p.body, q.body)
  {
    BehaviorKeepsInv(run, j, d);
    LogGrows(run, i, j, d);
    HeldStampsGrow(run, i, j, ip, d);
    assert InOrder(p, q);
  }

  /** Every entry held came from some packet or, where objects are loaded, some object, so the theorems speak of all. */
  lemma EntryHasSource(run: seq<State>, i: nat, ip: IpAddr, d: Discipline)
    requires Behavior(run, d) && i < |run| && ip in run[i].observer.table
    ensures exists p :: p in Sources(run[i], d.loads) && p.node == run[i].observer.table[ip]
  {
    BehaviorKeepsInv(run, i, d);
    assert Sourced(run[i], run[i].observer.table[ip], d.loads);
  }

  /**
   A sender that is up has broadcast what it has now, and the observer has merged that broadcast: then the observer's
   entry is that broadcast.
  */
  lemma CurrentBodyHeld(run: seq<State>, i: nat, p: Stamped, d: Discipline)
    requires Behavior(run, d) && !d.loads && i < |run|
    requires p in run[i].sent && p.node.ipAddr in run[i].senders
    requires p.node.timeNs == run[i].senders[p.node.ipAddr].stamp && p.body == run[i].senders[p.node.ipAddr].current
    requires p.node.ipAddr in run[i].observer.table
    requires p.node.timeNs <= run[i].observer.table[p.node.ipAddr].timeNs
    ensures run[i].observer.table[p.node.ipAddr] == p.node
    ensures p.node.features == run[i].senders[p.node.ipAddr].current.features
  {
    BehaviorKeepsInv(run, i, d);
    var entry := run[i].observer.table[p.node.ipAddr];
    assert Sourced(run[i], entry, d.loads);
    var q :| q in Sources(run[i], d.loads) && q.node == entry;
    assert SenderInv(run[i], p) && SenderInv(run[i], q) && InOrder(p, q);
  }

  /** The observer holds `p` of a host, and later `q`. */
  ghost predicate Held(run: seq<State>, i: int, j: int, ip: IpAddr, p: Stamped, q: Stamped, d: Discipline) {
    0 <= i <= j < |run| && ip in run[i].observer.table && ip in run[j].observer.table &&
    p in Sources(run[i], d.loads) && p.node == run[i].observer.table[ip] &&
    q in Sources(run[j], d.loads) && q.node == run[j].observer.table[ip]
  }

  /** And the body of `q` is an earlier one. */
  ghost predicate Regresses(run: seq<State>, i: int, j: int, ip: IpAddr, p: Stamped, q: Stamped, d: Discipline) {
    Held(run, i, j, ip, p, q, d) && p.node != q.node && !NotBefore(p.body, q.body)
  }

  ghost predicate NeverRegresses(d: Discipline) {
    forall run, i, j, ip, p, q :: Behavior(run, d) ==> !Regresses(run, i, j, ip, p, q, d)
  }

  /** Where nothing is loaded, or all disciplines are kept, what is held later is the same or not before. */
  lemma HeldInOrder(run: seq<State>, i: nat, j: nat, ip: IpAddr, p: Stamped, q: Stamped, d: Discipline)
    requires Behavior(run, d) && (!d.loads || Disciplined(d)) && i <= j < |run|
    requires ip in run[i].observer.table && ip in run[j].observer.table
    requires p in Sources(run[i], d.loads) && p.node == run[i].observer.table[ip]
    requires q in Sources(run[j], d.loads) && q.node == run[j].observer.table[ip]
    ensures p.node == q.node || NotBefore(p.body, q.body)
  {
    BehaviorKeepsInv(run, j, d);
    LogGrows(run, i, j, d);
    HeldStampsGrow(run, i, j, ip, d);
    if d.loads {
      assert MixedInOrder(p, q);
    } else {
      assert InOrder(p, q);
    }
  }

  /**
   The version held of a host never goes back, over every run, if and only if the observer loads no objects or
   senders keep all four disciplines.
  */
  lemma VersionsNeverRegress(d: Discipline)
    ensures NeverRegresses(d) <==> !d.loads || (d.putsLatest && d.putsAfterStamps && d.sendsUnbroken && d.sendsAfterPuts)
  {
    if !d.loads || Disciplined(d) {
      forall run, i, j, ip, p, q | Behavior(run, d)
        ensures !Regresses(run, i, j, ip, p, q, d)
      {
        if Held(run, i, j, ip, p, q, d) {
          HeldInOrder(run, i, j, ip, p, q, d);
        }
      }
    } else if !d.putsLatest {
      StaleSnapshotRegresses(d);
    } else if !d.putsAfterStamps {
      EarlyPutRegresses(d);
    } else if !d.sendsUnbroken {
      BrokenSendRegresses(d);
    } else {
      EarlyStampRegresses(d);
    }
  }

  // A run for each discipline dropped, keeping the other three.

  const HOST: IpAddr := "10.0.0.1"
  const CHANGED := Body(map["feature" := "true"], 0, 1, false)

  lemma Extend(run: seq<State>, a: Action, d: Discipline) returns (longer: seq<State>)
    requires Behavior(run, d) && Enabled(run[|run| - 1], a) && Obeys(d, run[|run| - 1], a)
    ensures Behavior(longer, d) && longer == run + [Step(run[|run| - 1], a)]
  {
    assert Next(run[|run| - 1], Step(run[|run| - 1], a), d);
    longer := run + [Step(run[|run| - 1], a)];
  }

  ghost predicate Quiet(o: Observer.State) {
    o.now == 0 && o.receiving == Observer.Listening
  }

  function Last(run: seq<State>): State
    requires |run| > 0
  {
    run[|run| - 1]
  }

  ghost predicate Further(run: seq<State>, longer: seq<State>, d: Discipline) {
    Behavior(longer, d) && run <= longer
  }

  function HostSender(s: State, sender: Sender): State {
    WithSender(s, HOST, sender)
  }

  /** The store's clock is at 2 throughout. */
  lemma Begin(d: Discipline) returns (run: seq<State>)
    ensures Behavior(run, d) && Last(run).senders == map[HOST := Sender(true, EMPTY, None, None, 0)]
    ensures Last(run).sent == Last(run).puts == {} && Last(run).store == map[] && Last(run).storeNow == 2
    ensures Quiet(Last(run).observer) && Last(run).observer.scanning == Observer.Idle && Last(run).observer.table == map[]
  {
    run := [State(map[HOST := Sender(true, EMPTY, None, None, 0)], {}, {}, map[], 2,
                  Observer.State(0, map[], Observer.Listening, Observer.Idle, [], -EXPIRE_TIMEOUT, 0))];
  }

  lemma Change(run: seq<State>, d: Discipline) returns (longer: seq<State>)
    requires Behavior(run, d) && HOST in Last(run).senders
    requires Last(run).senders[HOST].up && Last(run).senders[HOST].current == EMPTY
    ensures Further(run, longer, d)
    ensures Last(longer) == HostSender(Last(run), Last(run).senders[HOST].(current := CHANGED))
  {
    longer := Extend(run, SetFeatures(HOST, CHANGED.features), d);
  }

  lemma Load(run: seq<State>, d: Discipline) returns (longer: seq<State>)
    requires Behavior(run, d) && HOST in Last(run).senders
    requires Last(run).senders[HOST].up && Last(run).senders[HOST].loaded == None
    ensures Further(run, longer, d)
    ensures var sender := Last(run).senders[HOST];
      Last(longer) == HostSender(Last(run), sender.(loaded := Some(sender.current)))
  {
    longer := Extend(run, LoadNode(HOST), d);
  }

  lemma Marshal(run: seq<State>, d: Discipline) returns (longer: seq<State>)
    requires Behavior(run, d) && HOST in Last(run).senders
    ensures Further(run, longer, d)
    ensures var sender := Last(run).senders[HOST];
      Last(longer) == HostSender(Last(run), sender.(snapshot := Some(sender.current)))
  {
    longer := Extend(run, MarshalForStorage(HOST), d);
  }

  lemma Send(run: seq<State>, timeNs: int, d: Discipline) returns (longer: seq<State>, p: Stamped)
    requires Behavior(run, d) && HOST in Last(run).senders && Last(run).senders[HOST].loaded.Some?
    requires Last(run).senders[HOST].stamp < timeNs && Obeys(d, Last(run), SendStamped(HOST, timeNs))
    ensures var sender := Last(run).senders[HOST];
      p == Stamped(Node(HOST, timeNs, sender.loaded.value.features), sender.loaded.value) &&
      Further(run, longer, d) && Last(longer) ==
        HostSender(Last(run), sender.(loaded := None, stamp := timeNs)).(sent := Last(run).sent + {p})
  {
    longer := Extend(run, SendStamped(HOST, timeNs), d);
    var body := Last(run).senders[HOST].loaded.value;
    p := Stamped(Node(HOST, timeNs, body.features), body);
  }

  lemma Put(run: seq<State>, d: Discipline) returns (longer: seq<State>, p: Stamped)
    requires Behavior(run, d) && HOST in Last(run).senders && Last(run).senders[HOST].snapshot.Some?
    requires Obeys(d, Last(run), PutObject(HOST))
    ensures var sender := Last(run).senders[HOST];
      p == Stamped(Node(HOST, Last(run).storeNow, sender.snapshot.value.features), sender.snapshot.value) &&
      Further(run, longer, d) && Last(longer) == HostSender(Last(run), sender.(snapshot := None))
        .(store := Last(run).store[HOST := p], puts := Last(run).puts + {p})
  {
    longer := Extend(run, PutObject(HOST), d);
    var body := Last(run).senders[HOST].snapshot.value;
    p := Stamped(Node(HOST, Last(run).storeNow, body.features), body);
  }

  /** The observer receives a packet newer than its entry. */
  lemma Hear(run: seq<State>, p: Stamped, d: Discipline) returns (longer: seq<State>)
    requires Behavior(run, d) && Quiet(Last(run).observer) && p in Last(run).sent
    requires 0 <= p.node.timeNs && IsUpdatable(Last(run).observer.table, p.node.ipAddr, p.node.timeNs)
    ensures Further(run, longer, d) && Last(longer) == Last(run).(observer := Last(longer).observer)
    ensures Quiet(Last(longer).observer) && Last(longer).observer.scanning == Last(run).observer.scanning
    ensures Last(longer).observer.table == Last(run).observer.table[p.node.ipAddr := p.node]
  {
    longer := Extend(run, Observe(Observer.Receive(p.node)), d);
    longer := Extend(longer, Observe(Observer.Update), d);
  }

  /** The observer scans and loads an object newer than its entry. */
  lemma Fetch(run: seq<State>, d: Discipline) returns (longer: seq<State>)
    requires Behavior(run, d) && d.loads && HOST in Last(run).store
    requires Quiet(Last(run).observer) && Last(run).observer.scanning == Observer.Idle
    requires Last(run).store[HOST].node.ipAddr == HOST && Last(run).store[HOST].node.timeNs == 2
    requires IsUpdatable(Last(run).observer.table, HOST, 2)
    ensures Further(run, longer, d) && Last(longer) == Last(run).(observer := Last(longer).observer)
    ensures Quiet(Last(longer).observer)
    ensures Last(longer).observer.table == Last(run).observer.table[HOST := Last(run).store[HOST].node]
  {
    var node := Last(run).store[HOST].node;
    longer := Extend(run, Observe(Observer.BeginScan), d);
    longer := Extend(longer, Observe(Observer.ListObject(HOST, 2)), d);
    longer := Extend(longer, Observe(Observer.GetObject(2, node)), d);
    longer := Extend(longer, Observe(Observer.UpdateLoaded), d);
  }

  /** The two entries that the runs below end with, in this order. */
  lemma Shown(run: seq<State>, i: nat, newer: Stamped, older: Stamped, d: Discipline)
    requires Behavior(run, d) && i < |run| && newer.body == CHANGED && older.body == EMPTY
    requires newer in Sources(run[i], d.loads) && older in Sources(Last(run), d.loads)
    requires HOST in run[i].observer.table && run[i].observer.table[HOST] == newer.node
    requires HOST in Last(run).observer.table && Last(run).observer.table[HOST] == older.node
    requires newer.node.features == CHANGED.features && older.node.features == EMPTY.features
    ensures !NeverRegresses(d)
  {
    assert "feature" in newer.node.features && "feature" !in older.node.features;
    assert Held(run, i, |run| - 1, HOST, newer, older, d);
    assert Regresses(run, i, |run| - 1, HOST, newer, older, d);
  }

  /** A node marshalled for storage before a change is stored after the change was broadcast. */
  lemma StaleSnapshotRegresses(d: Discipline)
    requires d.loads && !d.putsLatest
    ensures !NeverRegresses(d)
  {
    var newer, older;
    var run := Begin(d);
    run := Marshal(run, d);
    run := Change(run, d);
    run := Load(run, d);
    run, newer := Send(run, 1, d);
    run := Hear(run, newer, d);
    var i := |run| - 1;
    run, older := Put(run, d);
    run := Fetch(run, d);
    Shown(run, i, newer, older, d);
  }

  /** An object with the latest features gets a LastModified before the stamp of an old packet, which arrives later. */
  lemma EarlyPutRegresses(d: Discipline)
    requires d.loads && !d.putsAfterStamps
    ensures !NeverRegresses(d)
  {
    var newer, older;
    var run := Begin(d);
    run := Load(run, d);
    run, older := Send(run, 3, d);
    run := Change(run, d);
    run := Marshal(run, d);
    run, newer := Put(run, d);
    run := Fetch(run, d);
    var i := |run| - 1;
    run := Hear(run, older, d);
    Shown(run, i, newer, older, d);
  }

  /** A node loaded for a packet before a change is stamped after the changed one was stored. */
  lemma BrokenSendRegresses(d: Discipline)
    requires d.loads && !d.sendsUnbroken
    ensures !NeverRegresses(d)
  {
    var newer, older;
    var run := Begin(d);
    run := Load(run, d);
    run := Change(run, d);
    run := Marshal(run, d);
    run, newer := Put(run, d);
    run := Fetch(run, d);
    var i := |run| - 1;
    run, older := Send(run, 3, d);
    run := Hear(run, older, d);
    Shown(run, i, newer, older, d);
  }

  /** A packet with changed features is stamped before the LastModified of the object stored earlier. */
  lemma EarlyStampRegresses(d: Discipline)
    requires d.loads && !d.sendsAfterPuts
    ensures !NeverRegresses(d)
  {
    var newer, older;
    var run := Begin(d);
    run := Marshal(run, d);
    run, older := Put(run, d);
    run := Change(run, d);
    run := Load(run, d);
    run, newer := Send(run, 1, d);
    run := Hear(run, newer, d);
    var i := |run| - 1;
    run := Fetch(run, d);
    Shown(run, i, newer, older, d);
  }
}
