/**
 How a change reaches its consumers: the goroutines of one service instance (service/main.go,
 service/io.go, service/config.go, service/state.go, service/storage.go), each with a program counter,
 and the channels between them. A channel of capacity one is a boolean, full or empty.
*/
module Fanout {
  import opened Base

  datatype Channels = Channels(notify: bool, notifyState: bool, notifyStorage: bool, notifyTransmit: bool,
                               reply: seq<set<IpAddr>>)

  datatype Config = Scanned | Notifying

  /** Serve's forward variables, nil or not; it forwards once the first storage scan is over. */
  datatype Serve = Serve(running: bool, forwardState: bool, forwardStorage: bool, forwardTransmit: bool)

  datatype Receive = Reading | Updated(newAddr: Option<IpAddr>) | Replying(addr: IpAddr)

  datatype WriterPc = WriterWaiting | ReadingLocal | ReadingRemotes

  datatype Writer = Writer(pc: WriterPc, version: nat, packets: nat, scans: nat)

  /** `Storing(scan)` is before the put reads the local node; the scan comes after. */
  datatype StoragePc =
    | StorageWaiting
    | Storing(scan: bool)
    | Loading(newAddrs: set<IpAddr>)
    | ScanReplying(scanAddrs: set<IpAddr>)
    | Expiring
    | StoringEmpty
    | StorageDone

  datatype Storage = Storage(pc: StoragePc, version: nat, storedEmpty: bool)

  /** `Top` with no reply addresses is a broadcast; `Addressed` has its addresses but not yet its data. */
  datatype TransmitPc =
    | Top(replyTo: set<IpAddr>)
    | Addressed(addrs: set<IpAddr>)
    | Sending(version: nat, unsent: set<IpAddr>)
    | Selecting
    | Parting(unparted: set<IpAddr>)
    | TransmitDone

  datatype Transmit = Transmit(pc: TransmitPc, version: nat, sent: map<IpAddr, nat>,
                               parting: set<IpAddr>, parted: set<IpAddr>)

  const REPLY_CAPACITY := 10

  /**
   `version` numbers the local nodes set, `packets` and `scans` the table changes made by packets and
   by storage scans. The writer and storage keep what they last read of these, the transmitter the
   version it last marshalled and that last sent to each peer, the peers known at shutdown and those sent
   the empty node.
  */
  datatype State = State(version: nat, packets: nat, scans: nat, table: set<IpAddr>, cancelled: bool,
                         channels: Channels, config: Config, serve: Serve, receive: Receive,
                         writer: Writer, storage: Storage, transmit: Transmit)

  datatype ServeAction = TakeNotify | ForwardState | ForwardStorage | ForwardTransmit
  datatype ReceiveAction = Update(ipAddr: IpAddr) | NotifyState | SendReply
  datatype WriterAction = TakeNotifyState | GetLocalNode | GetRemoteNodes
  datatype StorageAction =
    | TakeNotifyStorage | StorageTimer | Put | Load(ipAddr: IpAddr) | LoadingDone | SendScanReply
    | Expire(expired: set<IpAddr>) | StopStorage | PutEmpty
  datatype TransmitAction =
    | ChooseAddrs | Marshal | Write(ipAddr: IpAddr) | Written | TakeReply | TakeNotifyTransmit | TransmitTimer
    | StopTransmit | WriteEmpty(ipAddr: IpAddr) | CloseTransmit

  datatype Action =
    | SetNode
    | Notify
    | Cancel
    | ServeStep(serve: ServeAction)
    | ReceiveStep(receive: ReceiveAction)
    | WriterStep(writer: WriterAction)
    | StorageStep(storage: StorageAction)
    | TransmitStep(transmit: TransmitAction)

  /** The service starts by storing and scanning; a local node set before that left its notification. */
  predicate Init(s: State) {
    s.table == {} && !s.cancelled &&
    s.channels == Channels(s.version != 0, false, false, false, []) &&
    s.config == Scanned && s.serve == Serve(false, false, false, false) && s.receive == Reading &&
    s.writer == Writer(WriterWaiting, 0, s.packets, s.scans) &&
    s.storage == Storage(Storing(true), 0, false) && s.transmit == Transmit(Top({}), 0, map[], {}, {})
  }

  predicate ServeEnabled(s: State, a: ServeAction) {
    s.serve.running &&
    match a
    case TakeNotify => s.channels.notify
    case ForwardState => s.serve.forwardState && !s.channels.notifyState
    case ForwardStorage => s.serve.forwardStorage && !s.channels.notifyStorage
    case ForwardTransmit => s.serve.forwardTransmit && !s.channels.notifyTransmit
  }

  function ServeNext(s: State, a: ServeAction): State {
    match a
    case TakeNotify => s.(channels := s.channels.(notify := false), serve := Serve(true, true, true, true))
    case ForwardState =>
      s.(channels := s.channels.(notifyState := true), serve := s.serve.(forwardState := false))
    case ForwardStorage =>
      s.(channels := s.channels.(notifyStorage := true), serve := s.serve.(forwardStorage := false))
    case ForwardTransmit =>
      s.(channels := s.channels.(notifyTransmit := true), serve := s.serve.(forwardTransmit := false))
  }

  predicate ReceiveEnabled(s: State, a: ReceiveAction) {
    match a
    case Update(_) => s.receive == Reading
    case NotifyState => s.receive.Updated?
    case SendReply => s.receive.Replying? && |s.channels.reply| < REPLY_CAPACITY
  }

  function ReceiveNext(s: State, a: ReceiveAction): State
    requires ReceiveEnabled(s, a)
  {
    match a
    case Update(ip) =>
      s.(table := s.table + {ip}, packets := s.packets + 1,
         receive := Updated(if ip in s.table then None else Some(ip)))
    case NotifyState =>
      s.(channels := s.channels.(notifyState := true),
         receive := if s.receive.newAddr.Some? then Replying(s.receive.newAddr.value) else Reading)
    case SendReply =>
      s.(channels := s.channels.(reply := s.channels.reply + [{s.receive.addr}]), receive := Reading)
  }

  predicate WriterEnabled(s: State, a: WriterAction) {
    match a
    case TakeNotifyState => s.writer.pc == WriterWaiting && s.channels.notifyState
    case GetLocalNode => s.writer.pc == ReadingLocal
    case GetRemoteNodes => s.writer.pc == ReadingRemotes
  }

  function WriterNext(s: State, a: WriterAction): State {
    match a
    case TakeNotifyState =>
      s.(channels := s.channels.(notifyState := false), writer := s.writer.(pc := ReadingLocal))
    case GetLocalNode => s.(writer := s.writer.(pc := ReadingRemotes, version := s.version))
    case GetRemoteNodes => s.(writer := s.writer.(pc := WriterWaiting, packets := s.packets, scans := s.scans))
  }

  predicate StorageEnabled(s: State, a: StorageAction) {
    match a
    case TakeNotifyStorage => s.storage.pc == StorageWaiting && s.channels.notifyStorage
    case StorageTimer => s.storage.pc == StorageWaiting
    case Put => s.storage.pc.Storing?
    case Load(_) => s.storage.pc.Loading?
    case LoadingDone => s.storage.pc.Loading?
    case SendScanReply => s.storage.pc.ScanReplying? && |s.channels.reply| < REPLY_CAPACITY
    case Expire(expired) => s.storage.pc == Expiring && expired <= s.table
    case StopStorage => s.storage.pc == StorageWaiting && s.cancelled
    case PutEmpty => s.storage.pc == StoringEmpty
  }

  function StorageNext(s: State, a: StorageAction): State
    requires StorageEnabled(s, a)
  {
    match a
    case TakeNotifyStorage =>
      s.(channels := s.channels.(notifyStorage := false), storage := s.storage.(pc := Storing(false)))
    case StorageTimer => s.(storage := s.storage.(pc := Storing(true)))
    case Put =>
      s.(storage := s.storage.(version := s.version, pc := if s.storage.pc.scan then Loading({}) else StorageWaiting))
    case Load(ip) =>
      var newAddrs := s.storage.pc.newAddrs + if ip in s.table then {} else {ip};
      s.(table := s.table + {ip}, scans := s.scans + 1, storage := s.storage.(pc := Loading(newAddrs)))
    case LoadingDone =>
      var newAddrs := s.storage.pc.newAddrs;
      s.(storage := s.storage.(pc := if newAddrs == {} then Expiring else ScanReplying(newAddrs)))
    case SendScanReply =>
      s.(channels := s.channels.(reply := s.channels.reply + [s.storage.pc.scanAddrs]),
         storage := s.storage.(pc := Expiring))
    case Expire(expired) =>
      s.(table := s.table - expired, scans := if expired == {} then s.scans else s.scans + 1,
         storage := s.storage.(pc := StorageWaiting), serve := s.serve.(running := true))
    case StopStorage => s.(storage := s.storage.(pc := StoringEmpty))
    case PutEmpty => s.(storage := s.storage.(pc := StorageDone, storedEmpty := true))
  }

  predicate TransmitEnabled(s: State, a: TransmitAction) {
    match a
    case ChooseAddrs => s.transmit.pc.Top?
    case Marshal => s.transmit.pc.Addressed?
    case Write(ip) => s.transmit.pc.Sending? && ip in s.transmit.pc.unsent
    case Written => s.transmit.pc.Sending? && s.transmit.pc.unsent == {}
    case TakeReply => s.transmit.pc == Selecting && s.channels.reply != []
    case TakeNotifyTransmit => s.transmit.pc == Selecting && s.channels.notifyTransmit
    case TransmitTimer => s.transmit.pc == Selecting
    case StopTransmit => s.transmit.pc == Selecting && s.cancelled
    case WriteEmpty(ip) => s.transmit.pc.Parting? && ip in s.transmit.pc.unparted
    case CloseTransmit => s.transmit.pc.Parting? && s.transmit.pc.unparted == {}
  }

  function TransmitNext(s: State, a: TransmitAction): State
    requires TransmitEnabled(s, a)
  {
    var tx := s.transmit;
    match a
    case ChooseAddrs =>
      s.(transmit := tx.(pc := Addressed(if tx.pc.replyTo == {} then s.table else tx.pc.replyTo)))
    case Marshal => s.(transmit := tx.(pc := Sending(s.version, tx.pc.addrs), version := s.version))
    case Write(ip) =>
      s.(transmit := tx.(sent := tx.sent[ip := tx.pc.version], pc := Sending(tx.pc.version, tx.pc.unsent - {ip})))
    case Written => s.(transmit := tx.(pc := Selecting))
    case TakeReply =>
      s.(channels := s.channels.(reply := s.channels.reply[1..]), transmit := tx.(pc := Top(s.channels.reply[0])))
    case TakeNotifyTransmit =>
      s.(channels := s.channels.(notifyTransmit := false), transmit := tx.(pc := Top({})))
    case TransmitTimer => s.(transmit := tx.(pc := Top({})))
    case StopTransmit => s.(transmit := tx.(pc := Parting(s.table), parting := s.table, parted := {}))
    case WriteEmpty(ip) => s.(transmit := tx.(pc := Parting(tx.pc.unparted - {ip}), parted := tx.parted + {ip}))
    case CloseTransmit => s.(transmit := tx.(pc := TransmitDone))
  }

  predicate Enabled(s: State, a: Action) {
    match a
    case SetNode => s.config == Scanned
    case Notify => s.config == Notifying
    case Cancel => true
    case ServeStep(b) => ServeEnabled(s, b)
    case ReceiveStep(b) => ReceiveEnabled(s, b)
    case WriterStep(b) => WriterEnabled(s, b)
    case StorageStep(b) => StorageEnabled(s, b)
    case TransmitStep(b) => TransmitEnabled(s, b)
  }

  function Step(s: State, a: Action): State
    requires Enabled(s, a)
  {
    match a
    case SetNode => s.(version := s.version + 1, config := Notifying)
    case Notify => s.(channels := s.channels.(notify := true), config := Scanned)
    case Cancel => s.(cancelled := true)
    case ServeStep(b) => ServeNext(s, b)
    case ReceiveStep(b) => ReceiveNext(s, b)
    case WriterStep(b) => WriterNext(s, b)
    case StorageStep(b) => StorageNext(s, b)
    case TransmitStep(b) => TransmitNext(s, b)
  }

  ghost predicate Next(s: State, t: State) {
    exists a :: Enabled(s, a) && t == Step(s, a)
  }

  lemma Taken(s: State, t: State) returns (a: Action)
    requires Next(s, t)
    ensures Enabled(s, a) && t == Step(s, a)
  {
    a :| Enabled(s, a) && t == Step(s, a);
  }

  ghost predicate Behavior(run: seq<State>) {
    |run| > 0 && Init(run[0]) && forall i, j :: 0 <= i && j == i + 1 < |run| ==> Next(run[i], run[j])
  }

  predicate Stopping(s: State) {
    s.transmit.pc.Parting? || s.transmit.pc == TransmitDone
  }

  predicate StorageStopping(s: State) {
    s.storage.pc == StoringEmpty || s.storage.pc == StorageDone
  }

  // Who still owes what.

  predicate TokenForAll(s: State) {
    s.config == Notifying || s.channels.notify
  }

  predicate WriterOwesLocal(s: State) {
    TokenForAll(s) || s.serve.forwardState || s.channels.notifyState || s.writer.pc == ReadingLocal
  }

  predicate StorageOwes(s: State) {
    TokenForAll(s) || s.serve.forwardStorage || s.channels.notifyStorage || s.storage.pc.Storing?
  }

  predicate TransmitToken(s: State) {
    TokenForAll(s) || s.serve.forwardTransmit || s.channels.notifyTransmit
  }

  predicate TransmitOwes(s: State) {
    TransmitToken(s) || s.transmit.pc.Top? || s.transmit.pc.Addressed?
  }

  predicate WriterOwesPackets(s: State) {
    s.receive.Updated? || s.channels.notifyState || s.writer.pc != WriterWaiting
  }

  predicate InReply(reply: seq<set<IpAddr>>, ip: IpAddr) {
    exists i :: 0 <= i < |reply| && ip in reply[i]
  }

  predicate ReplyOwed(s: State, ip: IpAddr) {
    s.receive == Updated(Some(ip)) || s.receive == Replying(ip) ||
    (s.storage.pc.Loading? && ip in s.storage.pc.newAddrs) ||
    (s.storage.pc.ScanReplying? && ip in s.storage.pc.scanAddrs) ||
    InReply(s.channels.reply, ip)
  }

  /** The transmit goroutine is on its way to send the current version to the peer. */
  predicate SendOwed(s: State, ip: IpAddr) {
    match s.transmit.pc
    case Top(replyTo) => replyTo == {} || ip in replyTo
    case Addressed(addrs) => ip in addrs
    case Sending(version, unsent) => version == s.version && ip in unsent
    case _ => false
  }

  predicate SentCurrent(s: State, ip: IpAddr) {
    ip in s.transmit.sent && s.transmit.sent[ip] == s.version
  }

  predicate Served(s: State, ip: IpAddr) {
    SentCurrent(s, ip) || TransmitToken(s) || ReplyOwed(s, ip) || SendOwed(s, ip)
  }

  ghost predicate LocalInv(s: State) {
    (s.writer.version != s.version ==> WriterOwesLocal(s)) &&
    (s.writer.packets != s.packets ==> WriterOwesPackets(s)) &&
    (s.storage.version != s.version && !StorageStopping(s) ==> StorageOwes(s)) &&
    (s.transmit.version != s.version && !Stopping(s) ==> TransmitOwes(s)) &&
    s.writer.scans <= s.scans &&
    (!s.serve.running ==>
      s.storage.pc != StorageWaiting && s.storage.pc != Storing(false) && !StorageStopping(s))
  }

  ghost predicate PeerInv(s: State) {
    !Stopping(s) ==>
      (s.transmit.pc.Sending? && s.transmit.pc.version != s.version ==> TransmitToken(s)) &&
      forall ip :: ip in s.table ==> Served(s, ip)
  }

  /** A reply names someone, so it cannot be taken for a broadcast. */
  ghost predicate ReplyInv(s: State) {
    (s.storage.pc.ScanReplying? ==> s.storage.pc.scanAddrs != {}) &&
    forall i :: 0 <= i < |s.channels.reply| ==> s.channels.reply[i] != {}
  }

  ghost predicate PartingInv(s: State) {
    (s.transmit.pc.Parting? ==> s.transmit.parting == s.transmit.parted + s.transmit.pc.unparted) &&
    (s.transmit.pc == TransmitDone ==> s.transmit.parting == s.transmit.parted) &&
    (s.storage.pc == StorageDone ==> s.storage.storedEmpty)
  }

  lemma ServeKeepsLocalInv(s: State, a: ServeAction)
    requires LocalInv(s) && ServeEnabled(s, a)
    ensures LocalInv(ServeNext(s, a))
  {
  }

  lemma ReceiveKeepsLocalInv(s: State, a: ReceiveAction)
    requires LocalInv(s) && ReceiveEnabled(s, a)
    ensures LocalInv(ReceiveNext(s, a))
  {
  }

  lemma WriterKeepsLocalInv(s: State, a: WriterAction)
    requires LocalInv(s) && WriterEnabled(s, a)
    ensures LocalInv(WriterNext(s, a))
  {
  }

  lemma StorageKeepsLocalInv(s: State, a: StorageAction)
    requires LocalInv(s) && StorageEnabled(s, a)
    ensures LocalInv(StorageNext(s, a))
  {
  }

  lemma TransmitKeepsLocalInv(s: State, a: TransmitAction)
    requires LocalInv(s) && TransmitEnabled(s, a)
    ensures LocalInv(TransmitNext(s, a))
  {
  }

  lemma StepKeepsLocalInv(s: State, a: Action)
    requires LocalInv(s) && Enabled(s, a)
    ensures LocalInv(Step(s, a))
  {
    match a
    case ServeStep(b) => ServeKeepsLocalInv(s, b);
    case ReceiveStep(b) => ReceiveKeepsLocalInv(s, b);
    case WriterStep(b) => WriterKeepsLocalInv(s, b);
    case StorageStep(b) => StorageKeepsLocalInv(s, b);
    case TransmitStep(b) => TransmitKeepsLocalInv(s, b);
    case _ =>
  }

  lemma StorageKeepsReplyInv(s: State, a: StorageAction)
    requires ReplyInv(s) && StorageEnabled(s, a)
    ensures ReplyInv(StorageNext(s, a))
  {
  }

  lemma StepKeepsReplyInv(s: State, a: Action)
    requires ReplyInv(s) && Enabled(s, a)
    ensures ReplyInv(Step(s, a))
  {
    match a
    case StorageStep(b) => StorageKeepsReplyInv(s, b);
    case TransmitStep(b) =>
      if b.TakeReply? {
        assert s.channels.reply == [s.channels.reply[0]] + s.channels.reply[1..];
      }
    case _ =>
  }

  lemma StepKeepsPartingInv(s: State, a: Action)
    requires PartingInv(s) && Enabled(s, a)
    ensures PartingInv(Step(s, a))
  {
    if a.TransmitStep? && a.transmit.WriteEmpty? {
      var ip, tx := a.transmit.ipAddr, s.transmit;
      assert tx.parted + tx.pc.unparted == (tx.parted + {ip}) + (tx.pc.unparted - {ip});
    }
  }

  lemma ReplyQueued(reply: seq<set<IpAddr>>, addrs: set<IpAddr>, ip: IpAddr)
    ensures InReply(reply + [addrs], ip) <==> InReply(reply, ip) || ip in addrs
  {
    assert forall i :: 0 <= i < |reply| ==> (reply + [addrs])[i] == reply[i];
    assert (reply + [addrs])[|reply|] == addrs;
  }

  lemma ReplyTaken(reply: seq<set<IpAddr>>, ip: IpAddr)
    requires reply != []
    ensures InReply(reply, ip) <==> InReply(reply[1..], ip) || ip in reply[0]
  {
    assert reply == [reply[0]] + reply[1..];
    assert forall i :: 0 < i < |reply| ==> reply[1..][i - 1] == reply[i];
  }

  lemma StepKeepsServed(s: State, a: Action, ip: IpAddr)
    requires PeerInv(s) && Enabled(s, a) && !Stopping(Step(s, a)) && ip in Step(s, a).table
    ensures Served(Step(s, a), ip)
  {
    assert ip in s.table ==> Served(s, ip);
    match a
    case ReceiveStep(SendReply) => ReplyQueued(s.channels.reply, {s.receive.addr}, ip);
    case StorageStep(SendScanReply) => ReplyQueued(s.channels.reply, s.storage.pc.scanAddrs, ip);
    case TransmitStep(TakeReply) => ReplyTaken(s.channels.reply, ip);
    case _ =>
  }

  lemma StepKeepsPeerInv(s: State, a: Action)
    requires PeerInv(s) && Enabled(s, a)
    ensures PeerInv(Step(s, a))
  {
    if !Stopping(Step(s, a)) {
      forall ip | ip in Step(s, a).table
        ensures Served(Step(s, a), ip)
      {
        StepKeepsServed(s, a, ip);
      }
    }
  }

  lemma {:induction false} BehaviorKeepsInv(run: seq<State>, i: nat)
    requires Behavior(run) && i < |run|
    ensures LocalInv(run[i]) && PeerInv(run[i]) && PartingInv(run[i]) && ReplyInv(run[i])
  {
    if i > 0 {
      BehaviorKeepsInv(run, i - 1);
      var a := Taken(run[i - 1], run[i]);
      StepKeepsLocalInv(run[i - 1], a);
      StepKeepsPeerInv(run[i - 1], a);
      StepKeepsPartingInv(run[i - 1], a);
      StepKeepsReplyInv(run[i - 1], a);
    }
  }

  /** Until shutdown every known peer has the current features or someone still owes them to it. */
  lemma NoPeerLeftBehind(run: seq<State>, i: nat, ip: IpAddr)
    requires Behavior(run) && i < |run| && !Stopping(run[i]) && ip in run[i].table
    ensures SentCurrent(run[i], ip) || TransmitToken(run[i]) || ReplyOwed(run[i], ip) || SendOwed(run[i], ip)
  {
    BehaviorKeepsInv(run, i);
  }

  /** A consumer that has not read the latest change is going to. */
  lemma NoLostWakeup(run: seq<State>, i: nat)
    requires Behavior(run) && i < |run|
    ensures run[i].writer.version == run[i].version || WriterOwesLocal(run[i])
    ensures run[i].writer.packets == run[i].packets || WriterOwesPackets(run[i])
    ensures run[i].storage.version == run[i].version || StorageOwes(run[i]) || StorageStopping(run[i])
    ensures run[i].transmit.version == run[i].version || TransmitOwes(run[i]) || Stopping(run[i])
  {
    BehaviorKeepsInv(run, i);
  }

  /** Once both goroutines are done and Serve returns, all peers known at shutdown were sent the empty node. */
  lemma ShutdownSaysFarewell(run: seq<State>, i: nat)
    requires Behavior(run) && i < |run|
    requires run[i].transmit.pc == TransmitDone && run[i].storage.pc == StorageDone
    ensures run[i].transmit.parting == run[i].transmit.parted && run[i].storage.storedEmpty
  {
    BehaviorKeepsInv(run, i);
  }

  // With no new changes, the tokens run out.

  /** Neither a change from outside nor a timer nor a shutdown. */
  predicate Internal(a: Action) {
    match a
    case SetNode => false
    case Cancel => false
    case ReceiveStep(b) => !b.Update?
    case StorageStep(b) => !b.StorageTimer? && !b.Load? && !b.StopStorage?
    case TransmitStep(b) => !b.TransmitTimer? && !b.StopTransmit?
    case _ => true
  }

  function Weight(full: bool, weight: nat): nat {
    if full then weight else 0
  }

  function TransmitWork(pc: TransmitPc, peers: nat): nat {
    match pc
    case Top(replyTo) => 3 + if replyTo == {} then peers else |replyTo|
    case Addressed(addrs) => 2 + |addrs|
    case Sending(_, unsent) => 1 + |unsent|
    case Selecting => 0
    case Parting(unparted) => 1 + |unparted|
    case TransmitDone => 0
  }

  function StorageWork(pc: StoragePc): nat {
    match pc
    case StorageWaiting => 0
    case Storing(scan) => if scan then 9 else 1
    case Loading(newAddrs) => 8 + |newAddrs|
    case ScanReplying(scanAddrs) => 7 + |scanAddrs|
    case Expiring => 1
    case StoringEmpty => 1
    case StorageDone => 0
  }

  function ReplyWork(reply: seq<set<IpAddr>>): nat {
    if reply == [] then 0 else 5 + |reply[0]| + ReplyWork(reply[1..])
  }

  function ReceiveWork(receive: Receive): nat {
    match receive
    case Reading => 0
    case Updated(newAddr) => if newAddr.Some? then 12 else 4
    case Replying(_) => 7
  }

  function WriterWork(pc: WriterPc): nat {
    match pc
    case WriterWaiting => 0
    case ReadingLocal => 2
    case ReadingRemotes => 1
  }

  /** What the tokens in the channels and Serve's flags will cause; a broadcast costs as much as there are peers. */
  function TokenWork(channels: Channels, serve: Serve, config: Config, peers: nat): nat {
    Weight(channels.notifyState, 3) + Weight(channels.notifyStorage, 2) + Weight(channels.notifyTransmit, 4 + peers) +
    Weight(serve.forwardState, 4) + Weight(serve.forwardStorage, 3) + Weight(serve.forwardTransmit, 5 + peers) +
    Weight(channels.notify, 13 + peers) + Weight(config == Notifying, 14 + peers)
  }

  function Work(s: State): nat {
    TransmitWork(s.transmit.pc, |s.table|) + StorageWork(s.storage.pc) + ReplyWork(s.channels.reply) +
    ReceiveWork(s.receive) + WriterWork(s.writer.pc) + TokenWork(s.channels, s.serve, s.config, |s.table|)
  }

  lemma {:induction false} ReplyWorkAppend(reply: seq<set<IpAddr>>, addrs: set<IpAddr>)
    ensures ReplyWork(reply + [addrs]) == ReplyWork(reply) + 5 + |addrs|
  {
    if reply != [] {
      assert (reply + [addrs])[1..] == reply[1..] + [addrs];
      ReplyWorkAppend(reply[1..], addrs);
    }
  }

  /** Fewer peers are no more work. */
  lemma FewerPeersLessWork(pc: TransmitPc, channels: Channels, serve: Serve, config: Config, fewer: nat, peers: nat)
    requires fewer <= peers
    ensures TransmitWork(pc, fewer) <= TransmitWork(pc, peers)
    ensures TokenWork(channels, serve, config, fewer) <= TokenWork(channels, serve, config, peers)
  {
  }

  lemma FewerRemain(table: set<IpAddr>, expired: set<IpAddr>)
    requires expired <= table
    ensures |table - expired| <= |table|
  {
    assert table == (table - expired) + expired;
  }

  lemma ExpiryRunsOut(s: State, expired: set<IpAddr>)
    requires StorageEnabled(s, Expire(expired))
    ensures Work(StorageNext(s, Expire(expired))) < Work(s)
  {
    FewerRemain(s.table, expired);
    FewerPeersLessWork(s.transmit.pc, s.channels, s.serve, s.config, |s.table - expired|, |s.table|);
    var t := StorageNext(s, Expire(expired));
    assert TokenWork(t.channels, t.serve, t.config, |t.table|) == TokenWork(s.channels, s.serve, s.config, |t.table|);
  }

  lemma StorageRunsOut(s: State, a: StorageAction)
    requires StorageEnabled(s, a) && Internal(StorageStep(a))
    ensures Work(StorageNext(s, a)) < Work(s)
  {
    match a
    case SendScanReply => ReplyWorkAppend(s.channels.reply, s.storage.pc.scanAddrs);
    case Expire(expired) => ExpiryRunsOut(s, expired);
    case _ =>
  }

  lemma ReceiveRunsOut(s: State, a: ReceiveAction)
    requires ReceiveEnabled(s, a) && Internal(ReceiveStep(a))
    ensures Work(ReceiveNext(s, a)) < Work(s)
  {
    if a == SendReply {
      ReplyWorkAppend(s.channels.reply, {s.receive.addr});
    }
  }

  /** A step of the goroutine by itself. */
  predicate Alone(a: TransmitAction) {
    !a.TakeReply? && !a.TakeNotifyTransmit? && !a.TransmitTimer? && !a.StopTransmit?
  }

  lemma AloneChangesTransmit(s: State, a: TransmitAction)
    requires TransmitEnabled(s, a) && Alone(a)
    ensures TransmitNext(s, a) == s.(transmit := TransmitNext(s, a).transmit)
  {
  }

  /** Choosing addresses, marshalling and writing leave it less to do. */
  lemma AloneRunsOut(s: State, a: TransmitAction)
    requires TransmitEnabled(s, a) && Alone(a)
    ensures TransmitWork(TransmitNext(s, a).transmit.pc, |s.table|) < TransmitWork(s.transmit.pc, |s.table|)
  {
  }

  lemma TakingRunsOut(s: State, a: TransmitAction)
    requires TransmitEnabled(s, a) && (a.TakeReply? || a.TakeNotifyTransmit?) && ReplyInv(s)
    ensures Work(TransmitNext(s, a)) < Work(s)
  {
  }

  lemma TransmitRunsOut(s: State, a: TransmitAction)
    requires TransmitEnabled(s, a) && Internal(TransmitStep(a)) && ReplyInv(s)
    ensures Work(TransmitNext(s, a)) < Work(s)
  {
    if a.TakeReply? || a.TakeNotifyTransmit? {
      TakingRunsOut(s, a);
    } else {
      AloneChangesTransmit(s, a);
      AloneRunsOut(s, a);
    }
  }

  lemma WriterRunsOut(s: State, a: WriterAction)
    requires WriterEnabled(s, a)
    ensures Work(WriterNext(s, a)) < Work(s)
  {
  }

  lemma ServeRunsOut(s: State, a: ServeAction)
    requires ServeEnabled(s, a)
    ensures Work(ServeNext(s, a)) < Work(s)
  {
  }

  /** Every internal step uses up some weight, so with no new changes they come to an end. */
  lemma TokensRunOut(run: seq<State>, i: nat, a: Action)
    requires Behavior(run) && i < |run| && Enabled(run[i], a) && Internal(a)
    ensures Work(Step(run[i], a)) < Work(run[i])
  {
    BehaviorKeepsInv(run, i);
    match a
    case StorageStep(b) => StorageRunsOut(run[i], b);
    case ReceiveStep(b) => ReceiveRunsOut(run[i], b);
    case TransmitStep(b) => TransmitRunsOut(run[i], b);
    case WriterStep(b) => WriterRunsOut(run[i], b);
    case ServeStep(b) => ServeRunsOut(run[i], b);
    case _ =>
  }

  /** No internal step is possible. */
  ghost predicate Quiescent(s: State) {
    forall a :: Internal(a) ==> !Enabled(s, a)
  }

  lemma QuiescentTransmit(s: State)
    requires Quiescent(s) && !Stopping(s)
    ensures s.transmit.pc == Selecting && s.channels.reply == [] && !s.channels.notifyTransmit
  {
    assert !Enabled(s, TransmitStep(ChooseAddrs)) && !Enabled(s, TransmitStep(Marshal));
    assert !Enabled(s, TransmitStep(Written));
    forall ip
      ensures s.transmit.pc.Sending? ==> ip !in s.transmit.pc.unsent
    {
      assert !Enabled(s, TransmitStep(Write(ip)));
    }
    assert !Enabled(s, TransmitStep(TakeReply)) && !Enabled(s, TransmitStep(TakeNotifyTransmit));
  }

  lemma QuiescentStorage(s: State)
    requires Quiescent(s) && s.channels.reply == []
    ensures s.storage.pc == StorageDone || (s.storage.pc == StorageWaiting && !s.channels.notifyStorage)
  {
    assert !Enabled(s, StorageStep(Put)) && !Enabled(s, StorageStep(LoadingDone));
    assert !Enabled(s, StorageStep(SendScanReply)) && !Enabled(s, StorageStep(Expire({})));
    assert !Enabled(s, StorageStep(PutEmpty)) && !Enabled(s, StorageStep(TakeNotifyStorage));
  }

  lemma QuiescentWriter(s: State)
    requires Quiescent(s) && s.channels.reply == []
    ensures s.receive == Reading && s.writer.pc == WriterWaiting && !s.channels.notifyState
  {
    assert !Enabled(s, ReceiveStep(NotifyState)) && !Enabled(s, ReceiveStep(SendReply));
    assert !Enabled(s, WriterStep(TakeNotifyState)) && !Enabled(s, WriterStep(GetLocalNode));
    assert !Enabled(s, WriterStep(GetRemoteNodes));
  }

  lemma QuiescentNotify(s: State)
    requires Quiescent(s) && s.serve.running && !s.channels.notifyState
    ensures !TokenForAll(s) && !s.serve.forwardState
  {
    assert !Enabled(s, Notify) && !Enabled(s, ServeStep(TakeNotify)) && !Enabled(s, ServeStep(ForwardState));
  }

  lemma QuiescentServe(s: State)
    requires Quiescent(s) && s.serve.running
    requires !s.channels.notifyState && !s.channels.notifyStorage && !s.channels.notifyTransmit
    ensures !TokenForAll(s) && s.serve == Serve(true, false, false, false)
  {
    assert !Enabled(s, Notify) && !Enabled(s, ServeStep(TakeNotify)) && !Enabled(s, ServeStep(ForwardState));
    assert !Enabled(s, ServeStep(ForwardStorage)) && !Enabled(s, ServeStep(ForwardTransmit));
  }

  /**
   When no internal step is left, every consumer has read the latest features, the state writer has
   read every packet, and every known peer has been sent the current features: nothing deadlocks.
  */
  lemma QuiescentIsUpToDate(run: seq<State>, i: nat)
    requires Behavior(run) && i < |run| && !Stopping(run[i]) && run[i].storage.pc != StorageDone
    requires Quiescent(run[i])
    ensures run[i].writer.version == run[i].storage.version == run[i].transmit.version == run[i].version
    ensures run[i].writer.packets == run[i].packets
    ensures forall ip :: ip in run[i].table ==> SentCurrent(run[i], ip)
  {
    BehaviorKeepsInv(run, i);
    QuiescentTransmit(run[i]);
    QuiescentStorage(run[i]);
    QuiescentWriter(run[i]);
    QuiescentServe(run[i]);
    forall ip | ip in run[i].table
      ensures SentCurrent(run[i], ip)
    {
      assert Served(run[i], ip);
    }
  }

  lemma Extend(run: seq<State>, a: Action)
    requires Behavior(run) && Enabled(run[|run| - 1], a)
    ensures Behavior(run + [Step(run[|run| - 1], a)])
  {
    assert Next(run[|run| - 1], Step(run[|run| - 1], a));
  }

  lemma TransmitOnce(before: seq<State>, ip: IpAddr) returns (run: seq<State>)
    requires Behavior(before)
    requires var s := before[|before| - 1]; s.table == {ip} && (s.transmit.pc == Top({}) || s.transmit.pc == Top({ip}))
    ensures Behavior(run)
    ensures var s := before[|before| - 1];
      run[|run| - 1] ==
        s.(transmit := s.transmit.(pc := Selecting, version := s.version, sent := s.transmit.sent[ip := s.version]))
  {
    run := before;
    Extend(run, TransmitStep(ChooseAddrs));
    run := run + [Step(run[|run| - 1], TransmitStep(ChooseAddrs))];
    Extend(run, TransmitStep(Marshal));
    run := run + [Step(run[|run| - 1], TransmitStep(Marshal))];
    Extend(run, TransmitStep(Write(ip)));
    run := run + [Step(run[|run| - 1], TransmitStep(Write(ip)))];
    Extend(run, TransmitStep(Written));
    run := run + [Step(run[|run| - 1], TransmitStep(Written))];
  }

  /** The scan at start-up finds a peer. */
  lemma StartUpScan(ip: IpAddr) returns (run: seq<State>)
    ensures Behavior(run)
    ensures run[|run| - 1] ==
      State(0, 0, 1, {ip}, false, Channels(false, false, false, false, [{ip}]), Scanned,
            Serve(true, false, false, false), Reading, Writer(WriterWaiting, 0, 0, 0),
            Storage(StorageWaiting, 0, false), Transmit(Top({}), 0, map[], {}, {}))
  {
    run := [State(0, 0, 0, {}, false, Channels(false, false, false, false, []), Scanned,
                  Serve(false, false, false, false), Reading, Writer(WriterWaiting, 0, 0, 0),
                  Storage(Storing(true), 0, false), Transmit(Top({}), 0, map[], {}, {}))];
    Extend(run, StorageStep(Put));
    run := run + [Step(run[|run| - 1], StorageStep(Put))];
    Extend(run, StorageStep(Load(ip)));
    run := run + [Step(run[|run| - 1], StorageStep(Load(ip)))];
    assert run[2].table == run[2].storage.pc.newAddrs == {ip};
    Extend(run, StorageStep(LoadingDone));
    run := run + [Step(run[|run| - 1], StorageStep(LoadingDone))];
    Extend(run, StorageStep(SendScanReply));
    run := run + [Step(run[|run| - 1], StorageStep(SendScanReply))];
    Extend(run, StorageStep(Expire({})));
    run := run + [Step(run[|run| - 1], StorageStep(Expire({})))];
    assert run[5].table == {ip};
  }

  // What the storage timer is for.

  /** The run takes that step to its k-th state. */
  ghost predicate At(run: seq<State>, k: nat, a: Action) {
    0 < k < |run| && Enabled(run[k - 1], a) && run[k] == Step(run[k - 1], a)
  }

  /** On the way from the timer to the expiry that ends a scan. */
  predicate Scanning(pc: StoragePc) {
    pc == Storing(true) || pc.Loading? || pc.ScanReplying? || pc == Expiring
  }

  lemma ScanningUntilExpiry(s: State, a: Action)
    requires Enabled(s, a) && Scanning(s.storage.pc) && !(a.StorageStep? && a.storage.Expire?)
    ensures Scanning(Step(s, a).storage.pc)
  {
  }

  lemma {:induction false} ScanningOrExpired(run: seq<State>, i: nat, k: nat)
    requires Behavior(run) && i <= k < |run| && Scanning(run[i].storage.pc)
    ensures Scanning(run[k].storage.pc) || exists j, expired :: i < j <= k && At(run, j, StorageStep(Expire(expired)))
    decreases k
  {
    if i < k {
      ScanningOrExpired(run, i, k - 1);
      if Scanning(run[k - 1].storage.pc) {
        var a := Taken(run[k - 1], run[k]);
        if a.StorageStep? && a.storage.Expire? {
          assert At(run, k, StorageStep(Expire(a.storage.expired)));
        } else {
          ScanningUntilExpiry(run[k - 1], a);
        }
      }
    }
  }

  /** Whenever the storage timer has fired, a scan comes to its expiry before storage waits again or is done. */
  lemma TimerScans(run: seq<State>, i: nat, k: nat)
    requires Behavior(run) && At(run, i, StorageStep(StorageTimer)) && i <= k < |run|
    requires run[k].storage.pc == StorageWaiting || run[k].storage.pc == StorageDone
    ensures exists j, expired :: i < j <= k && At(run, j, StorageStep(Expire(expired)))
  {
    ScanningOrExpired(run, i, k);
  }

  /** Each load counts as a change by a scan, so between equal counts there is none. */
  lemma NoLoadBetween(run: seq<State>, i: nat, j: nat, k: nat, ip: IpAddr)
    requires Behavior(run) && i < k <= j < |run| && run[i].scans == run[j].scans
    ensures !At(run, k, StorageStep(Load(ip)))
  {
    ScansGrow(run, i, k - 1);
    ScansGrow(run, k - 1, k);
    ScansGrow(run, k, j);
  }

  lemma ScansGrow(run: seq<State>, i: nat, j: nat)
    requires Behavior(run) && i <= j < |run|
    ensures run[i].scans <= run[j].scans
  {
    ToldIffRead(run, j);
  }

  // Who tells the state writer of table changes made by scans.

  /** The writer is going to read the table, whatever for. */
  predicate WriterOwes(s: State) {
    WriterOwesLocal(s) || WriterOwesPackets(s)
  }

  lemma ScansOnlyGrow(s: State, a: Action)
    requires Enabled(s, a)
    ensures s.scans <= Step(s, a).scans
    ensures s.scans < Step(s, a).scans ==> Step(s, a).writer == s.writer
  {
  }

  /** What the writer owes it still owes, or has read. */
  lemma OwedIsRead(s: State, a: Action)
    requires Enabled(s, a) && Step(s, a).scans == s.scans && (WriterOwes(s) || s.writer.scans == s.scans)
    ensures WriterOwes(Step(s, a)) || Step(s, a).writer.scans == Step(s, a).scans
  {
  }

  /** A writer that is behind and owes nothing stays behind. */
  lemma BehindStaysBehind(s: State, a: Action)
    requires Enabled(s, a) && !WriterOwes(s) && s.writer.scans < s.scans
    ensures Step(s, a).writer.scans < Step(s, a).scans
  {
  }

  /** Since the last change of the table by a scan there was something that made the writer read it. */
  ghost predicate ScanTold(run: seq<State>, i: nat)
    requires i < |run|
  {
    exists j :: 0 <= j <= i && run[j].scans == run[i].scans && WriterOwes(run[j])
  }

  /** What has been told is owed or read; what has not been told stays unread. */
  ghost predicate ToldInv(run: seq<State>, i: nat)
    requires i < |run|
  {
    (run[0].scans == run[i].scans || ScanTold(run, i) ==> WriterOwes(run[i]) || run[i].writer.scans == run[i].scans) &&
    (run[0].scans != run[i].scans && !ScanTold(run, i) ==> run[i].writer.scans < run[i].scans)
  }

  lemma ToldAfter(run: seq<State>, i: nat, a: Action)
    requires 0 < i < |run| && ToldInv(run, i - 1) && run[i].scans == run[i - 1].scans
    requires Enabled(run[i - 1], a) && run[i] == Step(run[i - 1], a)
    ensures ToldInv(run, i)
  {
    ToldBefore(run, i);
    if run[0].scans == run[i].scans || ScanTold(run, i - 1) {
      OwedIsRead(run[i - 1], a);
    } else {
      assert !WriterOwes(run[i - 1]);
      BehindStaysBehind(run[i - 1], a);
    }
  }

  lemma {:induction false} ToldIffRead(run: seq<State>, i: nat)
    requires Behavior(run) && i < |run|
    ensures ToldInv(run, i) && forall j :: 0 <= j <= i ==> run[j].scans <= run[i].scans
  {
    if i > 0 {
      BehaviorKeepsInv(run, i - 1);
      ToldIffRead(run, i - 1);
      var a := Taken(run[i - 1], run[i]);
      ScansOnlyGrow(run[i - 1], a);
      if run[i].scans == run[i - 1].scans {
        ToldAfter(run, i, a);
      }
    }
  }

  lemma ToldBefore(run: seq<State>, i: nat)
    requires 0 < i < |run| && run[i].scans == run[i - 1].scans
    ensures ScanTold(run, i) <==> ScanTold(run, i - 1) || WriterOwes(run[i])
  {
    if ScanTold(run, i - 1) {
      var j :| 0 <= j <= i - 1 && run[j].scans == run[i - 1].scans && WriterOwes(run[j]);
      assert run[j].scans == run[i].scans;
    }
  }

  /**
   Scans announce their changes to no one. So at rest the writer has seen them all exactly when no scan ever
   changed the table, or since the last time one did a change of features or a packet had the writer read it.
  */
  lemma ScanSeenIffTold(run: seq<State>, i: nat)
    requires Behavior(run) && i < |run| && !Stopping(run[i]) && Quiescent(run[i])
    ensures run[i].writer.scans == run[i].scans <==> run[i].scans == run[0].scans || ScanTold(run, i)
  {
    BehaviorKeepsInv(run, i);
    ToldIffRead(run, i);
    QuiescentTransmit(run[i]);
    QuiescentStorage(run[i]);
    QuiescentWriter(run[i]);
    QuiescentNotify(run[i]);
  }

  /** A table change made by a scan that the state writer stays behind. */
  lemma ScanIsNotAnnounced(ip: IpAddr) returns (run: seq<State>)
    ensures Behavior(run) && Quiescent(run[|run| - 1])
    ensures run[|run| - 1].table == {ip} && run[|run| - 1].writer.scans != run[|run| - 1].scans
  {
    run := StartUpScan(ip);
    run := TransmitOnce(run, ip);
    Extend(run, TransmitStep(TakeReply));
    run := run + [Step(run[|run| - 1], TransmitStep(TakeReply))];
    run := TransmitOnce(run, ip);
  }
}
