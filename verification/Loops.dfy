/**
 The goroutines as they are written: the forwarding loop of Serve (service/main.go), transmitLoop and
 receiveLoop (service/io.go), storageLoop (service/storage.go) and stateLoop (service/state.go). Each
 works on the channels, the table and the network among arbitrary steps of the others, and stays in step
 with the protocol: what it does is a behavior of Fanout.
*/
module Loops {
  import opened Base
  import opened Fanout

  datatype Goroutine = Server | Transmitter | Receiver | Storer | StateWriter

  predicate By(who: Goroutine, a: Action) {
    match who
    case Server => a.ServeStep?
    case Transmitter => a.TransmitStep?
    case Receiver => a.ReceiveStep?
    case Storer => a.StorageStep?
    case StateWriter => a.WriterStep?
  }

  function Elements<T(==)>(slice: seq<T>): set<T> {
    set x | x in slice
  }

  ghost predicate Distinct<T>(slice: seq<T>) {
    forall i, j :: 0 <= i < j < |slice| ==> slice[i] != slice[j]
  }

  /** What ended a wait of the storage or the transmit goroutine; only the latter gets replies. */
  datatype Woken = ByReply | ByNotification | ByTimer | ByCancellation

  /** Changes are only added to. */
  ghost predicate Later(s: State, t: State) {
    s.version <= t.version && s.packets <= t.packets && s.scans <= t.scans
  }

  /** What no goroutine but its owner changes, and what stays once it is so. */
  ghost predicate Undisturbed(who: Goroutine, s: State, t: State) {
    (who == Server ==> t.serve == s.serve.(running := t.serve.running) && (s.serve.running ==> t.serve.running)) &&
    (who == Transmitter ==> t.transmit == s.transmit) &&
    (who == Receiver ==> t.receive == s.receive && t.packets == s.packets) &&
    (who == Storer ==> t.storage == s.storage && t.scans == s.scans) &&
    (who == StateWriter ==> t.writer == s.writer) &&
    Later(s, t) &&
    (s.storage.pc == StorageDone ==> t.storage == s.storage) &&
    (s.transmit.pc == TransmitDone ==> t.transmit == s.transmit)
  }

  lemma OthersDoNotDisturb(who: Goroutine, s: State, a: Action)
    requires Enabled(s, a) && !By(who, a)
    ensures Undisturbed(who, s, Step(s, a))
  {
  }

  lemma ServingDisturbsNoOne(s: State, a: ServeAction)
    requires ServeEnabled(s, a)
    ensures ServeNext(s, a).storage == s.storage && ServeNext(s, a).transmit == s.transmit && ServeNext(s, a) != s
  {
  }

  /** The step puts a reply that names these addresses behind those in the channel. */
  ghost predicate Replied(run: seq<State>, k: nat, a: Action, addrs: set<IpAddr>) {
    At(run, k, a) && run[k].channels.reply == run[k - 1].channels.reply + [addrs]
  }

  lemma StillAt(run: seq<State>, longer: seq<State>, k: nat, a: Action)
    requires run <= longer
    ensures At(run, k, a) ==> At(longer, k, a)
  {
    if 0 < k < |run| {
      assert longer[k] == run[k] && longer[k - 1] == run[k - 1];
    }
  }

  /** The last step is a scan's expiry, and takes what expired out of the table. */
  ghost predicate ExpiredLast(run: seq<State>) {
    |run| > 1 && exists expired ::
      At(run, |run| - 1, StorageStep(Expire(expired))) && run[|run| - 1].table == run[|run| - 2].table - expired
  }

  ghost predicate LoadedLast(run: seq<State>, ip: IpAddr) {
    exists k: nat :: k + 1 == |run| && At(run, k, StorageStep(Load(ip)))
  }

  /** The first addresses have had a load of their own each, in this order, after the run had that length. */
  ghost predicate Loads(run: seq<State>, at: seq<nat>, loaded: seq<IpAddr>, from: nat) {
    |at| <= |loaded| &&
    (forall i :: 0 <= i < |at| ==>
      from <= at[i] && At(run, at[i], StorageStep(Load(loaded[i]))) && loaded[i] in run[at[i]].table) &&
    forall i, j :: 0 <= i < j < |at| ==> at[i] < at[j]
  }

  lemma StillLoads(run: seq<State>, longer: seq<State>, at: seq<nat>, loaded: seq<IpAddr>, from: nat)
    requires Loads(run, at, loaded, from) && run <= longer
    ensures Loads(longer, at, loaded, from)
  {
    forall i | 0 <= i < |at|
      ensures At(longer, at[i], StorageStep(Load(loaded[i])))
    {
      StillAt(run, longer, at[i], StorageStep(Load(loaded[i])));
    }
  }

  lemma LoadsFurther(run: seq<State>, longer: seq<State>, at: seq<nat>, loaded: seq<IpAddr>, ip: IpAddr, from: nat)
    requires Loads(run, at, loaded, from) && |at| < |loaded| && ip == loaded[|at|]
    requires run <= longer && from <= |run| < |longer| && LoadedLast(longer, ip)
    ensures Loads(longer, at + [|longer| - 1], loaded, from)
  {
    assert forall i :: 0 <= i < |at| ==> at[i] < |run|;
    StillLoads(run, longer, at, loaded, from);
  }

  /** Each token was taken in a step of its own. */
  ghost predicate Tokens(run: seq<State>, taken: seq<nat>) {
    (forall i :: 0 <= i < |taken| ==> At(run, taken[i], WriterStep(TakeNotifyState))) &&
    forall i, j :: 0 <= i < j < |taken| ==> taken[i] < taken[j]
  }

  lemma StillTokens(run: seq<State>, longer: seq<State>, taken: seq<nat>)
    requires Tokens(run, taken) && run <= longer
    ensures Tokens(longer, taken)
  {
    forall i | 0 <= i < |taken|
      ensures At(longer, taken[i], WriterStep(TakeNotifyState))
    {
      StillAt(run, longer, taken[i], WriterStep(TakeNotifyState));
    }
  }

  lemma TokensFurther(run: seq<State>, longer: seq<State>, taken: seq<nat>, k: nat)
    requires Tokens(run, taken) && run <= longer && |run| <= k && At(longer, k, WriterStep(TakeNotifyState))
    ensures Tokens(longer, taken + [k])
  {
    assert forall i :: 0 <= i < |taken| ==> taken[i] < |run|;
    StillTokens(run, longer, taken);
  }

  lemma StillReplied(run: seq<State>, longer: seq<State>, k: nat, a: Action, addrs: set<IpAddr>)
    requires Replied(run, k, a, addrs) && run <= longer
    ensures Replied(longer, k, a, addrs)
  {
    StillAt(run, longer, k, a);
  }

  /** A slice of the addresses, in some order and some of them repeated. */
  method Slice(addrs: set<IpAddr>) returns (slice: seq<IpAddr>)
    ensures Elements(slice) == addrs
  {
    slice := [];
    var unseen := addrs;
    while unseen != {}
      invariant unseen <= addrs
      invariant forall addr :: addr in slice <==> addr in addrs && addr !in unseen
      decreases unseen
    {
      var addr :| addr in unseen;
      var repeated: bool := *;
      slice, unseen := slice + if repeated then [addr, addr] else [addr], unseen - {addr};
    }
  }

  /** The elements of a slice, each once; the source's are pointers, and two to one address are not the same. */
  method Deduplicate<T(==)>(addrs: seq<T>) returns (replyTo: seq<T>)
    ensures Elements(replyTo) == Elements(addrs) && Distinct(replyTo)
  {
    replyTo := [];
    var i := 0;
    while i < |addrs|
      invariant 0 <= i <= |addrs|
      invariant forall addr :: addr in replyTo <==> addr in addrs[..i]
      invariant Distinct(replyTo)
    {
      var found, j := false, 0;
      while j < |replyTo| && !found
        invariant 0 <= j <= |replyTo|
        invariant found <==> addrs[i] in replyTo[..j]
      {
        found := replyTo[j] == addrs[i];
        j := j + 1;
      }
      assert found <==> addrs[i] in replyTo;
      if !found {
        replyTo := replyTo + [addrs[i]];
      }
      i := i + 1;
    }
  }

  function Sent(before: map<IpAddr, nat>, addrs: set<IpAddr>, version: nat): map<IpAddr, nat> {
    before + map addr | addr in addrs :: version
  }

  /** All of them were sent that version or a later one. */
  ghost predicate SentSince(sent: map<IpAddr, nat>, addrs: set<IpAddr>, version: nat) {
    forall addr :: addr in addrs ==> addr in sent && version <= sent[addr]
  }

  lemma SentFurther(before: map<IpAddr, nat>, addrs: set<IpAddr>, version: nat, addr: IpAddr)
    ensures Sent(before, addrs, version)[addr := version] == Sent(before, addrs + {addr}, version)
  {
  }

  /**
   The goroutines share the channels, the table, the number of the local node and the network, which knows the
   version last sent to each address. The next five fields are Serve's: what it forwards, and which of the others
   it has seen done. `state` and `run` are the protocol's.
  */
  class Service {
    var channels: Channels
    var table: set<IpAddr>
    var version: nat
    var sent: map<IpAddr, nat>
    var forwardState: bool
    var forwardStorage: bool
    var forwardTransmit: bool
    var doneStorage: bool
    var doneTransmit: bool
    var state: State
    ghost var run: seq<State>

    ghost predicate Logged()
      reads this
    {
      Behavior(run) && run[|run| - 1] == state
    }

    ghost predicate Valid()
      reads this
    {
      Logged() && channels == state.channels && table == state.table && version == state.version &&
      sent == state.transmit.sent
    }

    ghost predicate Serving()
      reads this
    {
      state.serve == Fanout.Serve(true, forwardState, forwardStorage, forwardTransmit) &&
      (doneStorage ==> state.storage.pc == StorageDone) && (doneTransmit ==> state.transmit.pc == TransmitDone)
    }

    /** One step of the protocol, which the code has just made or is about to make. */
    method Log(a: Action)
      requires Logged() && Enabled(state, a)
      modifies `state, `run
      ensures Logged() && state == Step(old(state), a) && run == old(run) + [state]
      ensures At(run, |old(run)|, a)
    {
      Extend(run, a);
      state := Step(state, a);
      run := run + [state];
    }

    /** The other goroutines may take any steps here. */
    method Others(who: Goroutine)
      requires Valid()
      modifies `channels, `table, `version, `sent, `state, `run
      ensures Valid() && old(run) <= run && Undisturbed(who, old(state), state)
    {
      var n: nat := *;
      while n > 0
        invariant Logged() && old(run) <= run && Undisturbed(who, old(state), state)
      {
        var a: Action := *;
        if Enabled(state, a) && !By(who, a) {
          OthersDoNotDisturb(who, state, a);
          Log(a);
        }
        n := n - 1;
      }
      channels, table, version, sent := state.channels, state.table, state.version, state.transmit.sent;
    }

    // Serve.

    /** Takes one of the cases that are ready; only when none is ready does it block. */
    method SelectCase() returns (blocked: bool)
      requires Valid() && Serving()
      modifies this
      ensures Valid() && Serving() && old(run) <= run
      ensures state == old(state) || exists a :: ServeEnabled(old(state), a) && state == ServeNext(old(state), a)
      ensures blocked <==> state == old(state) && doneStorage == old(doneStorage) && doneTransmit == old(doneTransmit)
      ensures blocked ==> forall a :: !ServeEnabled(state, a)
      ensures blocked ==> (state.storage.pc == StorageDone ==> doneStorage)
      ensures blocked ==> (state.transmit.pc == TransmitDone ==> doneTransmit)
    {
      blocked := false;
      if
      case channels.notify =>
        channels := channels.(notify := false);
        LogServe(TakeNotify);
        forwardState, forwardStorage, forwardTransmit := true, true, true;
      case forwardState && !channels.notifyState =>
        channels := channels.(notifyState := true);
        LogServe(ForwardState);
        forwardState := false;
      case forwardStorage && !channels.notifyStorage =>
        channels := channels.(notifyStorage := true);
        LogServe(ForwardStorage);
        forwardStorage := false;
      case forwardTransmit && !channels.notifyTransmit =>
        channels := channels.(notifyTransmit := true);
        LogServe(ForwardTransmit);
        forwardTransmit := false;
      case !doneStorage && state.storage.pc == StorageDone => doneStorage := true;
      case !doneTransmit && state.transmit.pc == TransmitDone => doneTransmit := true;
      case !channels.notify && (forwardState ==> channels.notifyState) && (forwardStorage ==> channels.notifyStorage) &&
           (forwardTransmit ==> channels.notifyTransmit) && (state.storage.pc == StorageDone ==> doneStorage) &&
           (state.transmit.pc == TransmitDone ==> doneTransmit) => blocked := true;
    }

    method LogServe(a: ServeAction)
      requires Logged() && ServeEnabled(state, a)
      modifies `state, `run
      ensures Logged() && state == ServeNext(old(state), a) && run == old(run) + [state]
      ensures state.storage == old(state.storage) && state.transmit == old(state.transmit) && state != old(state)
    {
      ServingDisturbsNoOne(state, a);
      Log(ServeStep(a));
    }

    /** For as many laps as it is given; it returns when storage and transmitter are done, after their farewells. */
    method Serve(laps: nat) returns (returned: bool)
      requires Valid() && state.serve == Fanout.Serve(true, false, false, false)
      modifies this
      ensures Valid() && old(run) <= run
      ensures returned ==> state.storage.pc == StorageDone && state.storage.storedEmpty
      ensures returned ==> state.transmit.pc == TransmitDone && state.transmit.parted == state.transmit.parting
    {
      forwardState, forwardStorage, forwardTransmit, doneStorage, doneTransmit := false, false, false, false, false;
      var lap := 0;
      while (!doneStorage || !doneTransmit) && lap < laps
        invariant Valid() && Serving() && old(run) <= run
        decreases laps - lap
      {
        Others(Server);
        var _ := SelectCase();
        lap := lap + 1;
      }
      returned := doneStorage && doneTransmit;
      BehaviorKeepsInv(run, |run| - 1);
    }

    // transmitLoop.

    method LogTransmit(a: TransmitAction)
      requires Logged() && TransmitEnabled(state, a)
      modifies `state, `run
      ensures Logged() && state == TransmitNext(old(state), a) && run == old(run) + [state]
    {
      Log(TransmitStep(a));
    }

    /** One datagram with the marshalled version, at any time after the last. */
    method WriteToUdp(data: nat, addr: IpAddr)
      requires Valid() && state.transmit.pc.Sending? && data == state.transmit.pc.version
      requires addr in state.transmit.pc.unsent
      modifies this
      ensures Valid() && old(run) <= run && old(state.version) <= state.version
      ensures state.transmit == TransmitNext(old(state), Write(addr)).transmit
    {
      Others(Transmitter);
      sent := sent[addr := data];
      LogTransmit(Write(addr));
    }

    /** Marshals once and writes to each address in some order. */
    method Transmit(addrs: seq<IpAddr>) returns (data: nat)
      requires Valid() && state.transmit.pc == Addressed(Elements(addrs))
      modifies this
      ensures Valid() && old(run) <= run && old(state.version) <= data <= state.version
      ensures state.transmit ==
        old(state.transmit).(pc := Selecting, version := data, sent := Sent(old(sent), Elements(addrs), data))
    {
      Others(Transmitter);
      data := version;
      LogTransmit(Marshal);
      var unsent := Elements(addrs);
      ghost var before := state.transmit;
      while unsent != {}
        invariant Valid() && old(run) <= run && unsent <= Elements(addrs) && data <= state.version
        invariant state.transmit ==
          before.(pc := Sending(data, unsent), sent := Sent(before.sent, Elements(addrs) - unsent, data))
        decreases unsent
      {
        var addr :| addr in unsent;
        SentFurther(before.sent, Elements(addrs) - unsent, data, addr);
        assert Elements(addrs) - unsent + {addr} == Elements(addrs) - (unsent - {addr});
        WriteToUdp(data, addr);
        unsent := unsent - {addr};
      }
      assert Elements(addrs) - unsent == Elements(addrs);
      LogTransmit(Written);
    }

    /** The deferred farewell: the empty node to every peer known by then. */
    method Part()
      requires Valid() && state.transmit.pc == Selecting && state.cancelled
      modifies this
      ensures Valid() && |old(run)| < |run| && old(run) <= run && old(state.version) <= state.version
      ensures state.transmit.pc == TransmitDone && state.transmit.sent == old(state.transmit.sent)
      ensures state.transmit.parting == old(table) == state.transmit.parted
    {
      var unsent := table;
      LogTransmit(StopTransmit);
      while unsent != {}
        invariant Valid() && |old(run)| < |run| && old(run) <= run && old(state.version) <= state.version
        invariant state.transmit.pc == Parting(unsent)
        invariant state.transmit.parting == old(table) && state.transmit.sent == old(state.transmit.sent)
        decreases unsent
      {
        Others(Transmitter);
        var addr :| addr in unsent;
        LogTransmit(WriteEmpty(addr));
        unsent := unsent - {addr};
      }
      LogTransmit(CloseTransmit);
      BehaviorKeepsInv(run, |run| - 1);
    }

    /** No addresses to reply to means all of them. */
    method TakeAddrs(replyTo: seq<IpAddr>) returns (addrs: seq<IpAddr>)
      requires Valid() && state.transmit.pc == Top(Elements(replyTo))
      modifies this
      ensures Valid() && old(run) <= run && old(state.version) <= state.version
      ensures state.transmit == old(state.transmit).(pc := Addressed(Elements(addrs)))
      ensures Elements(addrs) == if replyTo == [] then table else Elements(replyTo)
    {
      Others(Transmitter);
      addrs := replyTo;
      assert addrs != [] ==> addrs[0] in Elements(addrs);
      if addrs == [] {
        addrs := Slice(table);
      }
      LogTransmit(ChooseAddrs);
    }

    /**
     Waits for a reply, a notification, the timer or the end. Only a reply is followed by a round to its addresses alone:
     notification and timer are followed by a broadcast.
    */
    method Select() returns (replyTo: seq<IpAddr>, woken: Woken)
      requires Valid() && state.transmit.pc == Selecting
      modifies this
      ensures Valid() && |old(run)| < |run| && old(run) <= run && Distinct(replyTo) && old(state.version) <= state.version
      ensures state.transmit.sent == old(state.transmit.sent)
      ensures if woken == ByCancellation then state.transmit.pc == TransmitDone
              else state.transmit.pc == Top(Elements(replyTo))
      ensures woken == ByCancellation ==> state.transmit.parted == state.transmit.parting
      ensures woken == ByReply ==>
        var before := run[|run| - 2].channels.reply;
        before != [] && Elements(replyTo) == before[0] && state.channels.reply == before[1..]
      ensures woken == ByNotification ==>
        replyTo == [] && run[|run| - 2].channels.notifyTransmit && !state.channels.notifyTransmit
      ensures woken == ByTimer ==> replyTo == []
    {
      Others(Transmitter);
      replyTo := [];
      if
      case channels.reply != [] =>
        replyTo := TakeReplyTo();
        woken := ByReply;
      case channels.notifyTransmit =>
        channels := channels.(notifyTransmit := false);
        LogTransmit(TakeNotifyTransmit);
        woken := ByNotification;
      case true =>
        LogTransmit(TransmitTimer);
        woken := ByTimer;
      case state.cancelled =>
        Part();
        woken := ByCancellation;
    }

    method TakeReplyTo() returns (replyTo: seq<IpAddr>)
      requires Valid() && state.transmit.pc == Selecting && channels.reply != []
      modifies this
      ensures Valid() && run == old(run) + [state] && state.version == old(state.version)
      ensures Distinct(replyTo) && Elements(replyTo) == old(channels.reply)[0]
      ensures channels.reply == old(channels.reply)[1..]
      ensures state.transmit == old(state.transmit).(pc := Top(Elements(replyTo)))
    {
      var addrs := Slice(channels.reply[0]);
      channels := channels.(reply := channels.reply[1..]);
      LogTransmit(TakeReply);
      replyTo := Deduplicate(addrs);
    }

    /** Its first round is a broadcast to all the peers known when it starts; no later round takes that back. */
    method TransmitLoop(laps: nat) returns (ghost known: set<IpAddr>)
      requires Valid() && state.transmit.pc == Top({})
      modifies this
      ensures Valid() && old(run) <= run
      ensures state.transmit.pc.Top? ||
        (state.transmit.pc == TransmitDone && state.transmit.parted == state.transmit.parting)
      ensures laps > 0 ==> exists i :: |old(run)| <= i < |run| && run[i].table == known
      ensures laps > 0 ==> SentSince(sent, known, old(version))
    {
      var replyTo: seq<IpAddr> := [];
      var lap := 0;
      ghost var start := 0;
      known := {};
      while lap < laps
        invariant Valid() && old(run) <= run && old(state.version) <= state.version
        invariant Distinct(replyTo) && state.transmit.pc == Top(Elements(replyTo)) && (lap == 0 ==> replyTo == [])
        invariant lap > 0 ==> |old(run)| <= start < |run| && run[start].table == known
        invariant lap > 0 ==> SentSince(sent, known, old(version))
      {
        var addrs := TakeAddrs(replyTo);
        if lap == 0 {
          start, known := |run| - 1, table;
        }
        var _ := Transmit(addrs);
        assert SentSince(sent, known, old(version));
        var woken;
        replyTo, woken := Select();
        if woken == ByCancellation {
          return;
        }
        lap := lap + 1;
      }
    }

    // receiveLoop.

    /**
     One accepted packet: the update, the notification, and for a new peer a reply that names it, which waits for room.
     `notified` and `replied` are where in the run these happen.
    */
    method ReceivePacket(ip: IpAddr, patience: nat) returns (blocked: bool, ghost notified: nat, ghost replied: nat)
      requires Valid() && state.receive == Reading
      modifies this
      ensures Valid() && old(run) <= run && state.packets == old(state.packets) + 1
      ensures At(run, |old(run)|, ReceiveStep(Update(ip)))
      ensures |old(run)| < notified && At(run, notified, ReceiveStep(NotifyState))
      ensures blocked ==> ip !in old(table) && state.receive == Replying(ip)
      ensures !blocked ==> state.receive == Reading
      ensures !blocked && ip !in old(table) ==> notified < replied && Replied(run, replied, ReceiveStep(SendReply), {ip})
    {
      var newAddr;
      newAddr, notified := UpdateAndNotify(ip);
      ghost var before := run;
      replied, blocked := 0, false;
      if newAddr.Some? {
        blocked, replied := SendNewAddr(ip, patience, notified);
        StillAt(before, run, |old(run)|, ReceiveStep(Update(ip)));
      }
    }

    method UpdateAndNotify(ip: IpAddr) returns (newAddr: Option<IpAddr>, ghost notified: nat)
      requires Valid() && state.receive == Reading
      modifies this
      ensures Valid() && old(run) <= run && state.packets == old(state.packets) + 1
      ensures newAddr == if ip in old(table) then None else Some(ip)
      ensures state.receive == if newAddr.Some? then Replying(ip) else Reading
      ensures At(run, |old(run)|, ReceiveStep(Update(ip)))
      ensures |old(run)| < notified && At(run, notified, ReceiveStep(NotifyState))
    {
      newAddr := if ip in table then None else Some(ip);
      table := table + {ip};
      Log(ReceiveStep(Update(ip)));
      ghost var updated := run;
      Others(Receiver);
      channels := channels.(notifyState := true);
      notified := |run|;
      Log(ReceiveStep(NotifyState));
      StillAt(updated, run, |old(run)|, ReceiveStep(Update(ip)));
    }

    method SendNewAddr(ip: IpAddr, patience: nat, ghost notified: nat) returns (blocked: bool, ghost replied: nat)
      requires Valid() && state.receive == Replying(ip) && At(run, notified, ReceiveStep(NotifyState))
      modifies this
      ensures Valid() && old(run) <= run && state.packets == old(state.packets)
      ensures At(run, notified, ReceiveStep(NotifyState)) && state.receive == if blocked then Replying(ip) else Reading
      ensures !blocked ==> notified < replied && Replied(run, replied, ReceiveStep(SendReply), {ip})
    {
      var waited := 0;
      while |channels.reply| >= REPLY_CAPACITY && waited < patience
        invariant Valid() && old(run) <= run && state.receive == Replying(ip) && state.packets == old(state.packets)
        decreases patience - waited
      {
        Others(Receiver);
        waited := waited + 1;
      }
      blocked, replied := |channels.reply| >= REPLY_CAPACITY, |run|;
      if !blocked {
        channels := channels.(reply := channels.reply + [{ip}]);
        Log(ReceiveStep(SendReply));
      }
      StillAt(old(run), run, notified, ReceiveStep(NotifyState));
    }

    /** Every packet up to the one it is blocked on has changed the table. */
    method ReceiveLoop(origins: seq<IpAddr>, patience: nat) returns (received: nat)
      requires Valid() && state.receive == Reading
      modifies this
      ensures Valid() && old(run) <= run && received <= |origins|
      ensures state.packets == old(state.packets) + received
      ensures received < |origins| ==> received > 0 && state.receive == Replying(origins[received - 1])
    {
      received := 0;
      while received < |origins|
        invariant Valid() && old(run) <= run && state.receive == Reading && received <= |origins|
        invariant state.packets == old(state.packets) + received
      {
        Others(Receiver);
        var blocked, _, _ := ReceivePacket(origins[received], patience);
        received := received + 1;
        if blocked {
          return;
        }
      }
    }

    // storageLoop.

    method LogStorage(a: StorageAction)
      requires Logged() && StorageEnabled(state, a)
      modifies `state, `run
      ensures Logged() && state == StorageNext(old(state), a) && run == old(run) + [state]
      ensures At(run, |old(run)|, StorageStep(a)) && Later(old(state), state)
    {
      Log(StorageStep(a));
    }

    /** The new addresses are those loaded that were not in the table. `at` are where in the run the loads are. */
    method LoadAll(loaded: seq<IpAddr>) returns (newAddrs: seq<IpAddr>, ghost at: seq<nat>)
      requires Valid() && state.storage.pc == Loading({})
      modifies this
      ensures Valid() && old(run) <= run && Later(old(state), state)
      ensures state.storage == old(state.storage).(pc := Loading(Elements(newAddrs)))
      ensures old(state.scans) + |loaded| <= state.scans && forall ip :: ip in newAddrs ==> ip in loaded
      ensures |at| == |loaded| && Loads(run, at, loaded, |old(run)|)
    {
      newAddrs, at := [], [];
      var i := 0;
      while i < |loaded|
        invariant 0 <= i <= |loaded| && Valid() && old(run) <= run && Later(old(state), state)
        invariant state.storage == old(state.storage).(pc := Loading(Elements(newAddrs)))
        invariant old(state.scans) + i <= state.scans && forall ip :: ip in newAddrs ==> ip in loaded
        invariant |at| == i && Loads(run, at, loaded, |old(run)|)
      {
        newAddrs, at := LoadNext(loaded, i, newAddrs, at, |old(run)|);
        i := i + 1;
      }
    }

    method LoadNext(loaded: seq<IpAddr>, i: nat, newAddrs: seq<IpAddr>, ghost at: seq<nat>, ghost from: nat)
      returns (newAddrs': seq<IpAddr>, ghost at': seq<nat>)
      requires Valid() && state.storage.pc == Loading(Elements(newAddrs))
      requires |at| == i < |loaded| && Loads(run, at, loaded, from) && from <= |run|
      modifies this
      ensures Valid() && old(run) <= run && Later(old(state), state) && old(state.scans) < state.scans
      ensures state.storage == old(state.storage).(pc := Loading(Elements(newAddrs')))
      ensures newAddrs' == newAddrs || newAddrs' == newAddrs + [loaded[i]]
      ensures |at'| == i + 1 && Loads(run, at', loaded, from) && |old(run)| <= |run|
    {
      ghost var before := run;
      newAddrs' := LoadOne(loaded[i], newAddrs);
      LoadsFurther(before, run, at, loaded, loaded[i], from);
      at' := at + [|run| - 1];
    }

    method LoadOne(ip: IpAddr, newAddrs: seq<IpAddr>) returns (newAddrs': seq<IpAddr>)
      requires Valid() && state.storage.pc == Loading(Elements(newAddrs))
      modifies this
      ensures Valid() && old(run) <= run && Later(old(state), state) && old(state.scans) < state.scans
      ensures state.storage == old(state.storage).(pc := Loading(Elements(newAddrs')))
      ensures newAddrs' == newAddrs || newAddrs' == newAddrs + [ip]
      ensures |old(run)| < |run| && LoadedLast(run, ip)
    {
      Others(Storer);
      newAddrs' := UpdateLoaded(ip, newAddrs);
    }

    method UpdateLoaded(ip: IpAddr, newAddrs: seq<IpAddr>) returns (newAddrs': seq<IpAddr>)
      requires Valid() && state.storage.pc == Loading(Elements(newAddrs))
      modifies this
      ensures Valid() && run == old(run) + [state] && Later(old(state), state) && old(state.scans) < state.scans
      ensures state.storage == old(state.storage).(pc := Loading(Elements(newAddrs')))
      ensures newAddrs' == newAddrs || newAddrs' == newAddrs + [ip]
      ensures LoadedLast(run, ip)
    {
      newAddrs' := newAddrs;
      if ip !in table {
        assert Elements(newAddrs + [ip]) == Elements(newAddrs) + {ip};
        newAddrs' := newAddrs + [ip];
      }
      table := table + {ip};
      LogStorage(Load(ip));
    }

    /** One reply that names all the new peers of a scan; `replied` is where in the run it is sent. */
    method SendNewAddrs(newAddrs: seq<IpAddr>, patience: nat) returns (blocked: bool, ghost replied: nat)
      requires Valid() && state.storage.pc == ScanReplying(Elements(newAddrs))
      modifies this
      ensures Valid() && old(run) <= run && Later(old(state), state)
      ensures state.storage == if blocked then old(state.storage) else old(state.storage).(pc := Expiring)
      ensures !blocked ==> Replied(run, replied, StorageStep(SendScanReply), Elements(newAddrs))
    {
      var waited := 0;
      while |channels.reply| >= REPLY_CAPACITY && waited < patience
        invariant Valid() && old(run) <= run && Later(old(state), state) && state.storage == old(state.storage)
        decreases patience - waited
      {
        Others(Storer);
        waited := waited + 1;
      }
      blocked, replied := |channels.reply| >= REPLY_CAPACITY, |run|;
      if !blocked {
        channels := channels.(reply := channels.reply + [Elements(newAddrs)]);
        LogStorage(SendScanReply);
      }
    }

    method ExpireNodes()
      requires Valid() && state.storage.pc == Expiring
      modifies this
      ensures Valid() && old(run) <= run && |old(run)| < |run| && Later(old(state), state)
      ensures state.storage == old(state.storage).(pc := StorageWaiting)
      ensures ExpiredLast(run)
    {
      Others(Storer);
      var expired: set<IpAddr> := *;
      expired := expired * table;
      table := table - expired;
      LogStorage(Expire(expired));
      assert At(run, |run| - 1, StorageStep(Expire(expired)));
    }

    /** No reply is sent if there is no new peer. */
    method ReplyToNew(newAddrs: seq<IpAddr>, patience: nat) returns (blocked: bool, ghost replied: nat)
      requires Valid() && state.storage.pc == Loading(Elements(newAddrs))
      modifies this
      ensures Valid() && old(run) <= run && Later(old(state), state)
      ensures blocked ==> newAddrs != [] && state.storage == old(state.storage).(pc := ScanReplying(Elements(newAddrs)))
      ensures !blocked ==> state.storage == old(state.storage).(pc := Expiring)
      ensures !blocked && newAddrs != [] ==> Replied(run, replied, StorageStep(SendScanReply), Elements(newAddrs))
    {
      assert newAddrs != [] ==> newAddrs[0] in Elements(newAddrs);
      LogStorage(LoadingDone);
      blocked, replied := false, 0;
      if |newAddrs| > 0 {
        blocked, replied := SendNewAddrs(newAddrs, patience);
      }
    }

    method ReplyAndExpire(newAddrs: seq<IpAddr>, patience: nat) returns (blocked: bool, ghost replied: nat)
      requires Valid() && state.storage.pc == Loading(Elements(newAddrs))
      modifies this
      ensures Valid() && old(run) <= run && Later(old(state), state)
      ensures state.storage.version == old(state.storage.version)
      ensures blocked ==> newAddrs != [] && state.storage.pc == ScanReplying(Elements(newAddrs))
      ensures !blocked ==> state.storage.pc == StorageWaiting
      ensures !blocked ==> ExpiredLast(run)
      ensures !blocked && newAddrs != [] ==>
        replied < |run| - 1 && Replied(run, replied, StorageStep(SendScanReply), Elements(newAddrs))
    {
      blocked, replied := ReplyToNew(newAddrs, patience);
      if !blocked {
        ghost var before := run;
        ExpireNodes();
        if newAddrs != [] {
          StillReplied(before, run, replied, StorageStep(SendScanReply), Elements(newAddrs));
        }
      }
    }

    /** The part of a scan that others see: the loads, the reply if there is a new peer, and last the expiry. */
    method ScanStorage(loaded: seq<IpAddr>, patience: nat)
      returns (blocked: bool, newAddrs: seq<IpAddr>, ghost replied: nat, ghost at: seq<nat>)
      requires Valid() && state.storage.pc == Loading({})
      modifies this
      ensures Valid() && old(run) <= run && Later(old(state), state)
      ensures old(state.scans) + |loaded| <= state.scans && forall ip :: ip in newAddrs ==> ip in loaded
      ensures |at| == |loaded| && Loads(run, at, loaded, |old(run)|)
      ensures state.storage.version == old(state.storage.version)
      ensures blocked ==> newAddrs != [] && state.storage.pc == ScanReplying(Elements(newAddrs))
      ensures !blocked ==> state.storage.pc == StorageWaiting
      ensures !blocked ==> ExpiredLast(run)
      ensures !blocked && newAddrs != [] ==>
        replied < |run| - 1 && Replied(run, replied, StorageStep(SendScanReply), Elements(newAddrs))
    {
      newAddrs, at := LoadAll(loaded);
      ghost var scanned := run;
      blocked, replied := ReplyAndExpire(newAddrs, patience);
      StillLoads(scanned, run, at, loaded, |old(run)|);
    }

    /**
     One lap: whatever woke it, it puts features at least as new as those at the time, or the empty node at the end. Woken
     by the timer it scans to the end, with a load of each object; woken by a notification it loads nothing.
    */
    method StorageLap(loaded: seq<IpAddr>, patience: nat) returns (woken: Woken, ended: bool, ghost at: seq<nat>)
      requires Valid() && state.storage.pc == StorageWaiting
      modifies this
      ensures Valid() && old(run) <= run && Later(old(state), state)
      ensures !ended ==> state.storage.pc == StorageWaiting
      ensures old(state.version) <= state.storage.version ||
        (state.storage.pc == StorageDone && state.storage.storedEmpty)
      ensures woken == ByTimer ==> |at| == |loaded| && Loads(run, at, loaded, |old(run)|)
      ensures woken == ByTimer ==> old(state.scans) + |loaded| <= state.scans
      ensures woken == ByTimer && !ended ==> ExpiredLast(run)
      ensures woken == ByNotification ==> !ended && state.scans == old(state.scans)
      ensures woken == ByNotification ==>
        forall k, ip :: |old(run)| <= k < |run| ==> !At(run, k, StorageStep(Load(ip)))
      ensures woken == ByCancellation <==> state.storage.pc == StorageDone
      ensures woken == ByCancellation ==> ended
    {
      Others(Storer);
      at := [];
      if
      case channels.notifyStorage =>
        NotifiedLap();
        NoLoadsBetween(|old(run)| - 1);
        woken, ended := ByNotification, false;
      case true =>
        ended, at := TimedLap(loaded, patience);
        woken := ByTimer;
      case state.cancelled =>
        CancelledLap();
        woken, ended := ByCancellation, true;
    }

    method NotifiedLap()
      requires Valid() && state.storage.pc == StorageWaiting && channels.notifyStorage
      modifies this
      ensures Valid() && old(run) <= run && Later(old(state), state)
      ensures state.storage.pc == StorageWaiting && old(state.version) <= state.storage.version
      ensures state.scans == old(state.scans)
    {
      channels := channels.(notifyStorage := false);
      LogStorage(TakeNotifyStorage);
      var _, _ := PutAndScan(false, [], 0);
    }

    method TimedLap(loaded: seq<IpAddr>, patience: nat) returns (ended: bool, ghost at: seq<nat>)
      requires Valid() && state.storage.pc == StorageWaiting
      modifies this
      ensures Valid() && old(run) <= run && Later(old(state), state) && old(state.version) <= state.storage.version
      ensures if ended then state.storage.pc.ScanReplying? else state.storage.pc == StorageWaiting
      ensures |at| == |loaded| && Loads(run, at, loaded, |old(run)|) && old(state.scans) + |loaded| <= state.scans
      ensures !ended ==> ExpiredLast(run)
    {
      LogStorage(StorageTimer);
      ghost var from := |run|;
      ended, at := PutAndScan(true, loaded, patience);
      assert Loads(run, at, loaded, from) && |old(run)| <= from;
    }

    method CancelledLap()
      requires Valid() && state.storage.pc == StorageWaiting && state.cancelled
      modifies this
      ensures Valid() && old(run) <= run && Later(old(state), state)
      ensures state.storage.pc == StorageDone && state.storage.storedEmpty
    {
      LogStorage(StopStorage);
      Others(Storer);
      LogStorage(PutEmpty);
    }

    /** No load since the count of changes by scans was what it is now. */
    lemma NoLoadsBetween(i: nat)
      requires Valid() && i < |run| && run[i].scans == state.scans
      ensures forall k, ip :: i < k < |run| ==> !At(run, k, StorageStep(Load(ip)))
    {
      forall k, ip | i < k < |run|
        ensures !At(run, k, StorageStep(Load(ip)))
      {
        NoLoadBetween(run, i, |run| - 1, k, ip);
      }
    }

    method PutObject(scan: bool)
      requires Valid() && state.storage.pc == Storing(scan)
      modifies this
      ensures Valid() && old(run) <= run && Later(old(state), state) && old(state.version) <= state.storage.version
      ensures state.storage.pc == (if scan then Loading({}) else StorageWaiting) && state.scans == old(state.scans)
    {
      Others(Storer);
      LogStorage(Fanout.Put);
    }

    method PutAndScan(scan: bool, loaded: seq<IpAddr>, patience: nat) returns (ended: bool, ghost at: seq<nat>)
      requires Valid() && state.storage.pc == Storing(scan)
      modifies this
      ensures Valid() && old(run) <= run && Later(old(state), state) && old(state.version) <= state.storage.version
      ensures if ended then state.storage.pc.ScanReplying? else state.storage.pc == StorageWaiting
      ensures scan ==> |at| == |loaded| && Loads(run, at, loaded, |old(run)|) && old(state.scans) + |loaded| <= state.scans
      ensures scan && !ended ==> ExpiredLast(run)
      ensures !scan ==> !ended && state.scans == old(state.scans)
    {
      PutObject(scan);
      ended, at := false, [];
      if scan {
        ghost var from := |run|;
        var blocked, _, _, loads := ScanStorage(loaded, patience);
        ended, at := blocked, loads;
        assert Loads(run, at, loaded, from) && |old(run)| <= from;
      }
    }

    /** Entered after the first put and scan. `scans` are the addresses each later scan loads. */
    method StorageLoop(scans: seq<seq<IpAddr>>, patience: nat)
      requires Valid() && state.storage.pc == StorageWaiting
      modifies this
      ensures Valid() && old(run) <= run
      ensures |scans| > 0 ==>
        old(state.version) <= state.storage.version || (state.storage.pc == StorageDone && state.storage.storedEmpty)
    {
      var i := 0;
      while i < |scans|
        invariant Valid() && old(run) <= run && state.storage.pc == StorageWaiting && Later(old(state), state)
        invariant i > 0 ==> old(state.version) <= state.storage.version
      {
        var _, ended, _ := StorageLap(scans[i], patience);
        if ended {
          return;
        }
        i := i + 1;
      }
    }

    // stateLoop.

    method LogWriter(a: WriterAction)
      requires Logged() && WriterEnabled(state, a)
      modifies `state, `run
      ensures Logged() && state == WriterNext(old(state), a) && run == old(run) + [state]
      ensures At(run, |old(run)|, WriterStep(a))
    {
      Log(WriterStep(a));
    }

    /** The order of a pass: the token is taken before anything is read, so all that changed before it is seen. */
    method StatePass()
      requires Valid() && state.writer.pc == WriterWaiting && channels.notifyState
      modifies this
      ensures Valid() && old(run) <= run && state.writer.pc == WriterWaiting && Later(old(state), state)
      ensures At(run, |old(run)|, WriterStep(TakeNotifyState))
      ensures old(state.version) <= state.writer.version
      ensures old(state.packets) <= state.writer.packets && old(state.scans) <= state.writer.scans
    {
      channels := channels.(notifyState := false);
      LogWriter(TakeNotifyState);
      ghost var taken := run;
      Others(StateWriter);
      LogWriter(GetLocalNode);
      Others(StateWriter);
      LogWriter(GetRemoteNodes);
      StillAt(taken, run, |old(run)|, WriterStep(TakeNotifyState));
    }

    /** Each pass has its own token; `taken` are where in the run they were taken. */
    method StateLoop(laps: nat) returns (passes: nat, ghost taken: seq<nat>)
      requires Valid() && state.writer.pc == WriterWaiting
      modifies this
      ensures Valid() && old(run) <= run && state.writer.pc == WriterWaiting
      ensures |taken| == passes && Tokens(run, taken)
      ensures if passes == 0 then state.writer == old(state.writer) else old(state.version) <= state.writer.version
      ensures passes > 0 ==> old(state.packets) <= state.writer.packets && old(state.scans) <= state.writer.scans
    {
      passes, taken := 0, [];
      var lap := 0;
      while lap < laps
        invariant Valid() && old(run) <= run && state.writer.pc == WriterWaiting && Later(old(state), state)
        invariant |taken| == passes && Tokens(run, taken)
        invariant if passes == 0 then state.writer == old(state.writer) else old(state.version) <= state.writer.version
        invariant passes > 0 ==> old(state.packets) <= state.writer.packets && old(state.scans) <= state.writer.scans
      {
        ghost var before := run;
        Others(StateWriter);
        if channels.notifyState {
          ghost var k := |run|;
          StatePass();
          TokensFurther(before, run, taken, k);
          passes, taken := passes + 1, taken + [k];
        } else {
          StillTokens(before, run, taken);
        }
        lap := lap + 1;
      }
    }
  }
}
