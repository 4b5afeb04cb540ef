/**
 Why a live peer stays in the table: the broadcast timer of transmitLoop (service/io.go) against the
 expiry of scanStorage (service/storage.go), with synchronised clocks.
*/
module Broadcasts {
  import opened Base

  /**
   A sender with its timer, and an observer's entry for it. `good` lists the stamps of the broadcasts
   that reach the observer, `inFlight` those still on their way, `lost` counts the losses since the
   last good one, and `threshold` is that of a scan in progress.
  */
  datatype State = State(now: int, deadline: int, last: int, lost: nat, good: seq<int>, inFlight: set<int>,
                         entry: Option<int>, threshold: Option<int>)

  datatype Action =
    | Tick(elapsed: nat)
    | TimerBroadcast(interval: int, arrives: bool)
    | NotifyBroadcast(interval: int, arrives: bool)
    | Reply
    | Deliver(stamp: int)
    | Duplicate(stamp: int)
    | BeginScan
    | EndScan

  predicate Interval(interval: int) {
    MIN_TRANSMIT_INTERVAL <= interval <= MAX_TRANSMIT_INTERVAL
  }

  /** The first broadcast precedes the first wait. */
  predicate Init(s: State) {
    s.last == s.now <= s.deadline <= s.now + MAX_TRANSMIT_INTERVAL && s.lost == 0 &&
    s.good == [s.now] && s.inFlight == {s.now} && s.entry == None && s.threshold == None
  }

  /** At most `maxLost` broadcasts in a row are lost; the others arrive within the latency tolerance. */
  predicate Enabled(s: State, a: Action, maxLost: nat) {
    match a
    case Tick(elapsed) =>
      s.now + elapsed <= s.deadline &&
      forall stamp :: stamp in s.inFlight ==> s.now + elapsed <= stamp + LATENCY_TOLERANCE
    case TimerBroadcast(interval, arrives) =>
      s.now == s.deadline && s.last < s.now && Interval(interval) && (arrives || s.lost < maxLost)
    case NotifyBroadcast(interval, arrives) =>
      s.last < s.now && Interval(interval) && (arrives || s.lost < maxLost)
    case Reply => true
    case Deliver(stamp) => stamp in s.inFlight
    case Duplicate(stamp) => stamp in s.good && stamp !in s.inFlight && s.now - stamp <= LATENCY_TOLERANCE
    case BeginScan => s.threshold == None
    case EndScan => s.threshold.Some?
  }

  function Broadcast(s: State, interval: int, arrives: bool): State {
    var sent := s.(deadline := s.now + interval, last := s.now);
    if arrives then sent.(lost := 0, good := s.good + [s.now], inFlight := s.inFlight + {s.now})
    else sent.(lost := s.lost + 1)
  }

  function Newest(entry: Option<int>, stamp: int): Option<int> {
    if entry.Some? && stamp <= entry.value then entry else Some(stamp)
  }

  function Step(s: State, a: Action, maxLost: nat): State
    requires Enabled(s, a, maxLost)
  {
    match a
    case Tick(elapsed) => s.(now := s.now + elapsed)
    case TimerBroadcast(interval, arrives) => Broadcast(s, interval, arrives)
    case NotifyBroadcast(interval, arrives) => Broadcast(s, interval, arrives)
    case Reply => s
    case Deliver(stamp) => s.(entry := Newest(s.entry, stamp), inFlight := s.inFlight - {stamp})
    case Duplicate(stamp) => s.(entry := Newest(s.entry, stamp))
    case BeginScan => s.(threshold := Some(s.now - EXPIRE_TIMEOUT))
    case EndScan =>
      s.(threshold := None,
         entry := if s.entry.Some? && s.entry.value < s.threshold.value then None else s.entry)
  }

  ghost predicate Next(s: State, t: State, maxLost: nat) {
    exists a :: Enabled(s, a, maxLost) && t == Step(s, a, maxLost)
  }

  lemma Taken(s: State, t: State, maxLost: nat) returns (a: Action)
    requires Next(s, t, maxLost)
    ensures Enabled(s, a, maxLost) && t == Step(s, a, maxLost)
  {
    a :| Enabled(s, a, maxLost) && t == Step(s, a, maxLost);
  }

  ghost predicate Behavior(run: seq<State>, maxLost: nat) {
    |run| > 0 && Init(run[0]) && forall i, j :: 0 <= i && j == i + 1 < |run| ==> Next(run[i], run[j], maxLost)
  }

  /** The longest time from one good broadcast to the next. */
  function Gap(maxLost: nat): int {
    (maxLost + 1) * MAX_TRANSMIT_INTERVAL
  }

  ghost predicate TimerInv(s: State, maxLost: nat) {
    s.last <= s.now <= s.deadline <= s.last + MAX_TRANSMIT_INTERVAL && s.lost <= maxLost &&
    |s.good| > 0 && s.last <= s.good[|s.good| - 1] + s.lost * MAX_TRANSMIT_INTERVAL &&
    s.good[|s.good| - 1] <= s.last &&
    (forall i, j :: 0 <= i && j == i + 1 < |s.good| ==> s.good[i] < s.good[j] <= s.good[i] + Gap(maxLost))
  }

  /** What has arrived is in the entry or too old for one. */
  ghost predicate EntryInv(s: State) {
    (forall stamp :: stamp in s.inFlight ==> stamp in s.good && s.now <= stamp + LATENCY_TOLERANCE) &&
    (forall i :: 0 <= i < |s.good| && s.good[i] !in s.inFlight ==>
      if s.entry.Some? then s.good[i] <= s.entry.value else s.good[i] < s.now - EXPIRE_TIMEOUT) &&
    (s.entry.Some? ==> s.entry.value in s.good && s.entry.value !in s.inFlight) &&
    (s.threshold.Some? ==> s.threshold.value <= s.now - EXPIRE_TIMEOUT)
  }

  /** Between the newest delivered stamp and now lies at most one gap and one latency. */
  lemma {:induction false} DeliveredRecently(s: State, i: nat, maxLost: nat)
    requires TimerInv(s, maxLost) && EntryInv(s) && s.entry.Some? && i < |s.good| && s.good[i] !in s.inFlight
    ensures s.now <= s.entry.value + Gap(maxLost) + LATENCY_TOLERANCE
    decreases |s.good| - i
  {
    if i + 1 < |s.good| {
      if s.good[i + 1] !in s.inFlight {
        DeliveredRecently(s, i + 1, maxLost);
      }
    } else {
      assert s.lost * MAX_TRANSMIT_INTERVAL <= maxLost * MAX_TRANSMIT_INTERVAL;
    }
  }

  lemma EntryIsRecent(s: State, maxLost: nat)
    requires TimerInv(s, maxLost) && EntryInv(s) && s.entry.Some?
    ensures s.now <= s.entry.value + Gap(maxLost) + LATENCY_TOLERANCE
  {
    var i :| 0 <= i < |s.good| && s.good[i] == s.entry.value;
    DeliveredRecently(s, i, maxLost);
  }

  lemma {:induction false} GoodBefore(s: State, i: nat, maxLost: nat)
    requires TimerInv(s, maxLost) && i < |s.good|
    ensures s.good[i] <= s.last
    decreases |s.good| - i
  {
    if i + 1 < |s.good| {
      GoodBefore(s, i + 1, maxLost);
    }
  }

  lemma BroadcastKeepsTimerInv(s: State, interval: int, arrives: bool, maxLost: nat)
    requires TimerInv(s, maxLost) && s.last < s.now && Interval(interval) && (arrives || s.lost < maxLost)
    ensures TimerInv(Broadcast(s, interval, arrives), maxLost)
    ensures forall stamp :: stamp in s.good ==> stamp < s.now
  {
    assert s.lost * MAX_TRANSMIT_INTERVAL <= maxLost * MAX_TRANSMIT_INTERVAL;
    forall stamp | stamp in s.good
      ensures stamp < s.now
    {
      var i :| 0 <= i < |s.good| && s.good[i] == stamp;
      GoodBefore(s, i, maxLost);
    }
  }

  lemma BroadcastKeepsEntryInv(s: State, interval: int, arrives: bool)
    requires EntryInv(s) && forall stamp :: stamp in s.good ==> stamp < s.now
    ensures EntryInv(Broadcast(s, interval, arrives))
  {
    var t := Broadcast(s, interval, arrives);
    assert s.good <= t.good;
    assert forall i :: 0 <= i < |s.good| ==> s.good[i] == t.good[i];
    if arrives {
      assert t.good[|s.good|] == s.now;
    }
  }

  ghost predicate Inv(s: State, maxLost: nat) {
    TimerInv(s, maxLost) && EntryInv(s)
  }

  lemma BroadcastKeepsInv(s: State, interval: int, arrives: bool, maxLost: nat)
    requires Inv(s, maxLost) && s.last < s.now && Interval(interval) && (arrives || s.lost < maxLost)
    ensures Inv(Broadcast(s, interval, arrives), maxLost)
  {
    BroadcastKeepsTimerInv(s, interval, arrives, maxLost);
    BroadcastKeepsEntryInv(s, interval, arrives);
  }

  lemma DeliverKeepsInv(s: State, stamp: int, maxLost: nat)
    requires Inv(s, maxLost) && stamp in s.good && s.now <= stamp + LATENCY_TOLERANCE
    ensures Inv(s.(entry := Newest(s.entry, stamp), inFlight := s.inFlight - {stamp}), maxLost)
  {
    assert EntryInv(s.(entry := Newest(s.entry, stamp), inFlight := s.inFlight - {stamp}));
  }

  /** Within the expiry timeout a scan finds the entry recent enough. */
  lemma EndScanKeepsEntry(s: State, maxLost: nat)
    requires Gap(maxLost) + LATENCY_TOLERANCE <= EXPIRE_TIMEOUT
    requires Inv(s, maxLost) && s.threshold.Some?
    ensures Step(s, EndScan, maxLost) == s.(threshold := None)
  {
    if s.entry.Some? {
      EntryIsRecent(s, maxLost);
    }
  }

  lemma TickKeepsInv(s: State, elapsed: nat, maxLost: nat)
    requires Inv(s, maxLost) && Enabled(s, Tick(elapsed), maxLost)
    ensures Inv(s.(now := s.now + elapsed), maxLost)
  {
  }

  lemma ScanKeepsInv(s: State, threshold: Option<int>, maxLost: nat)
    requires Inv(s, maxLost)
    requires threshold.Some? ==> threshold.value <= s.now - EXPIRE_TIMEOUT
    ensures Inv(s.(threshold := threshold), maxLost)
  {
  }

  /** An entry that expires is older than the threshold, and so is all that has arrived before. */
  lemma EndScanKeepsInv(s: State, maxLost: nat)
    requires Inv(s, maxLost) && s.threshold.Some?
    ensures Inv(Step(s, EndScan, maxLost), maxLost)
  {
  }

  lemma StepKeepsInv(s: State, a: Action, maxLost: nat)
    requires Inv(s, maxLost) && Enabled(s, a, maxLost)
    ensures Inv(Step(s, a, maxLost), maxLost)
  {
    match a
    case Tick(elapsed) => TickKeepsInv(s, elapsed, maxLost);
    case TimerBroadcast(interval, arrives) => BroadcastKeepsInv(s, interval, arrives, maxLost);
    case NotifyBroadcast(interval, arrives) => BroadcastKeepsInv(s, interval, arrives, maxLost);
    case Reply =>
    case Deliver(stamp) => DeliverKeepsInv(s, stamp, maxLost);
    case Duplicate(stamp) =>
      DeliverKeepsInv(s, stamp, maxLost);
      assert s.inFlight - {stamp} == s.inFlight;
    case BeginScan => ScanKeepsInv(s, Some(s.now - EXPIRE_TIMEOUT), maxLost);
    case EndScan => EndScanKeepsInv(s, maxLost);
  }

  lemma {:induction false} BehaviorKeepsInv(run: seq<State>, i: nat, maxLost: nat)
    requires Behavior(run, maxLost) && i < |run|
    ensures TimerInv(run[i], maxLost) && EntryInv(run[i])
  {
    if i > 0 {
      BehaviorKeepsInv(run, i - 1, maxLost);
      var a := Taken(run[i - 1], run[i], maxLost);
      StepKeepsInv(run[i - 1], a, maxLost);
    }
  }

  /** However many broadcasts are lost, the entry of a live peer is never older than one gap and one latency. */
  lemma LiveEntryIsRecent(run: seq<State>, i: nat, maxLost: nat)
    requires Behavior(run, maxLost) && i < |run| && run[i].entry.Some?
    ensures run[i].now <= run[i].entry.value + ((maxLost + 1) * 40 + 15) * SECOND
  {
    BehaviorKeepsInv(run, i, maxLost);
    EntryIsRecent(run[i], maxLost);
  }

  /** No scan of any run expires the entry. */
  ghost predicate NeverExpired(maxLost: nat) {
    forall run: seq<State>, i ::
      Behavior(run, maxLost) && 0 <= i < |run| && Enabled(run[i], EndScan, maxLost) ==>
        Step(run[i], EndScan, maxLost).entry == run[i].entry
  }

  /** `n` lost broadcasts in a row, each a full interval after the one before. */
  lemma {:induction false} LoseInARow(n: nat, maxLost: nat) returns (run: seq<State>)
    requires n <= maxLost
    ensures Behavior(run, maxLost)
    ensures run[|run| - 1] == State(n * MAX_TRANSMIT_INTERVAL, (n + 1) * MAX_TRANSMIT_INTERVAL,
      n * MAX_TRANSMIT_INTERVAL, n, [0], {}, Some(0), None)
  {
    if n == 0 {
      var s := State(0, MAX_TRANSMIT_INTERVAL, 0, 0, [0], {0}, None, None);
      run := [s, Step(s, Deliver(0), maxLost)];
      assert Next(s, run[1], maxLost);
    } else {
      run := LoseInARow(n - 1, maxLost);
      var s := run[|run| - 1];
      var t := Step(s, Tick(MAX_TRANSMIT_INTERVAL), maxLost);
      var u := Step(t, TimerBroadcast(MAX_TRANSMIT_INTERVAL, false), maxLost);
      assert Next(s, t, maxLost) && Next(t, u, maxLost);
      run := run + [t, u];
    }
  }

  lemma TooManyLossesExpire(maxLost: nat)
    requires Gap(maxLost) + LATENCY_TOLERANCE > EXPIRE_TIMEOUT
    ensures !NeverExpired(maxLost)
  {
    var run := LoseInARow(22, maxLost);
    var s := run[|run| - 1];
    var t := Step(s, Tick(MAX_TRANSMIT_INTERVAL), maxLost);
    var u := Step(t, BeginScan, maxLost);
    assert Next(s, t, maxLost) && Next(t, u, maxLost);
    run := run + [t, u];
    assert Behavior(run, maxLost) && Enabled(run[|run| - 1], EndScan, maxLost);
    assert Step(run[|run| - 1], EndScan, maxLost).entry == None;
  }

  /** A live peer is never expired exactly when at most 21 broadcasts in a row are lost. */
  lemma LivePeerKept(maxLost: nat)
    ensures NeverExpired(maxLost) <==> maxLost <= 21
  {
    if maxLost <= 21 {
      forall run: seq<State>, i |
        Behavior(run, maxLost) && 0 <= i < |run| && Enabled(run[i], EndScan, maxLost)
        ensures Step(run[i], EndScan, maxLost).entry == run[i].entry
      {
        BehaviorKeepsInv(run, i, maxLost);
        EndScanKeepsEntry(run[i], maxLost);
      }
    } else {
      TooManyLossesExpire(maxLost);
    }
  }
}

/** Why a live peer's stored object is not deleted: the timer of storageLoop against the scan's threshold. */
module StoragePuts {
  import opened Base

  /** An owner with its storage timer, the object's LastModified and the timer puts missed since. */
  datatype State = State(now: int, deadline: int, missed: nat, lastModified: int)

  datatype Action = Tick(elapsed: nat) | TimerPut(interval: int, succeeds: bool) | NotifyPut(succeeds: bool)

  /** The first put must succeed for the service to start. */
  predicate Init(s: State) {
    s.lastModified == s.now <= s.deadline <= s.now + MAX_STORAGE_INTERVAL && s.missed == 0
  }

  predicate Enabled(s: State, a: Action, maxMissed: nat) {
    match a
    case Tick(elapsed) => s.now + elapsed <= s.deadline
    case TimerPut(interval, succeeds) =>
      s.now == s.deadline && MIN_STORAGE_INTERVAL <= interval <= MAX_STORAGE_INTERVAL &&
      (succeeds || s.missed < maxMissed)
    case NotifyPut(_) => true
  }

  function Step(s: State, a: Action, maxMissed: nat): State
    requires Enabled(s, a, maxMissed)
  {
    match a
    case Tick(elapsed) => s.(now := s.now + elapsed)
    case TimerPut(interval, succeeds) =>
      var reset := s.(deadline := s.now + interval);
      if succeeds then reset.(missed := 0, lastModified := s.now) else reset.(missed := s.missed + 1)
    case NotifyPut(succeeds) => if succeeds then s.(lastModified := s.now) else s
  }

  ghost predicate Next(s: State, t: State, maxMissed: nat) {
    exists a :: Enabled(s, a, maxMissed) && t == Step(s, a, maxMissed)
  }

  lemma Taken(s: State, t: State, maxMissed: nat) returns (a: Action)
    requires Next(s, t, maxMissed)
    ensures Enabled(s, a, maxMissed) && t == Step(s, a, maxMissed)
  {
    a :| Enabled(s, a, maxMissed) && t == Step(s, a, maxMissed);
  }

  ghost predicate Behavior(run: seq<State>, maxMissed: nat) {
    |run| > 0 && Init(run[0]) && forall i, j :: 0 <= i && j == i + 1 < |run| ==> Next(run[i], run[j], maxMissed)
  }

  /** A scan that starts now would delete the object. */
  predicate ListedForDeletion(s: State) {
    s.lastModified <= s.now - EXPIRE_TIMEOUT
  }

  ghost predicate Inv(s: State, maxMissed: nat) {
    s.lastModified <= s.now <= s.deadline && s.missed <= maxMissed &&
    s.deadline <= s.lastModified + (s.missed + 1) * MAX_STORAGE_INTERVAL
  }

  lemma {:induction false} BehaviorKeepsInv(run: seq<State>, i: nat, maxMissed: nat)
    requires Behavior(run, maxMissed) && i < |run|
    ensures Inv(run[i], maxMissed)
  {
    if i > 0 {
      BehaviorKeepsInv(run, i - 1, maxMissed);
      var _ := Taken(run[i - 1], run[i], maxMissed);
    }
  }

  ghost predicate NeverListed(maxMissed: nat) {
    forall run: seq<State>, i :: Behavior(run, maxMissed) && 0 <= i < |run| ==> !ListedForDeletion(run[i])
  }

  lemma {:induction false} MissInARow(n: nat, maxMissed: nat) returns (run: seq<State>)
    requires n <= maxMissed
    ensures Behavior(run, maxMissed)
    ensures run[|run| - 1] == State(n * MAX_STORAGE_INTERVAL, (n + 1) * MAX_STORAGE_INTERVAL, n, 0)
  {
    if n == 0 {
      run := [State(0, MAX_STORAGE_INTERVAL, 0, 0)];
    } else {
      run := MissInARow(n - 1, maxMissed);
      var s := run[|run| - 1];
      var t := Step(s, Tick(MAX_STORAGE_INTERVAL), maxMissed);
      var u := Step(t, TimerPut(MAX_STORAGE_INTERVAL, false), maxMissed);
      assert Next(s, t, maxMissed) && Next(t, u, maxMissed);
      run := run + [t, u];
    }
  }

  /** A live owner's object is never listed for deletion exactly when at most 2 timer puts in a row fail. */
  lemma LiveObjectKept(maxMissed: nat)
    ensures NeverListed(maxMissed) <==> maxMissed <= 2
  {
    if maxMissed <= 2 {
      forall run: seq<State>, i | Behavior(run, maxMissed) && 0 <= i < |run|
        ensures !ListedForDeletion(run[i])
      {
        BehaviorKeepsInv(run, i, maxMissed);
      }
    } else {
      var run := MissInARow(3, maxMissed);
      var s := run[|run| - 1];
      var t := Step(s, Tick(MAX_STORAGE_INTERVAL), maxMissed);
      assert Next(s, t, maxMissed);
      run := run + [t];
      assert Behavior(run, maxMissed) && ListedForDeletion(run[|run| - 1]);
    }
  }
}
