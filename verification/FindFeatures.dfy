/** Collecting the hosts of some features, in the order they were last added (cmd/nameq/command/monitor.go). */
module FindFeatures {
  import opened Base
  import Monitor

  type Record = Monitor.Record

  /** The host list after a record: an added host moves to the end, a removed one disappears. */
  function Drop(hosts: seq<string>, host: string): seq<string> {
    if hosts == [] then []
    else if hosts[0] == host then Drop(hosts[1..], host)
    else [hosts[0]] + Drop(hosts[1..], host)
  }

  /** The hosts of the named features after the records, in last-add order. */
  function Hosts(records: seq<Record>, names: seq<string>): seq<string> {
    if records == [] then []
    else
      var before, last := Hosts(records[..|records| - 1], names), records[|records| - 1];
      if last.path.0 !in names then before
      else if last.data.Some? then Drop(before, last.path.1) + [last.path.1]
      else Drop(before, last.path.1)
  }

  ghost predicate Distinct(hosts: seq<string>) {
    forall i, j :: 0 <= i < j < |hosts| ==> hosts[i] != hosts[j]
  }

  lemma {:induction false} DropIsExact(hosts: seq<string>, host: string)
    requires Distinct(hosts)
    ensures Distinct(Drop(hosts, host))
    ensures forall h :: h in Drop(hosts, host) <==> h in hosts && h != host
  {
    if hosts != [] {
      DropIsExact(hosts[1..], host);
      assert hosts == [hosts[0]] + hosts[1..];
      assert hosts[0] !in hosts[1..];
    }
  }

  /** Position k is the last matching record of the host. */
  ghost predicate LastMatch(records: seq<Record>, names: seq<string>, host: string, k: int) {
    0 <= k < |records| && records[k].path.0 in names && records[k].path.1 == host &&
    forall l :: k < l < |records| && records[l].path.0 in names ==> records[l].path.1 != host
  }

  /** A host is held exactly when its last matching record was an addition. */
  lemma {:induction false} HeldIffLastAdded(records: seq<Record>, names: seq<string>, host: string)
    ensures Distinct(Hosts(records, names))
    ensures host in Hosts(records, names) <==> exists k :: LastMatch(records, names, host, k) && records[k].data.Some?
  {
    if records == [] {
      return;
    }
    var init, last := records[..|records| - 1], records[|records| - 1];
    HeldIffLastAdded(init, names, host);
    HeldIffLastAdded(init, names, last.path.1);
    DropIsExact(Hosts(init, names), last.path.1);
    assert records == init + [last];
    if last.path.0 in names && last.path.1 == host {
      assert LastMatch(records, names, host, |records| - 1);
      assert forall k :: LastMatch(records, names, host, k) ==> k == |records| - 1;
    } else {
      forall k
        ensures LastMatch(records, names, host, k) <==> LastMatch(init, names, host, k)
      {
        MatchUnaffected(init, last, names, host, k);
      }
      assert forall k :: LastMatch(init, names, host, k) ==> init[k] == records[k];
    }
  }

  lemma MatchUnaffected(init: seq<Record>, last: Record, names: seq<string>, host: string, k: int)
    requires last.path.0 !in names || last.path.1 != host
    ensures LastMatch(init + [last], names, host, k) <==> LastMatch(init, names, host, k)
  {
    var records := init + [last];
    assert forall l :: 0 <= l < |init| ==> records[l] == init[l];
    if LastMatch(init, names, host, k) {
      assert LastMatch(records, names, host, k);
    }
  }

  /** For a single feature, the hosts held are those that have it in the view the records replay to. */
  lemma {:induction false} HeldIsView(records: seq<Record>, name: string, host: string)
    ensures host in Hosts(records, [name]) <==> (name, host) in Monitor.Replay(records)
  {
    if records != [] {
      var init, last := records[..|records| - 1], records[|records| - 1];
      HeldIsView(init, name, host);
      HeldIffLastAdded(init, [name], host);
      DropIsExact(Hosts(init, [name]), last.path.1);
    }
  }

  /** Of two held hosts, the one later in the list was added later. */
  lemma {:induction false} ListedInLastAddOrder(records: seq<Record>, names: seq<string>, i: nat, j: nat)
    returns (k: int, l: int)
    requires i < j < |Hosts(records, names)|
    ensures LastMatch(records, names, Hosts(records, names)[i], k)
    ensures LastMatch(records, names, Hosts(records, names)[j], l)
    ensures k < l
  {
    var init, last := records[..|records| - 1], records[|records| - 1];
    var before, hosts := Hosts(init, names), Hosts(records, names);
    HeldIffLastAdded(init, names, "");
    if last.path.0 !in names {
      k, l := ListedInLastAddOrder(init, names, i, j);
    } else {
      DropIsExact(before, last.path.1);
      var kept := Drop(before, last.path.1);
      assert kept[i] in kept;
      if j < |kept| {
        assert kept[j] in kept;
        var i', j' := DropKeepsOrder(before, last.path.1, i, j);
        k, l := ListedInLastAddOrder(init, names, i', j');
      } else {
        l := |records| - 1;
        HeldIffLastAdded(init, names, kept[i]);
        k :| LastMatch(init, names, kept[i], k);
      }
    }
  }

  lemma {:induction false} DropKeepsOrder(hosts: seq<string>, host: string, i: nat, j: nat) returns (i': nat, j': nat)
    requires i < j < |Drop(hosts, host)|
    ensures i' < j' < |hosts| && hosts[i'] == Drop(hosts, host)[i] && hosts[j'] == Drop(hosts, host)[j]
  {
    if hosts[0] == host {
      i', j' := DropKeepsOrder(hosts[1..], host, i, j);
      i', j' := i' + 1, j' + 1;
    } else if i > 0 {
      i', j' := DropKeepsOrder(hosts[1..], host, i - 1, j - 1);
      i', j' := i' + 1, j' + 1;
    } else {
      i' := 0;
      assert Drop(hosts[1..], host)[j - 1] in Drop(hosts[1..], host);
      j' := FindKept(hosts[1..], host, j - 1);
      j' := j' + 1;
    }
  }

  lemma {:induction false} FindKept(hosts: seq<string>, host: string, i: nat) returns (i': nat)
    requires i < |Drop(hosts, host)|
    ensures i' < |hosts| && hosts[i'] == Drop(hosts, host)[i]
  {
    if hosts[0] == host {
      i' := FindKept(hosts[1..], host, i);
      i' := i' + 1;
    } else if i > 0 {
      i' := FindKept(hosts[1..], host, i - 1);
      i' := i' + 1;
    } else {
      i' := 0;
    }
  }

  /** All keys have ranks, and these increase. */
  ghost predicate Sorted(order: map<string, nat>, keys: seq<string>) {
    (forall i :: 0 <= i < |keys| ==> keys[i] in order) &&
    (forall i, j :: 0 <= i < j < |keys| ==> order[keys[i]] < order[keys[j]])
  }

  class StringOrderMap {
    var order: map<string, nat>
    var next: nat

    /** Ranks are distinct and below the next one. */
    ghost predicate Valid()
      reads this
    {
      (forall key :: key in order ==> order[key] < next) &&
      (forall a, b :: a in order && b in order && a != b ==> order[a] != order[b])
    }

    /** The list has exactly the keys, by increasing rank. */
    ghost predicate Represents(keys: seq<string>)
      reads this
    {
      (forall key :: key in keys <==> key in order) && Sorted(order, keys)
    }

    constructor ()
      ensures Valid() && Represents([])
    {
      order, next := map[], 0;
    }

    method Empty() returns (empty: bool)
      ensures empty <==> order.Keys == {}
    {
      return |order| == 0;
    }

    method Add(key: string, ghost keys: seq<string>)
      requires Valid() && Represents(keys)
      modifies this
      ensures Valid() && Represents(Drop(keys, key) + [key])
    {
      order := order[key := next];
      next := next + 1;
      assert forall i, j :: 0 <= i < j < |keys| ==> keys[i] in keys && keys[j] in keys;
      DropSorted(keys, key, old(order));
      ghost var kept := Drop(keys, key);
      assert forall i :: 0 <= i < |kept| ==> kept[i] in kept;
    }

    method Remove(key: string, ghost keys: seq<string>)
      requires Valid() && Represents(keys)
      modifies this
      ensures Valid() && Represents(Drop(keys, key))
    {
      order := order - {key};
      DropSorted(keys, key, old(order));
      ghost var kept := Drop(keys, key);
      assert forall i :: 0 <= i < |kept| ==> kept[i] in kept;
    }

    /** Collects the keys in any order, and sorts them by rank. */
    method Array() returns (keys: seq<string>)
      requires Valid()
      ensures Represents(keys)
    {
      keys := [];
      var unseen := order.Keys;
      while unseen != {}
        invariant unseen <= order.Keys
        invariant forall key :: key in keys <==> key in order && key !in unseen
        invariant Sorted(order, keys)
        decreases unseen
      {
        var key :| key in unseen;
        unseen := unseen - {key};
        keys := Insert(keys, key);
      }
    }

    /** One step of the sort: the key goes where its rank belongs. */
    method Insert(keys: seq<string>, key: string) returns (longer: seq<string>)
      requires Valid() && key in order && key !in keys && Sorted(order, keys)
      ensures Sorted(order, longer) && forall k :: k in longer <==> k in keys || k == key
    {
      var i := |keys|;
      while i > 0 && order[key] < order[keys[i - 1]]
        invariant 0 <= i <= |keys|
        invariant i < |keys| ==> order[key] < order[keys[i]]
      {
        i := i - 1;
      }
      assert i > 0 ==> keys[i - 1] in keys && keys[i - 1] != key;
      InsertSorted(order, keys[..i], key, keys[i..]);
      InsertedMembers(keys, i, key);
      longer := keys[..i] + [key] + keys[i..];
    }

    /** The list a map represents is the only one. */
    lemma RepresentsOne(a: seq<string>, b: seq<string>)
      requires Represents(a) && Represents(b)
      ensures a == b
      decreases |a|
    {
      SortedOnce(order, a, b);
    }
  }

  lemma {:induction false} DropSorted(keys: seq<string>, key: string, order: map<string, nat>)
    requires Sorted(order, keys)
    ensures Sorted(order, Drop(keys, key))
    ensures forall k :: k in Drop(keys, key) <==> k in keys && k != key
  {
    if keys != [] {
      assert keys == [keys[0]] + keys[1..];
      DropSorted(keys[1..], key, order);
      var kept := Drop(keys[1..], key);
      forall i | 0 <= i < |kept|
        ensures order[keys[0]] < order[kept[i]]
      {
        assert kept[i] in keys[1..];
      }
    }
  }

  lemma InsertedMembers(keys: seq<string>, i: nat, key: string)
    requires i <= |keys|
    ensures forall k :: k in keys[..i] + [key] + keys[i..] <==> k in keys || k == key
  {
    assert keys == keys[..i] + keys[i..];
  }

  lemma InsertSorted(order: map<string, nat>, low: seq<string>, key: string, high: seq<string>)
    requires Sorted(order, low) && Sorted(order, high) && key in order
    requires low != [] ==> order[low[|low| - 1]] < order[key]
    requires high != [] ==> order[key] < order[high[0]]
    ensures Sorted(order, low + [key] + high)
  {
    var longer, n := low + [key] + high, |low|;
    forall j | 0 <= j < |longer|
      ensures longer[j] in order
      ensures if j < n then order[longer[j]] < order[key] else order[key] <= order[longer[j]]
    {
      if j < n {
        assert longer[j] == low[j] && (j < n - 1 ==> order[low[j]] < order[low[n - 1]]);
      } else if j > n {
        assert longer[j] == high[j - n - 1] && (j > n + 1 ==> order[high[0]] < order[high[j - n - 1]]);
      }
    }
    forall j, k | 0 <= j < k < |longer|
      ensures order[longer[j]] < order[longer[k]]
    {
      if k < n {
        assert longer[j] == low[j] && longer[k] == low[k];
      } else if j > n {
        assert longer[j] == high[j - n - 1] && longer[k] == high[k - n - 1];
      } else if j == n {
        assert longer[k] == high[k - n - 1] && (k > n + 1 ==> order[high[0]] < order[high[k - n - 1]]);
      }
    }
  }

  lemma {:induction false} SortedOnce(order: map<string, nat>, a: seq<string>, b: seq<string>)
    requires Sorted(order, a) && Sorted(order, b)
    requires forall k :: k in a <==> k in b
    ensures a == b
    decreases |a|
  {
    if |a| > 0 || |b| > 0 {
      assert |a| > 0 ==> a[0] in a;
      assert |b| > 0 ==> b[0] in b;
      assert a == [a[0]] + a[1..] && b == [b[0]] + b[1..];
      assert a[0] in b && b[0] in a;
      assert a[0] == b[0];
      forall k
        ensures k in a[1..] <==> k in b[1..]
      {
        assert k in a[1..] <==> k in a && k != a[0];
        assert k in b[1..] <==> k in b && k != b[0];
      }
      SortedOnce(order, a[1..], b[1..]);
    }
  }

  /** How the loop of findFeatures ended: nothing more was ready, the monitor closed its channel, or time ran out. */
  datatype Ending = NothingReady | MonitorClosed | TimedOut

  datatype Printed = Lines(hosts: seq<string>) | Panic

  /** What the monitor sends before it closes its channel, how many of that before it closes Boot, and the arguments. */
  datatype Input = Input(records: seq<Record>, boot: nat, names: seq<string>, hasTimeout: bool)
  {
    ghost predicate Valid() {
      boot <= |records|
    }

    function HeldAfter(received: nat): seq<string>
      requires received <= |records|
    {
      Hosts(records[..received], names)
    }
  }

  // What a select takes when several of its cases are ready is arbitrary, and so is when records arrive.

  datatype Loop = Loop(booting: bool, received: nat) | Ended(ending: Ending, received: nat)

  predicate LoopNext(input: Input, l: Loop, m: Loop) {
    l.Loop? && l.received <= |input.records| &&
    match m
    case Loop(booting, received) =>
      (received == l.received && l.booting && !booting && input.boot <= received) ||
      (received == l.received + 1 <= |input.records| && booting == l.booting)
    case Ended(ending, received) =>
      received == l.received &&
      match ending
      case NothingReady => !l.booting && input.HeldAfter(received) != []
      case TimedOut => !l.booting && input.HeldAfter(received) == [] && input.hasTimeout
      case MonitorClosed => received == |input.records|
  }

  ghost predicate LoopRun(input: Input, run: seq<Loop>) {
    |run| > 0 && run[0] == Loop(true, 0) &&
    forall i, j :: 0 <= i && j == i + 1 < |run| ==> LoopNext(input, run[i], run[j])
  }

  /** The loop can end this way. */
  ghost predicate Possible(input: Input, ending: Ending, received: nat) {
    exists run :: LoopRun(input, run) && run[|run| - 1] == Ended(ending, received)
  }

  lemma ExtendLoop(input: Input, run: seq<Loop>, next: Loop) returns (longer: seq<Loop>)
    requires LoopRun(input, run) && LoopNext(input, run[|run| - 1], next)
    ensures longer == run + [next] && LoopRun(input, longer)
    ensures next.Ended? ==> Possible(input, next.ending, next.received)
  {
    longer := run + [next];
    assert longer[|longer| - 1] == next;
  }

  /** Everything up to a record can be received before the end of boot is noticed. */
  lemma {:induction false} ReceiveAll(input: Input, n: nat) returns (run: seq<Loop>)
    requires n <= |input.records|
    ensures LoopRun(input, run) && run[|run| - 1] == Loop(true, n)
  {
    if n == 0 {
      run := [Loop(true, 0)];
    } else {
      run := ReceiveAll(input, n - 1);
      run := ExtendLoop(input, run, Loop(true, n));
    }
  }

  lemma {:induction false} BootIsOver(input: Input, run: seq<Loop>, i: nat)
    requires input.Valid() && LoopRun(input, run) && i < |run|
    ensures run[i].received <= |input.records|
    ensures run[i].Loop? && !run[i].booting ==> input.boot <= run[i].received
  {
    if i > 0 {
      BootIsOver(input, run, i - 1);
      assert LoopNext(input, run[i - 1], run[i]);
    }
  }

  lemma PossibleEnding(input: Input, ending: Ending, received: nat)
    requires input.Valid() && Possible(input, ending, received)
    ensures received <= |input.records|
    ensures match ending
      case NothingReady => input.boot <= received && input.HeldAfter(received) != []
      case TimedOut => input.boot <= received && input.hasTimeout && input.HeldAfter(received) == []
      case MonitorClosed => received == |input.records|
  {
    var run :| LoopRun(input, run) && run[|run| - 1] == Ended(ending, received);
    BootIsOver(input, run, |run| - 2);
    assert LoopNext(input, run[|run| - 2], run[|run| - 1]);
  }

  /** The hosts held in last-add order, or with `single` the last one, of which there may be none; nothing on timeout. */
  function Print(single: bool, ending: Ending, hosts: seq<string>): Printed {
    if ending == TimedOut then Lines([])
    else if !single then Lines(hosts)
    else if hosts == [] then Panic
    else Lines([hosts[|hosts| - 1]])
  }

  ghost predicate Panics(input: Input, single: bool, ending: Ending, received: nat) {
    received <= |input.records| && Print(single, ending, input.HeldAfter(received)) == Panic
  }

  /** Taking the last of no hosts is possible if and only if one is asked for and in the end none is held. */
  lemma PanicIsPossible(input: Input, single: bool)
    requires input.Valid()
    ensures (exists ending, received :: Possible(input, ending, received) && Panics(input, single, ending, received)) <==>
      single && Hosts(input.records, input.names) == []
  {
    var n := |input.records|;
    assert input.records[..n] == input.records;
    forall ending, received | Possible(input, ending, received) && Panics(input, single, ending, received)
      ensures single && Hosts(input.records, input.names) == []
    {
      PossibleEnding(input, ending, received);
    }
    var run := ReceiveAll(input, n);
    run := ExtendLoop(input, run, Ended(MonitorClosed, n));
    assert Possible(input, MonitorClosed, n);
    assert single && Hosts(input.records, input.names) == [] ==> Panics(input, single, MonitorClosed, n);
  }

  /** No host is held at any time from the end of boot on. */
  ghost predicate NeverHeld(input: Input)
    requires input.Valid()
  {
    forall r :: input.boot <= r <= |input.records| ==> input.HeldAfter(r) == []
  }

  ghost predicate AlwaysPanics(input: Input, single: bool) {
    forall ending, received :: Possible(input, ending, received) ==> Panics(input, single, ending, received)
  }

  /** It is certain if and only if moreover there is no timeout and no host is held from the end of boot on. */
  lemma PanicIsCertain(input: Input, single: bool)
    requires input.Valid()
    ensures AlwaysPanics(input, single) <==> single && !input.hasTimeout && NeverHeld(input)
  {
    var n := |input.records|;
    if single && !input.hasTimeout && NeverHeld(input) {
      forall ending, received | Possible(input, ending, received)
        ensures Panics(input, single, ending, received)
      {
        PossibleEnding(input, ending, received);
      }
    } else if !single || input.HeldAfter(n) != [] {
      var run := ReceiveAll(input, n);
      run := ExtendLoop(input, run, Ended(MonitorClosed, n));
      assert !Panics(input, single, MonitorClosed, n);
    } else if input.hasTimeout {
      var run := ReceiveAll(input, n);
      run := ExtendLoop(input, run, Loop(false, n));
      run := ExtendLoop(input, run, Ended(TimedOut, n));
      assert !Panics(input, single, TimedOut, n);
    } else {
      var r :| input.boot <= r <= n && input.HeldAfter(r) != [];
      var run := ReceiveAll(input, r);
      run := ExtendLoop(input, run, Loop(false, r));
      run := ExtendLoop(input, run, Ended(NothingReady, r));
      assert !Panics(input, single, NothingReady, r);
    }
  }

  /** A monitor whose empty top directory is removed sends nothing and closes its channel: then -single must panic. */
  lemma RemovedTopPanics(hosts: iset<string>, name: string) returns (run: seq<Monitor.State>, input: Input)
    ensures Monitor.Behavior(run) && !run[|run| - 1].closing.requested
    ensures run[|run| - 1].closing.outputCloses == 1 && input.records == run[|run| - 1].output.delivered
    ensures input.Valid() && input.names == [name] && AlwaysPanics(input, true)
  {
    run := Monitor.RemovedTopClosesOutput(hosts);
    input := Input([], 0, [name], false);
    PanicIsCertain(input, true);
  }

  /**
   The loop of findFeatures. Unless the monitor closes its channel after all records it goes on to the end of boot, and
   then until some host is held, or time runs out while none is.
  */
  method Collect(input: Input) returns (accumulator: StringOrderMap, received: nat, ending: Ending)
    requires input.Valid()
    ensures fresh(accumulator) && accumulator.Valid() && received <= |input.records|
    ensures accumulator.Represents(input.HeldAfter(received))
    ensures Possible(input, ending, received)
    ensures if ending == MonitorClosed then received == |input.records| else input.boot <= received
    ensures ending == NothingReady ==> accumulator.order.Keys != {}
    ensures ending == TimedOut ==> accumulator.order.Keys == {} && input.hasTimeout
  {
    accumulator := new StringOrderMap();
    received := 0;
    var booting := true;
    ghost var run := [Loop(true, 0)];
    while true
      invariant fresh(accumulator) && accumulator.Valid() && received <= |input.records|
      invariant accumulator.Represents(input.HeldAfter(received))
      invariant LoopRun(input, run) && run[|run| - 1] == Loop(booting, received)
      invariant !booting ==> input.boot <= received
      decreases |input.records| - received, booting
    {
      ghost var hosts := input.HeldAfter(received);
      assert hosts != [] ==> hosts[0] in hosts;
      var empty := accumulator.Empty();
      if booting {
        if received >= input.boot {
          if * {
            booting := false;
            run := ExtendLoop(input, run, Loop(false, received));
            continue;
          }
        }
      } else if empty {
        if input.hasTimeout {
          if * {
            run := ExtendLoop(input, run, Ended(TimedOut, received));
            return accumulator, received, TimedOut;
          }
        }
      } else {
        if * {
          run := ExtendLoop(input, run, Ended(NothingReady, received));
          return accumulator, received, NothingReady;
        }
      }
      if received == |input.records| {
        run := ExtendLoop(input, run, Ended(MonitorClosed, received));
        return accumulator, received, MonitorClosed;
      }
      run := ExtendLoop(input, run, Loop(booting, received + 1));
      Accumulate(accumulator, input, received);
      received := received + 1;
    }
  }

  /** What the loop does with a record. */
  method Accumulate(accumulator: StringOrderMap, input: Input, received: nat)
    requires received < |input.records| && accumulator.Valid() && accumulator.Represents(input.HeldAfter(received))
    modifies accumulator
    ensures accumulator.Valid() && accumulator.Represents(input.HeldAfter(received + 1))
  {
    var f := input.records[received];
    ghost var hosts := input.HeldAfter(received);
    assert input.records[..received + 1][..received] == input.records[..received];
    if f.path.0 in input.names {
      if f.data.Some? {
        accumulator.Add(f.path.1, hosts);
      } else {
        accumulator.Remove(f.path.1, hosts);
      }
    }
  }

  /** The hosts held are exactly those last added, in the order of these additions, so that the last is the latest. */
  lemma HostsByLastAdd(records: seq<Record>, names: seq<string>)
    ensures forall host :: host in Hosts(records, names) <==>
      exists k :: LastMatch(records, names, host, k) && records[k].data.Some?
    ensures forall i, j, k, l |
      0 <= i < j < |Hosts(records, names)| &&
      LastMatch(records, names, Hosts(records, names)[i], k) && LastMatch(records, names, Hosts(records, names)[j], l) :: k < l
  {
    var hosts := Hosts(records, names);
    forall host {
      HeldIffLastAdded(records, names, host);
    }
    forall i, j, k, l |
      0 <= i < j < |hosts| && LastMatch(records, names, hosts[i], k) && LastMatch(records, names, hosts[j], l)
      ensures k < l
    {
      var k', l' := ListedInLastAddOrder(records, names, i, j);
      assert k == k' && l == l';
    }
  }

  lemma LastIsLatest(records: seq<Record>, names: seq<string>, k: int, host: string, l: int)
    requires LastMatch(records, names, host, l) && records[l].data.Some?
    ensures Hosts(records, names) != []
    ensures LastMatch(records, names, Hosts(records, names)[|Hosts(records, names)| - 1], k) ==> l <= k
  {
    var hosts := Hosts(records, names);
    HostsByLastAdd(records, names);
    assert host in hosts;
    var i :| 0 <= i < |hosts| && hosts[i] == host;
  }

  /** What printing all of the hosts held, or the last of them, comes to. */
  lemma PrintsByLastAdd(records: seq<Record>, names: seq<string>, single: bool, printed: Printed)
    requires printed == Print(single, NothingReady, Hosts(records, names))
    ensures !single ==>
      printed.Lines? &&
      (forall host :: host in printed.hosts <==> exists k :: LastMatch(records, names, host, k) && records[k].data.Some?) &&
      forall i, j, k, l |
        0 <= i < j < |printed.hosts| &&
        LastMatch(records, names, printed.hosts[i], k) && LastMatch(records, names, printed.hosts[j], l) :: k < l
    ensures single && (exists host, k :: LastMatch(records, names, host, k) && records[k].data.Some?) ==>
      printed.Lines? && |printed.hosts| == 1 && exists k ::
        LastMatch(records, names, printed.hosts[0], k) && records[k].data.Some? &&
        forall host, l :: LastMatch(records, names, host, l) && records[l].data.Some? ==> l <= k
    ensures single && !(exists host, k :: LastMatch(records, names, host, k) && records[k].data.Some?) ==> printed == Panic
  {
    var hosts := Hosts(records, names);
    HostsByLastAdd(records, names);
    if single {
      forall host, k | LastMatch(records, names, host, k) && records[k].data.Some?
        ensures hosts != []
      {
        LastIsLatest(records, names, k, host, k);
      }
      if hosts != [] {
        var last := hosts[|hosts| - 1];
        assert last in hosts;
        var k :| LastMatch(records, names, last, k) && records[k].data.Some?;
        forall host, l | LastMatch(records, names, host, l) && records[l].data.Some?
          ensures l <= k
        {
          LastIsLatest(records, names, k, host, l);
        }
        assert printed.hosts[0] == last;
      }
    }
  }

  lemma PanicsAsCharacterised(input: Input, single: bool, ending: Ending, received: nat)
    requires input.Valid() && received <= |input.records| && Possible(input, ending, received)
    ensures Print(single, ending, input.HeldAfter(received)) == Panic ==>
      single && Hosts(input.records, input.names) == []
    ensures single && !input.hasTimeout && NeverHeld(input) ==>
      Print(single, ending, input.HeldAfter(received)) == Panic
  {
    PanicIsPossible(input, single);
    PanicIsCertain(input, single);
    assert Print(single, ending, input.HeldAfter(received)) == Panic <==> Panics(input, single, ending, received);
  }

  /**
   Prints the hosts whose last matching record was an addition, in the order of these records, or with `single` only
   the one added last; nothing on timeout. Panics only where that is possible, and always where it is certain.
  */
  method FindFeatures(input: Input, single: bool) returns (printed: Printed, received: nat, ending: Ending)
    requires input.Valid()
    ensures received <= |input.records| && Possible(input, ending, received)
    ensures ending == TimedOut ==> printed == Lines([])
    ensures var records, names := input.records[..received], input.names;
      ending != TimedOut && !single ==>
        printed.Lines? &&
        (forall host :: host in printed.hosts <==> exists k :: LastMatch(records, names, host, k) && records[k].data.Some?) &&
        forall i, j, k, l |
          0 <= i < j < |printed.hosts| &&
          LastMatch(records, names, printed.hosts[i], k) && LastMatch(records, names, printed.hosts[j], l) :: k < l
    ensures var records, names := input.records[..received], input.names;
      ending != TimedOut && single && (exists host, k :: LastMatch(records, names, host, k) && records[k].data.Some?) ==>
        printed.Lines? && |printed.hosts| == 1 && exists k ::
          LastMatch(records, names, printed.hosts[0], k) && records[k].data.Some? &&
          forall host, l :: LastMatch(records, names, host, l) && records[l].data.Some? ==> l <= k
    ensures var records, names := input.records[..received], input.names;
      ending != TimedOut && single && !(exists host, k :: LastMatch(records, names, host, k) && records[k].data.Some?) ==>
        printed == Panic
    ensures printed == Panic ==> single && Hosts(input.records, input.names) == []
    ensures single && !input.hasTimeout && NeverHeld(input) ==> printed == Panic
  {
    var accumulator;
    accumulator, received, ending := Collect(input);
    ghost var hosts := input.HeldAfter(received);
    PanicsAsCharacterised(input, single, ending, received);
    if ending == TimedOut {
      return Lines([]), received, ending;
    }
    printed := PrintEntries(accumulator, single, hosts);
    PrintsByLastAdd(input.records[..received], input.names, single, printed);
  }

  method PrintEntries(accumulator: StringOrderMap, single: bool, ghost hosts: seq<string>) returns (printed: Printed)
    requires accumulator.Valid() && accumulator.Represents(hosts)
    ensures printed == Print(single, NothingReady, hosts)
  {
    var entries := accumulator.Array();
    accumulator.RepresentsOne(entries, hosts);
    if single {
      if |entries| == 0 {
        return Panic;
      }
      return Lines([entries[|entries| - 1]]);
    }
    return Lines(entries);
  }
}
