/**
 The feature monitor as it is written (NewFeatureMonitor, watchLoop, addFeature, addHost and removeHost in
 go/nameq.go), its writer taking any steps in between. It stays in step with the Monitor protocol.
*/
module Watch {
  import opened Base
  import opened Monitor

  /** All of the monitor's state that others leave alone; while it lists a directory they touch files in it. */
  ghost predicate Undisturbed(s: State, t: State) {
    t.phase == s.phase && t.watched == s.watched && t.output == s.output && t.hosts == s.hosts &&
    s.tree.dirs <= t.tree.dirs &&
    if s.handler.ReadDir? then
      t.handler.ReadDir? && t.handler.dir == s.handler.dir && t.handler.since <= s.handler.since
    else t.handler == s.handler
  }

  lemma WriterDoesNotDisturb(s: State, a: WriterAction)
    requires TreeEnabled(s.tree, a)
    ensures Undisturbed(s, WriterNext(s, a))
    ensures WriterNext(s, a).closing == s.closing && WriterNext(s, a).topRemoved == s.topRemoved
    ensures WriterNext(s, a).tree == TreeNext(s.tree, a)
  {
  }

  /** The names of a set, in some order. */
  method Ordered(names: set<string>) returns (listing: seq<string>)
    ensures forall name :: name in listing <==> name in names
    ensures forall i, j :: 0 <= i < j < |listing| ==> listing[i] != listing[j]
  {
    listing := [];
    var unseen := names;
    while unseen != {}
      invariant unseen <= names
      invariant forall name :: name in listing <==> name in names && name !in unseen
      invariant forall i, j :: 0 <= i < j < |listing| ==> listing[i] != listing[j]
      decreases unseen
    {
      var name :| name in unseen;
      listing, unseen := listing + [name], unseen - {name};
    }
  }

  /** What has been sent of the records queued at first, after so many laps. */
  ghost predicate InTurn(first: seq<Option<Record>>, laps: nat, queued: seq<Option<Record>>,
                         before: seq<Record>, sent: seq<Record>) {
    if laps < |first| then queued == first[laps..] && sent == before + Unwrap(first[..laps])
    else before + Unwrap(first) <= sent
  }

  lemma NextInTurn(first: seq<Option<Record>>, laps: nat, queued: seq<Option<Record>>,
                   before: seq<Record>, sent: seq<Record>)
    requires laps < |first| && InTurn(first, laps, queued, before, sent)
    ensures queued != [] && InTurn(first, laps + 1, queued[1..], before, sent + Unwrap([queued[0]]))
  {
    var next := first[laps];
    UnwrapAppend(first[..laps], next);
    assert first[..laps + 1] == first[..laps] + [next];
    assert Unwrap([next]) == if next.Some? then [next.value] else [] by {
      assert [next][1..] == [];
    }
    assert laps + 1 == |first| ==> first[..laps + 1] == first;
  }

  /** `tree`, `topRemoved`, `watching`, `watched` and `events` belong to the file system, `sent` is what went out on C. */
  class FeatureMonitor {
    const parses: string -> bool
    var tree: Tree
    var topRemoved: bool
    var watching: bool
    var watched: set<string>
    var events: seq<Event>
    var queued: seq<Option<Record>>
    var sent: seq<Record>
    var closed: bool
    ghost var state: State
    ghost var run: seq<State>

    ghost predicate Logged()
      reads this
    {
      Behavior(run) && run[|run| - 1] == state
    }

    ghost predicate Valid()
      reads this
    {
      Logged() && state.tree == tree && state.topRemoved == topRemoved &&
      state.watched == watched && state.events == events &&
      state.output.queue == queued && state.output.delivered == sent && state.closing.requested == closed &&
      (forall host :: host in state.hosts <==> parses(host)) &&
      (watching <==> state.phase != Starting && state.phase != Exited) &&
      (state.phase == Starting ==> watched == {})
    }

    constructor (parses: string -> bool, tree: Tree)
      requires forall path :: path in tree.files ==> path.0 in tree.dirs
      ensures Valid() && state.phase == Starting && state.handler == Idle && this.tree == tree && this.parses == parses
    {
      this.parses, this.tree, topRemoved, watching, watched, events := parses, tree, false, false, {}, [];
      queued, sent, closed := [], [], false;
      state := State((iset host | parses(host)), tree, false, {}, [], Starting, Idle, Output([], [], [], []),
                     Closing(false, 0, 0));
      new;
      run := [state];
    }

    ghost method Log(a: Action)
      requires Logged() && Enabled(state, a)
      modifies `state, `run
      ensures Logged() && state == Step(old(state), a) && run == old(run) + [state]
    {
      assert Next(state, Step(state, a));
      state := Step(state, a);
      run := run + [state];
    }

    ghost method LogWatch(a: MonitorAction)
      requires Logged() && MonitorEnabled(state, a)
      modifies `state, `run
      ensures Logged() && state == MonitorNext(old(state), a) && run == old(run) + [state]
    {
      Log(Watch(a));
    }

    /** One step of the writer, and the event it causes. */
    method WriterStep(a: WriterAction)
      requires Valid() && TreeEnabled(tree, a)
      modifies `tree, `topRemoved, `events, `state, `run
      ensures Valid() && old(run) <= run && Undisturbed(old(state), state)
    {
      if watching && if a.Mkdir? then !topRemoved else a.path.0 in watched {
        events := Emit(events, Reported(a), a.coalesce);
      }
      tree := TreeNext(tree, a);
      WriterDoesNotDisturb(state, a);
      Log(Write(a));
    }

    /** Someone removes the empty top directory. */
    method RemoveTopStep()
      requires Valid() && tree.dirs == {} && !topRemoved && watching
      modifies `topRemoved, `events, `state, `run
      ensures Valid() && old(run) <= run && Undisturbed(old(state), state)
    {
      topRemoved, events := true, events + [TopRemoved];
      Log(RemoveTop);
    }

    /** The writer, those who call Close and others may take any steps here. */
    method Others()
      requires Valid()
      modifies `tree, `topRemoved, `events, `closed, `state, `run
      ensures Valid() && old(run) <= run && Undisturbed(old(state), state)
    {
      var n: nat := *;
      while n > 0
        invariant Valid() && old(run) <= run && Undisturbed(old(state), state)
      {
        var a: WriterAction := *;
        if * {
          closed := true;
          Log(Close);
        } else if * {
          if tree.dirs == {} && !topRemoved && watching {
            RemoveTopStep();
          }
        } else if TreeEnabled(tree, a) {
          WriterStep(a);
        }
        n := n - 1;
      }
    }

    /** Opens and reads the file, if its name parses and it exists. `a` says whether a scan or an event led to it. */
    method ReadHost(path: Path, ghost a: MonitorAction)
      requires Valid() && (a == OpenFile || a == NextHost) && MonitorEnabled(state, a)
      requires path == if a == OpenFile then state.handler.path else (state.handler.dir, state.handler.hosts[0])
      modifies `queued, `state, `run
      ensures Valid() && old(run) <= run && state == MonitorNext(old(state), a)
      ensures queued == old(queued) +
        if parses(path.1) && path in tree.files then [Some(Record(path, Some(tree.files[path])))] else []
    {
      if parses(path.1) && path in tree.files {
        queued := queued + [Some(Record(path, Some(tree.files[path])))];
      }
      LogWatch(a);
    }

    method StatHost(path: Path)
      requires Valid() && state.handler == Handler.RemoveHost(path)
      modifies `queued, `state, `run
      ensures Valid() && old(run) <= run && state == MonitorNext(old(state), StatFile)
      ensures queued == old(queued) + if parses(path.1) && path !in tree.files then [Some(Record(path, None))] else []
    {
      if parses(path.1) && path !in tree.files {
        queued := queued + [Some(Record(path, None))];
      }
      LogWatch(StatFile);
    }

    method AddHost(path: Path, ghost a: MonitorAction)
      requires Valid() && (a == OpenFile || a == NextHost) && MonitorEnabled(state, a)
      requires path == if a == OpenFile then state.handler.path else (state.handler.dir, state.handler.hosts[0])
      modifies `tree, `topRemoved, `events, `closed, `queued, `state, `run
      ensures Valid() && old(run) <= run && state.phase == old(state.phase)
      ensures state.handler == if a == OpenFile then Idle else AddHosts(path.0, old(state.handler.hosts[1..]))
      ensures queued == old(queued) +
        if parses(path.1) && path in tree.files then [Some(Record(path, Some(tree.files[path])))] else []
    {
      Others();
      ReadHost(path, a);
    }

    method RemoveHost(path: Path)
      requires Valid() && state.handler == Handler.RemoveHost(path)
      modifies `tree, `topRemoved, `events, `closed, `queued, `state, `run
      ensures Valid() && old(run) <= run && state.phase == old(state.phase) && state.handler == Idle
      ensures queued == old(queued) + if parses(path.1) && path !in tree.files then [Some(Record(path, None))] else []
    {
      Others();
      StatHost(path);
    }

    method AddWatch(dir: string)
      requires Valid() && state.handler == Handler.AddWatch(dir) && state.phase != Starting
      modifies `tree, `topRemoved, `events, `closed, `watched, `state, `run
      ensures Valid() && old(run) <= run && state.phase == old(state.phase)
      ensures state.handler.ReadDir? && state.handler.dir == dir && watched == old(watched) + {dir}
    {
      Others();
      watched := watched + {dir};
      LogWatch(WatchDir);
    }

    /**
     Listing takes time: names are read one by one, some of files that are gone by then. A file that nothing happens
     to is listed.
    */
    method ListNames(dir: string) returns (hosts: seq<string>)
      requires Valid() && state.handler.ReadDir? && state.handler.dir == dir
      modifies `tree, `topRemoved, `events, `closed, `state, `run
      ensures Valid() && old(run) <= run && state.phase == old(state.phase)
      ensures state.handler.ReadDir? && state.handler.dir == dir
      ensures forall host :: host in state.handler.since ==> host in hosts
    {
      Others();
      UntouchedIsThere(run, |run| - 1);
      var unread := HostsIn(tree.files, dir);
      hosts := [];
      while unread != {}
        invariant Valid() && old(run) <= run && state.phase == old(state.phase)
        invariant state.handler.ReadDir? && state.handler.dir == dir
        invariant forall host :: host in state.handler.since ==> host in unread || host in hosts
        decreases unread
      {
        var host :| host in unread;
        unread := unread - {host};
        Others();
        UntouchedIsThere(run, |run| - 1);
        var late: bool := *;
        if late || (dir, host) in tree.files {
          hosts := hosts + [host];
        }
      }
    }

    /** The watch comes before the listing, so no file is missed. */
    method AddWatchAndList(dir: string) returns (hosts: seq<string>)
      requires Valid() && state.handler == Handler.AddWatch(dir) && state.phase != Starting
      modifies `tree, `topRemoved, `events, `closed, `watched, `state, `run
      ensures Valid() && old(run) <= run && state.phase == old(state.phase) && state.handler == AddHosts(dir, hosts)
      ensures watched == old(watched) + {dir}
      ensures |run| > 1 && run[|run| - 2].handler.ReadDir?
      ensures forall host :: host in run[|run| - 2].handler.since ==> host in hosts
    {
      AddWatch(dir);
      hosts := ListNames(dir);
      LogWatch(ListDir(hosts));
    }

    method AddFeature(dir: string)
      requires Valid() && state.handler == Handler.AddWatch(dir) && state.phase != Starting
      modifies `tree, `topRemoved, `events, `closed, `watched, `queued, `state, `run
      ensures Valid() && old(run) <= run && state.phase == old(state.phase) && state.handler == Idle
      ensures watched == old(watched) + {dir} && old(queued) <= queued
    {
      var hosts := AddWatchAndList(dir);
      var i := 0;
      while i < |hosts|
        invariant 0 <= i <= |hosts| && Valid() && old(run) <= run && state.phase == old(state.phase)
        invariant state.handler == AddHosts(dir, hosts[i..])
        invariant watched == old(watched) + {dir} && old(queued) <= queued
      {
        AddHost((dir, hosts[i]), NextHost);
        i := i + 1;
      }
      LogWatch(EndScan);
    }

    /** The boot scan. */
    method Scan()
      requires Valid() && state.phase == Starting && state.handler == Idle
      modifies this
      ensures Valid() && old(run) <= run && state.phase == Booting([]) && state.handler == Idle
    {
      var dirs := WatchAndListTop();
      var i := 0;
      while i < |dirs|
        invariant 0 <= i <= |dirs| && Valid() && old(run) <= run
        invariant state.phase == Booting(dirs[i..]) && state.handler == Idle
      {
        LogWatch(NextDir);
        AddFeature(dirs[i]);
        i := i + 1;
      }
    }

    method WatchAndListTop() returns (dirs: seq<string>)
      requires Valid() && state.phase == Starting && state.handler == Idle
      modifies this
      ensures Valid() && old(run) <= run && state.phase == Booting(dirs) && state.handler == Idle
    {
      Others();
      watching := true;
      LogWatch(WatchTop);
      Others();
      dirs := Ordered(tree.dirs);
      Others();
      LogWatch(ListTop(dirs));
    }

    /** All of it before the loop: the scan, then the mark of its end. */
    method Boot()
      requires Valid() && state.phase == Starting && state.handler == Idle
      modifies this
      ensures Valid() && old(run) <= run && state.phase == Looping && state.handler == Idle
      ensures queued != [] && queued[|queued| - 1] == None && AllRecords(queued[..|queued| - 1])
    {
      Scan();
      queued := queued + [None];
      LogWatch(EndBootScan);
      BehaviorKeepsInv(run, |run| - 1);
    }

    /** Returns at the end of the top directory. */
    method HandleEvent() returns (returned: bool)
      requires Valid() && state.phase == Looping && state.handler == Idle && queued == [] && events != []
      modifies `tree, `topRemoved, `watching, `events, `closed, `watched, `queued, `state, `run
      ensures Valid() && old(run) <= run && state.handler == Idle
      ensures state.phase == if returned then Exited else Looping
      ensures |run| > |old(run)| && run[|old(run)|] == MonitorNext(old(state), TakeEvent)
      ensures returned <==> old(events[0]) == TopRemoved
    {
      var event := events[0];
      events := events[1..];
      returned := event == TopRemoved;
      if returned {
        watching := false;
      }
      LogWatch(TakeEvent);
      match event
      case DirEvent(dir) => AddFeature(dir);
      case FileEvent(path, created) =>
        if created {
          AddHost(path, OpenFile);
        } else {
          RemoveHost(path);
        }
      case TopRemoved =>
    }

    /** Closes C and the watcher. */
    method Return()
      requires Valid() && Enabled(state, Exit)
      modifies `watching, `state, `run
      ensures Valid() && old(run) <= run && state == Step(old(state), Exit)
    {
      watching := false;
      Log(Exit);
    }

    method CloseBootOrDeliver()
      requires Valid() && state.phase == Looping && state.handler == Idle && queued != []
      modifies `queued, `sent, `state, `run
      ensures Valid() && old(run) <= run && state.phase == Looping && state.handler == Idle
      ensures queued == old(queued[1..])
      ensures sent == old(sent) + if old(queued[0]).Some? then [old(queued[0]).value] else []
      ensures state.closing.bootCloses == old(state.closing.bootCloses) + if old(queued[0]) == None then 1 else 0
    {
      var outstanding := queued[0];
      queued := queued[1..];
      if outstanding == None {
        LogWatch(CloseBoot);
      } else {
        sent := sent + [outstanding.value];
        LogWatch(Deliver);
      }
    }

    /**
     One lap. The end-of-boot mark is taken before anything else; no event is taken while a record is
     outstanding; it returns only when closed or when the top directory is gone, and blocks only when there is nothing
     to do.
    */
    method SelectCase() returns (returned: bool)
      requires Valid() && state.phase == Looping && state.handler == Idle
      modifies this
      ensures Valid() && old(run) <= run && state.handler == Idle
      ensures state.phase == if returned then Exited else Looping
      ensures returned ==> sent == old(sent) && (old(queued) == [] || old(queued[0]).Some?)
      ensures returned ==> old(closed) || (old(queued) == [] && old(events) != [] && old(events[0]) == TopRemoved)
      ensures !returned && old(queued) != [] ==>
        queued == old(queued[1..]) && sent == old(sent) + Unwrap([old(queued[0])]) && events == old(events)
      ensures !returned && old(queued) == [] ==> sent == old(sent)
      ensures !returned && old(queued) == [] && old(events) != [] ==>
        |run| > |old(run)| && run[|old(run)|] == MonitorNext(old(state), TakeEvent)
      ensures !returned && old(queued) == [] && old(events) == [] ==> state == old(state) && !closed
    {
      returned := false;
      if queued != [] && queued[0] == None {
        CloseBootOrDeliver();
        return;
      }
      if
      case queued != [] => CloseBootOrDeliver();
      case queued == [] && events != [] => returned := HandleEvent();
      case closed =>
        Return();
        returned := true;
      case queued == [] && events == [] && !closed =>
    }

    /**
     For as many laps as it is given. Until it returns each lap takes one of the records outstanding at the
     start, in order. Whenever it pauses with no event and no record pending, what it has sent replays
     to the tree; when it has returned, C is closed.
    */
    method WatchLoop(laps: nat) returns (returned: bool)
      requires Valid() && state.phase == Looping && state.handler == Idle
      modifies this
      ensures Valid() && old(run) <= run
      ensures state.closing.outputCloses == if returned then 1 else 0
      ensures !returned ==> InTurn(old(queued), laps, queued, old(sent), sent)
      ensures !returned && events == [] && queued == [] ==>
        Replay(sent) == map path | path in tree.files && parses(path.1) :: tree.files[path]
    {
      returned := false;
      ghost var first, before := queued, sent;
      var lap := 0;
      while lap < laps && !returned
        invariant Valid() && old(run) <= run && state.handler == Idle && lap <= laps
        invariant state.phase == if returned then Exited else Looping
        invariant !returned ==> InTurn(first, lap, queued, before, sent)
        decreases laps - lap
      {
        Others();
        if lap < |first| {
          NextInTurn(first, lap, queued, before, sent);
        }
        returned := SelectCase();
        lap := lap + 1;
      }
      Paused(returned);
    }

    /** What holds of the whole run holds of the paused monitor. */
    lemma Paused(returned: bool)
      requires Valid() && state.handler == Idle && state.phase == if returned then Exited else Looping
      ensures state.closing.outputCloses == if returned then 1 else 0
      ensures !returned && events == [] && queued == [] ==>
        Replay(sent) == map path | path in tree.files && parses(path.1) :: tree.files[path]
    {
      BootAndCloseDiscipline(run, |run| - 1);
      if !returned && events == [] && queued == [] {
        DrainedViewIsTree(run, |run| - 1);
      }
    }
  }
}
