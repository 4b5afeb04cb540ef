/**
 A feature monitor (go/nameq.go) watching a state tree while its writer (service/state.go) changes it.
 The writer makes directories, renames files into place and removes files; someone else may remove the top
 directory while it is empty. Each of these steps, and each watch, open and stat of the monitor, is atomic, and
 they interleave in any order. A listing takes time: it is sure to have only what stayed as it was meanwhile.
*/
module Monitor {
  import opened Base

  /** A file by feature directory and host name. */
  type Path = (string, string)

  datatype Tree = Tree(dirs: set<string>, files: map<Path, string>)

  /** What a watch reports: a directory made, a file renamed into or removed from a watched one, or the end of the top. */
  datatype Event = DirEvent(dir: string) | FileEvent(path: Path, created: bool) | TopRemoved

  /** A feature's data on a host, or its removal. */
  datatype Record = Record(path: Path, data: Option<string>)

  /** While the top is listed, `since` are the directories there have been since it was watched. */
  datatype Phase = Starting | ListingTop(since: set<string>) | Booting(todo: seq<string>) | Looping | Exited

  /**
   Where the monitor stands within addFeature, addHost or removeHost. While a directory is listed, `since` are the
   names of the files in it that nothing has happened to since it was watched.
  */
  datatype Handler =
    | Idle
    | AddWatch(dir: string)
    | ReadDir(dir: string, since: set<string>)
    | AddHosts(dir: string, hosts: seq<string>)
    | AddHost(path: Path)
    | RemoveHost(path: Path)

  /**
   `None` in the queue marks the end of boot. `accepted` and `boot` are history: all records queued, and
   those of the boot scan.
  */
  datatype Output = Output(queue: seq<Option<Record>>, delivered: seq<Record>, accepted: seq<Record>, boot: seq<Record>)

  datatype Closing = Closing(requested: bool, bootCloses: nat, outputCloses: nat)

  /** `hosts` are the file names that parse as addresses; no step changes them. */
  datatype State = State(hosts: iset<string>, tree: Tree, topRemoved: bool, watched: set<string>, events: seq<Event>,
                         phase: Phase, handler: Handler, output: Output, closing: Closing)

  datatype WriterAction =
    | Mkdir(dir: string, coalesce: bool)
    | Rename(path: Path, data: string, coalesce: bool)
    | Remove(path: Path, coalesce: bool)

  datatype MonitorAction =
    | WatchTop
    | ListTop(dirs: seq<string>)
    | NextDir
    | EndBootScan
    | WatchDir
    | ListDir(hosts: seq<string>)
    | NextHost
    | EndScan
    | TakeEvent
    | OpenFile
    | StatFile
    | CloseBoot
    | Deliver

  datatype Action = Write(writer: WriterAction) | RemoveTop | Watch(monitor: MonitorAction) | Close | Exit

  ghost predicate Init(s: State) {
    (forall path :: path in s.tree.files ==> path.0 in s.tree.dirs) &&
    !s.topRemoved && s.watched == {} && s.events == [] && s.phase == Starting && s.handler == Idle &&
    s.output == Output([], [], [], []) && s.closing == Closing(false, 0, 0)
  }

  /** An event identical to the last pending one may be merged with it. */
  function Emit(events: seq<Event>, event: Event, coalesce: bool): seq<Event> {
    if coalesce && events != [] && events[|events| - 1] == event then events else events + [event]
  }

  function Enqueue(output: Output, record: Record): Output {
    output.(queue := output.queue + [Some(record)], accepted := output.accepted + [record])
  }

  predicate TreeEnabled(tree: Tree, a: WriterAction) {
    match a
    case Mkdir(dir, _) => dir !in tree.dirs
    case Rename(path, _, _) => path.0 in tree.dirs
    case Remove(path, _) => path in tree.files
  }

  function TreeNext(tree: Tree, a: WriterAction): Tree {
    match a
    case Mkdir(dir, _) => tree.(dirs := tree.dirs + {dir})
    case Rename(path, data, _) => tree.(files := tree.files[path := data])
    case Remove(path, _) => tree.(files := tree.files - {path})
  }

  /** What a watch would see of the step, if there is one on its directory. */
  function Reported(a: WriterAction): Event {
    match a
    case Mkdir(dir, _) => DirEvent(dir)
    case Rename(path, _, _) => FileEvent(path, true)
    case Remove(path, _) => FileEvent(path, false)
  }

  predicate Watching(s: State, a: WriterAction) {
    match a
    case Mkdir(_, _) => s.phase != Starting && s.phase != Exited && !s.topRemoved
    case Rename(path, _, _) => path.0 in s.watched && s.phase != Exited
    case Remove(path, _) => path.0 in s.watched && s.phase != Exited
  }

  function HostsIn(files: map<Path, string>, dir: string): (hosts: set<string>)
    ensures forall host :: host in hosts <==> (dir, host) in files
  {
    var hosts := set path | path in files && path.0 == dir :: path.1;
    assert forall host :: (dir, host) in files ==> (dir, host).1 in hosts;
    hosts
  }

  /** A listing may miss a file that is replaced or removed. */
  function Touched(handler: Handler, a: WriterAction): Handler {
    if handler.ReadDir? && !a.Mkdir? && a.path.0 == handler.dir then handler.(since := handler.since - {a.path.1})
    else handler
  }

  function WriterNext(s: State, a: WriterAction): State {
    s.(tree := TreeNext(s.tree, a), handler := Touched(s.handler, a),
       events := if Watching(s, a) then Emit(s.events, Reported(a), a.coalesce) else s.events)
  }

  ghost predicate MonitorEnabled(s: State, a: MonitorAction) {
    match a
    case WatchTop => s.phase == Starting
    case ListTop(dirs) =>
      s.phase.ListingTop? && (forall dir :: dir in s.phase.since ==> dir in dirs) &&
      forall dir :: dir in dirs ==> dir in s.tree.dirs
    case NextDir => s.phase.Booting? && s.handler == Idle && s.phase.todo != []
    case EndBootScan => s.phase == Booting([]) && s.handler == Idle
    case WatchDir => s.handler.AddWatch?
    case ListDir(hosts) =>
      s.handler.ReadDir? && forall host :: host in s.handler.since ==> host in hosts
    case NextHost => s.handler.AddHosts? && s.handler.hosts != []
    case EndScan => s.handler.AddHosts? && s.handler.hosts == []
    case TakeEvent => s.phase == Looping && s.handler == Idle && s.output.queue == [] && s.events != []
    case OpenFile => s.handler.AddHost?
    case StatFile => s.handler.RemoveHost?
    case CloseBoot => s.phase == Looping && s.handler == Idle && s.output.queue != [] && s.output.queue[0] == None
    case Deliver => s.phase == Looping && s.handler == Idle && s.output.queue != [] && s.output.queue[0].Some?
  }

  /** A file that cannot be opened any more, or whose name is no address, is skipped. */
  ghost function Opened(s: State, path: Path): Output {
    if path in s.tree.files && path.1 in s.hosts then Enqueue(s.output, Record(path, Some(s.tree.files[path])))
    else s.output
  }

  ghost function Statted(s: State, path: Path): Output {
    if path !in s.tree.files && path.1 in s.hosts then Enqueue(s.output, Record(path, None)) else s.output
  }

  function HandlerOf(event: Event): Handler {
    match event
    case DirEvent(dir) => AddWatch(dir)
    case FileEvent(path, created) => if created then AddHost(path) else RemoveHost(path)
    case TopRemoved => Idle
  }

  function ExitNow(s: State): State {
    s.(phase := Exited, closing := s.closing.(outputCloses := s.closing.outputCloses + 1))
  }

  ghost function MonitorNext(s: State, a: MonitorAction): State
    requires MonitorEnabled(s, a)
  {
    match a
    case WatchTop => s.(phase := ListingTop(s.tree.dirs))
    case ListTop(dirs) => s.(phase := Booting(dirs))
    case NextDir => s.(phase := Booting(s.phase.todo[1..]), handler := AddWatch(s.phase.todo[0]))
    case EndBootScan =>
      s.(phase := Looping, output := s.output.(queue := s.output.queue + [None], boot := s.output.accepted))
    case WatchDir =>
      s.(watched := s.watched + {s.handler.dir},
         handler := ReadDir(s.handler.dir, HostsIn(s.tree.files, s.handler.dir)))
    case ListDir(hosts) => s.(handler := AddHosts(s.handler.dir, hosts))
    case NextHost =>
      s.(output := Opened(s, (s.handler.dir, s.handler.hosts[0])),
         handler := AddHosts(s.handler.dir, s.handler.hosts[1..]))
    case EndScan => s.(handler := Idle)
    case TakeEvent =>
      var t := s.(events := s.events[1..], handler := HandlerOf(s.events[0]));
      if s.events[0] == TopRemoved then ExitNow(t) else t
    case OpenFile => s.(output := Opened(s, s.handler.path), handler := Idle)
    case StatFile => s.(output := Statted(s, s.handler.path), handler := Idle)
    case CloseBoot =>
      s.(output := s.output.(queue := s.output.queue[1..]),
         closing := s.closing.(bootCloses := s.closing.bootCloses + 1))
    case Deliver =>
      s.(output := s.output.(queue := s.output.queue[1..],
                             delivered := s.output.delivered + [s.output.queue[0].value]))
  }

  /** The loop takes a close request only where it selects, which is not while the end-of-boot mark is next. */
  ghost predicate Enabled(s: State, a: Action) {
    match a
    case Write(b) => TreeEnabled(s.tree, b)
    case RemoveTop => s.phase != Starting && s.tree.dirs == {} && !s.topRemoved
    case Watch(b) => MonitorEnabled(s, b)
    case Close => true
    case Exit =>
      s.phase == Looping && s.handler == Idle && s.closing.requested &&
      (s.output.queue != [] ==> s.output.queue[0].Some?)
  }

  ghost function Step(s: State, a: Action): State
    requires Enabled(s, a)
  {
    match a
    case Write(b) => WriterNext(s, b)
    case RemoveTop =>
      s.(topRemoved := true, events := if s.phase == Exited then s.events else s.events + [TopRemoved])
    case Watch(b) => MonitorNext(s, b)
    case Close => s.(closing := s.closing.(requested := true))
    case Exit => ExitNow(s)
  }

  ghost predicate Next(s: State, t: State) {
    exists a :: Enabled(s, a) && t == Step(s, a)
  }

  lemma Taken(s: State, t: State) returns (a: Action)
    requires Next(s, t)
    ensures Enabled(s, a) && t == Step(s, a)
  {
    a :| Enabled(s, a) && t == Step(s, a);
  }

  ghost predicate Behavior(run: seq<State>) {
    |run| > 0 && Init(run[0]) && forall i, j :: 0 <= i && j == i + 1 < |run| ==> Next(run[i], run[j])
  }

  // The view a client builds from the records.

  function Replay(records: seq<Record>): map<Path, string> {
    if records == [] then map[]
    else
      var view, last := Replay(records[..|records| - 1]), records[|records| - 1];
      if last.data.Some? then view[last.path := last.data.value] else view - {last.path}
  }

  lemma ReplayAppend(records: seq<Record>, record: Record)
    ensures Replay(records + [record]) ==
      if record.data.Some? then Replay(records)[record.path := record.data.value]
      else Replay(records) - {record.path}
  {
    assert (records + [record])[..|records|] == records;
  }

  ghost predicate Agree(s: State, path: Path) {
    var view := Replay(s.output.accepted);
    if path in s.tree.files then path in view && view[path] == s.tree.files[path] else path !in view
  }

  // Pending events: the one being handled, then those in the queue.

  function InHand(handler: Handler): seq<Event> {
    match handler
    case AddHost(path) => [FileEvent(path, true)]
    case RemoveHost(path) => [FileEvent(path, false)]
    case _ => []
  }

  function Pending(s: State): seq<Event> {
    InHand(s.handler) + s.events
  }

  /** Whether the last pending event of the path is a creation. */
  function LastKind(events: seq<Event>, path: Path): Option<bool> {
    if events == [] then None
    else
      var rest := LastKind(events[1..], path);
      if rest.Some? then rest
      else if events[0].FileEvent? && events[0].path == path then Some(events[0].created)
      else None
  }

  lemma {:induction false} LastKindAppend(events: seq<Event>, event: Event, path: Path)
    ensures LastKind(events + [event], path) ==
      if event.FileEvent? && event.path == path then Some(event.created) else LastKind(events, path)
  {
    if events != [] {
      assert (events + [event])[1..] == events[1..] + [event];
      LastKindAppend(events[1..], event, path);
    } else {
      assert LastKind((events + [event])[1..], path) == None;
    }
  }

  lemma LastKindCons(event: Event, rest: seq<Event>, path: Path)
    ensures LastKind([event] + rest, path) ==
      if LastKind(rest, path).Some? then LastKind(rest, path)
      else if event.FileEvent? && event.path == path then Some(event.created)
      else None
  {
    assert ([event] + rest)[1..] == rest;
  }

  lemma EmitKeepsLast(inHand: seq<Event>, events: seq<Event>, event: Event, coalesce: bool, path: Path)
    ensures LastKind(inHand + Emit(events, event, coalesce), path) ==
      if event.FileEvent? && event.path == path then Some(event.created) else LastKind(inHand + events, path)
  {
    if Emit(events, event, coalesce) == events + [event] {
      LastKindAppend(inHand + events, event, path);
      assert inHand + (events + [event]) == (inHand + events) + [event];
    } else {
      var init := events[..|events| - 1];
      assert inHand + events == (inHand + init) + [event];
      LastKindAppend(inHand + init, event, path);
    }
  }

  // The invariant.

  /** A directory not yet watched is going to be. */
  predicate DirPending(s: State, dir: string) {
    s.phase == Starting || (s.phase.ListingTop? && dir in s.phase.since) || (s.phase.Booting? && dir in s.phase.todo) ||
    s.handler == AddWatch(dir) || DirEvent(dir) in s.events
  }

  /** The scan under way has yet to open the file. */
  predicate ScanPending(s: State, path: Path) {
    (s.handler.ReadDir? && s.handler.dir == path.0 && path.1 in s.handler.since) ||
    (s.handler.AddHosts? && s.handler.dir == path.0 && path.1 in s.handler.hosts)
  }

  ghost predicate WatchInv(s: State) {
    (forall path :: path in s.tree.files ==> path.0 in s.tree.dirs) &&
    (forall dir :: dir in s.tree.dirs && dir !in s.watched ==> DirPending(s, dir)) &&
    (forall event :: event in Pending(s) && event.FileEvent? ==> event.path.0 in s.watched) &&
    (forall path :: path in Replay(s.output.accepted) ==> path.0 in s.watched && path.1 in s.hosts) &&
    (s.handler.ReadDir? || s.handler.AddHosts? ==> s.handler.dir in s.watched)
  }

  /** A path in a watched directory agrees with the view, or something pending will make it agree. */
  ghost predicate Covered(s: State, path: Path) {
    LastKind(Pending(s), path).Some? || Agree(s, path) || (path in s.tree.files && ScanPending(s, path))
  }

  ghost predicate PathInv(s: State, path: Path) {
    path.0 in s.watched && path.1 in s.hosts ==>
      (LastKind(Pending(s), path).Some? ==> LastKind(Pending(s), path).value == (path in s.tree.files)) &&
      Covered(s, path)
  }

  ghost predicate AgreementInv(s: State) {
    s.phase != Exited && !s.topRemoved ==> WatchInv(s) && forall path :: PathInv(s, path)
  }

  lemma StepKeepsUntouched(s: State, a: Action)
    requires Untouched(s) && Enabled(s, a)
    ensures Untouched(Step(s, a))
  {
  }

  /** Nothing has happened to the files that a listing is sure to have. */
  ghost predicate Untouched(s: State) {
    s.handler.ReadDir? ==> forall host :: host in s.handler.since ==> (s.handler.dir, host) in s.tree.files
  }

  lemma {:induction false} UntouchedIsThere(run: seq<State>, i: nat)
    requires Behavior(run) && i < |run|
    ensures Untouched(run[i])
  {
    if i > 0 {
      UntouchedIsThere(run, i - 1);
      var a := Taken(run[i - 1], run[i]);
      StepKeepsUntouched(run[i - 1], a);
    }
  }

  /** Directories last, and the end of the top is going to be seen. */
  ghost predicate TopInv(s: State) {
    (s.topRemoved && s.phase != Exited ==> TopRemoved in s.events) &&
    (s.phase.ListingTop? ==> s.phase.since <= s.tree.dirs)
  }

  lemma StepKeepsTopInv(s: State, a: Action)
    requires TopInv(s) && Enabled(s, a)
    ensures TopInv(Step(s, a))
  {
    if a == Watch(TakeEvent) {
      assert s.events == [s.events[0]] + s.events[1..];
    }
  }

  lemma EmitKeepsEvents(events: seq<Event>, event: Event, coalesce: bool)
    ensures forall e :: e in Emit(events, event, coalesce) <==> e in events || e == event
  {
  }

  lemma WriterKeepsWatchInv(s: State, a: WriterAction)
    requires WatchInv(s) && TreeEnabled(s.tree, a) && s.phase != Exited && !s.topRemoved
    ensures WatchInv(WriterNext(s, a))
  {
    EmitKeepsEvents(s.events, Reported(a), a.coalesce);
  }

  lemma WriterKeepsPathInv(s: State, a: WriterAction, path: Path)
    requires WatchInv(s) && PathInv(s, path) && TreeEnabled(s.tree, a) && s.phase != Exited
    ensures PathInv(WriterNext(s, a), path)
  {
    EmitKeepsLast(InHand(s.handler), s.events, Reported(a), a.coalesce, path);
  }

  lemma OpenedView(s: State, path: Path)
    ensures Replay(Opened(s, path).accepted) ==
      if path in s.tree.files && path.1 in s.hosts then Replay(s.output.accepted)[path := s.tree.files[path]]
      else Replay(s.output.accepted)
  {
    if path in s.tree.files {
      ReplayAppend(s.output.accepted, Record(path, Some(s.tree.files[path])));
    }
  }

  lemma StattedView(s: State, path: Path)
    ensures Replay(Statted(s, path).accepted) ==
      if path !in s.tree.files && path.1 in s.hosts then Replay(s.output.accepted) - {path}
      else Replay(s.output.accepted)
  {
    ReplayAppend(s.output.accepted, Record(path, None));
  }

  lemma FileStepKeepsWatchInv(s: State, a: MonitorAction)
    requires WatchInv(s) && MonitorEnabled(s, a) && (a.NextHost? || a.OpenFile? || a.StatFile?)
    ensures WatchInv(MonitorNext(s, a))
  {
    match a
    case NextHost => OpenedView(s, (s.handler.dir, s.handler.hosts[0]));
    case OpenFile =>
      assert Pending(s)[0] == FileEvent(s.handler.path, true);
      OpenedView(s, s.handler.path);
    case StatFile => StattedView(s, s.handler.path);
  }

  /** A file event stays pending while it is handled. */
  lemma PendingAfterTaking(s: State)
    requires MonitorEnabled(s, TakeEvent)
    ensures Pending(s) == s.events
    ensures Pending(MonitorNext(s, TakeEvent)) == if s.events[0].FileEvent? then s.events else s.events[1..]
  {
    assert s.events == [s.events[0]] + s.events[1..];
  }

  lemma TakingKeepsDirPending(s: State, dir: string)
    requires MonitorEnabled(s, TakeEvent) && DirPending(s, dir)
    ensures DirPending(MonitorNext(s, TakeEvent), dir) || s.events[0] == TopRemoved
  {
    assert s.events == [s.events[0]] + s.events[1..];
  }

  lemma TakingKeepsWatchInv(s: State)
    requires WatchInv(s) && MonitorEnabled(s, TakeEvent)
    ensures s.events[0] != TopRemoved ==> WatchInv(MonitorNext(s, TakeEvent))
  {
    var t := MonitorNext(s, TakeEvent);
    PendingAfterTaking(s);
    forall dir | dir in s.tree.dirs && dir !in s.watched
      ensures DirPending(t, dir) || s.events[0] == TopRemoved
    {
      TakingKeepsDirPending(s, dir);
    }
    forall event | event in Pending(t)
      ensures event in Pending(s)
    {
    }
  }

  lemma MonitorKeepsWatchInv(s: State, a: MonitorAction)
    requires WatchInv(s) && MonitorEnabled(s, a)
    ensures MonitorNext(s, a).phase != Exited ==> WatchInv(MonitorNext(s, a))
  {
    match a
    case NextHost => FileStepKeepsWatchInv(s, a);
    case OpenFile => FileStepKeepsWatchInv(s, a);
    case StatFile => FileStepKeepsWatchInv(s, a);
    case TakeEvent => TakingKeepsWatchInv(s);
    case NextDir => assert s.phase.todo == [s.phase.todo[0]] + s.phase.todo[1..];
    case _ =>
  }

  lemma {:induction false} NoEventOutsideWatched(events: seq<Event>, watched: set<string>, path: Path)
    requires forall event :: event in events && event.FileEvent? ==> event.path.0 in watched
    requires path.0 !in watched
    ensures LastKind(events, path) == None
  {
    if events != [] {
      assert forall event :: event in events[1..] ==> event in events;
      assert events[0] in events;
      NoEventOutsideWatched(events[1..], watched, path);
    }
  }

  lemma NoKind(events: seq<Event>, path: Path)
    requires events != [] && !events[0].FileEvent?
    ensures LastKind(events, path) == LastKind(events[1..], path)
  {
  }

  lemma TakingKeepsLastKind(s: State, path: Path)
    requires MonitorEnabled(s, TakeEvent)
    ensures LastKind(Pending(MonitorNext(s, TakeEvent)), path) == LastKind(Pending(s), path)
  {
    PendingAfterTaking(s);
    if !s.events[0].FileEvent? {
      NoKind(s.events, path);
    }
  }

  /** Taking an event leaves it pending. */
  lemma TakingKeepsPathInv(s: State, path: Path)
    requires PathInv(s, path) && MonitorEnabled(s, TakeEvent)
    ensures PathInv(MonitorNext(s, TakeEvent), path)
  {
    TakingKeepsLastKind(s, path);
    var t := MonitorNext(s, TakeEvent);
    assert Agree(t, path) == Agree(s, path) && !ScanPending(s, path);
  }

  /** Handling an event settles its path, unless a later event will. */
  lemma OpeningKeepsPathInv(s: State, path: Path)
    requires PathInv(s, path) && MonitorEnabled(s, OpenFile)
    ensures PathInv(MonitorNext(s, OpenFile), path)
  {
    OpenedView(s, s.handler.path);
    LastKindCons(FileEvent(s.handler.path, true), s.events, path);
    assert Pending(MonitorNext(s, OpenFile)) == s.events;
  }

  lemma StattingKeepsPathInv(s: State, path: Path)
    requires PathInv(s, path) && MonitorEnabled(s, StatFile)
    ensures PathInv(MonitorNext(s, StatFile), path)
  {
    StattedView(s, s.handler.path);
    LastKindCons(FileEvent(s.handler.path, false), s.events, path);
    assert Pending(MonitorNext(s, StatFile)) == s.events;
  }

  /** A directory just watched has no events yet, and all of its files are going to be listed or touched. */
  lemma WatchingKeepsPathInv(s: State, path: Path)
    requires WatchInv(s) && PathInv(s, path) && MonitorEnabled(s, WatchDir)
    ensures PathInv(MonitorNext(s, WatchDir), path)
  {
    if path.0 !in s.watched {
      NoEventOutsideWatched(Pending(s), s.watched, path);
    }
    var t := MonitorNext(s, WatchDir);
    assert Pending(t) == Pending(s) && Agree(t, path) == Agree(s, path);
  }

  lemma MonitorKeepsPathInv(s: State, a: MonitorAction, path: Path)
    requires WatchInv(s) && PathInv(s, path) && MonitorEnabled(s, a)
    ensures PathInv(MonitorNext(s, a), path)
  {
    match a
    case WatchDir => WatchingKeepsPathInv(s, path);
    case NextHost => OpenedView(s, (s.handler.dir, s.handler.hosts[0]));
    case TakeEvent => TakingKeepsPathInv(s, path);
    case OpenFile => OpeningKeepsPathInv(s, path);
    case StatFile => StattingKeepsPathInv(s, path);
    case _ =>
  }

  lemma StepKeepsAgreementInv(s: State, a: Action)
    requires AgreementInv(s) && Enabled(s, a)
    requires s.phase == Exited ==> s.handler == Idle
    ensures AgreementInv(Step(s, a))
  {
    if s.phase != Exited && Step(s, a).phase != Exited && !Step(s, a).topRemoved {
      match a
      case Write(b) =>
        WriterKeepsWatchInv(s, b);
        forall path
          ensures PathInv(Step(s, a), path)
        {
          WriterKeepsPathInv(s, b, path);
        }
      case Watch(b) =>
        MonitorKeepsWatchInv(s, b);
        forall path
          ensures PathInv(Step(s, a), path)
        {
          MonitorKeepsPathInv(s, b, path);
        }
      case Close =>
        forall path
          ensures PathInv(Step(s, a), path)
        {
          assert PathInv(s, path);
        }
      case _ =>
    }
  }

  // Delivery, boot and close.

  function Unwrap(queue: seq<Option<Record>>): seq<Record> {
    if queue == [] then []
    else if queue[0].Some? then [queue[0].value] + Unwrap(queue[1..])
    else Unwrap(queue[1..])
  }

  lemma {:induction false} UnwrapAppend(queue: seq<Option<Record>>, item: Option<Record>)
    ensures Unwrap(queue + [item]) == Unwrap(queue) + if item.Some? then [item.value] else []
  {
    if queue != [] {
      assert (queue + [item])[1..] == queue[1..] + [item];
      UnwrapAppend(queue[1..], item);
    } else {
      assert Unwrap((queue + [item])[1..]) == [];
    }
  }

  ghost predicate AllRecords(queue: seq<Option<Record>>) {
    forall i :: 0 <= i < |queue| ==> queue[i].Some?
  }

  ghost predicate OutputInv(s: State) {
    s.output.accepted == s.output.delivered + Unwrap(s.output.queue) &&
    s.closing.outputCloses == (if s.phase == Exited then 1 else 0) &&
    (s.phase == Starting || s.phase.ListingTop? || s.phase == Exited ==> s.handler == Idle) &&
    match s.closing.bootCloses
    case 0 =>
      if s.phase == Looping || s.phase == Exited then
        s.handler == Idle && s.output.boot == s.output.accepted && s.output.queue != [] &&
        s.output.queue[|s.output.queue| - 1] == None && AllRecords(s.output.queue[..|s.output.queue| - 1])
      else
        s.output.delivered == [] && AllRecords(s.output.queue)
    case 1 =>
      (s.phase == Looping || s.phase == Exited) && s.output.boot <= s.output.delivered && AllRecords(s.output.queue)
    case _ => false
  }

  /** Queuing a record, where the handler allows it, keeps the invariant. */
  lemma EnqueueKeepsOutputInv(s: State, record: Record, handler: Handler)
    requires OutputInv(s) && s.handler != Idle
    ensures OutputInv(s.(output := Enqueue(s.output, record), handler := handler))
  {
    UnwrapAppend(s.output.queue, Some(record));
  }

  lemma HandlerKeepsOutputInv(s: State, a: MonitorAction)
    requires OutputInv(s) && MonitorEnabled(s, a) && (a.NextHost? || a.OpenFile? || a.StatFile?)
    ensures OutputInv(MonitorNext(s, a))
  {
    var t := MonitorNext(s, a);
    var path := if a.NextHost? then (s.handler.dir, s.handler.hosts[0]) else s.handler.path;
    var data := if a.StatFile? || path !in s.tree.files then None else Some(s.tree.files[path]);
    EnqueueKeepsOutputInv(s, Record(path, data), t.handler);
  }

  /** While the end-of-boot mark is queued it is last, and first only when alone. */
  lemma BootQueueHead(queue: seq<Option<Record>>)
    requires queue != [] && queue[|queue| - 1] == None && AllRecords(queue[..|queue| - 1])
    ensures queue[0] == None ==> queue[1..] == []
    ensures queue[0].Some? ==>
      queue[1..] != [] && queue[1..][|queue| - 2] == None && AllRecords(queue[1..][..|queue| - 2])
  {
    assert |queue| > 1 ==> queue[..|queue| - 1][0] == queue[0];
    if |queue| > 1 {
      assert queue[1..][..|queue| - 2] == queue[..|queue| - 1][1..];
    }
  }

  lemma QueueKeepsOutputInv(s: State, a: MonitorAction)
    requires OutputInv(s) && MonitorEnabled(s, a) && (a.CloseBoot? || a.Deliver?)
    ensures OutputInv(MonitorNext(s, a))
  {
    var queue, delivered := s.output.queue, s.output.delivered;
    if s.closing.bootCloses == 0 {
      BootQueueHead(queue);
    }
    if a.Deliver? {
      assert (delivered + [queue[0].value]) + Unwrap(queue[1..]) == delivered + ([queue[0].value] + Unwrap(queue[1..]));
    }
  }

  lemma EndBootScanKeepsOutputInv(s: State)
    requires OutputInv(s) && MonitorEnabled(s, EndBootScan)
    ensures OutputInv(MonitorNext(s, EndBootScan))
  {
    UnwrapAppend(s.output.queue, None);
    assert (s.output.queue + [None])[..|s.output.queue|] == s.output.queue;
  }

  lemma MonitorKeepsOutputInv(s: State, a: MonitorAction)
    requires OutputInv(s) && MonitorEnabled(s, a)
    ensures OutputInv(MonitorNext(s, a))
  {
    match a
    case NextHost => HandlerKeepsOutputInv(s, a);
    case OpenFile => HandlerKeepsOutputInv(s, a);
    case StatFile => HandlerKeepsOutputInv(s, a);
    case EndBootScan => EndBootScanKeepsOutputInv(s);
    case CloseBoot => QueueKeepsOutputInv(s, a);
    case Deliver => QueueKeepsOutputInv(s, a);
    case _ =>
  }

  lemma StepKeepsOutputInv(s: State, a: Action)
    requires OutputInv(s) && Enabled(s, a)
    ensures OutputInv(Step(s, a))
  {
    if a.Watch? {
      MonitorKeepsOutputInv(s, a.monitor);
    }
  }

  lemma {:induction false} BehaviorKeepsInv(run: seq<State>, i: nat)
    requires Behavior(run) && i < |run|
    ensures AgreementInv(run[i]) && OutputInv(run[i]) && TopInv(run[i])
  {
    if i > 0 {
      BehaviorKeepsInv(run, i - 1);
      var a := Taken(run[i - 1], run[i]);
      StepKeepsTopInv(run[i - 1], a);
      StepKeepsAgreementInv(run[i - 1], a);
      StepKeepsOutputInv(run[i - 1], a);
    }
  }

  /**
   Whatever the interleaving, a path on which tree and view differ has an event or a scan pending for it, or the
   monitor is about to exit.
  */
  lemma DifferenceIsPending(run: seq<State>, i: nat, path: Path)
    requires Behavior(run) && i < |run| && run[i].phase != Exited
    requires path.1 in run[i].hosts && !Agree(run[i], path)
    ensures LastKind(Pending(run[i]), path).Some? || ScanPending(run[i], path) ||
      (path.0 !in run[i].watched && DirPending(run[i], path.0)) || TopRemoved in run[i].events
  {
    BehaviorKeepsInv(run, i);
    assert run[i].topRemoved || PathInv(run[i], path);
  }

  /** The files a monitor reports on. */
  ghost function HostFiles(s: State): map<Path, string> {
    map path | path in s.tree.files && path.1 in s.hosts :: s.tree.files[path]
  }

  /** The monitor has nothing left to do. */
  predicate Drained(s: State) {
    s.phase == Looping && s.handler == Idle && s.events == [] && s.output.queue == []
  }

  /** With no event and no record pending, what was delivered replays to the tree. */
  lemma DrainedViewIsTree(run: seq<State>, i: nat)
    requires Behavior(run) && i < |run| && Drained(run[i])
    ensures Replay(run[i].output.delivered) == HostFiles(run[i])
  {
    BehaviorKeepsInv(run, i);
    var s := run[i];
    assert s.output.delivered + [] == s.output.delivered;
    forall path
      ensures path in Replay(s.output.accepted) <==> path in HostFiles(s)
      ensures path in HostFiles(s) ==> Replay(s.output.accepted)[path] == HostFiles(s)[path]
    {
      assert PathInv(s, path);
      assert LastKind(Pending(s), path) == None;
    }
  }

  /** Records are delivered in the order accepted, Boot is closed at most once and after the boot records, C once. */
  lemma BootAndCloseDiscipline(run: seq<State>, i: nat)
    requires Behavior(run) && i < |run|
    ensures run[i].output.delivered <= run[i].output.accepted
    ensures run[i].closing.bootCloses <= 1
    ensures run[i].closing.bootCloses == 1 ==> run[i].output.boot <= run[i].output.delivered
    ensures run[i].closing.outputCloses == if run[i].phase == Exited then 1 else 0
  {
    BehaviorKeepsInv(run, i);
  }

  // The monitor drains.

  function PhaseRank(phase: Phase): nat {
    match phase
    case Starting => 3
    case ListingTop(_) => 2
    case Booting(_) => 1
    case _ => 0
  }

  function HandlerRank(handler: Handler): nat {
    match handler
    case Idle => 0
    case AddWatch(_) => 3
    case ReadDir(_, _) => 2
    case _ => 1
  }

  /** What remains to be done, most significant first. */
  function Remaining(s: State): seq<nat> {
    [PhaseRank(s.phase), |s.events| + (if s.phase.Booting? then |s.phase.todo| else 0), HandlerRank(s.handler),
     if s.handler.AddHosts? then |s.handler.hosts| else 0, |s.output.queue|]
  }

  predicate LexicallyLess(a: seq<nat>, b: seq<nat>)
    requires |a| == |b|
  {
    a != [] && (a[0] < b[0] || (a[0] == b[0] && LexicallyLess(a[1..], b[1..])))
  }

  lemma FirstDifference(a: seq<nat>, b: seq<nat>, k: nat)
    requires |a| == |b| && k < |a| && a[..k] == b[..k] && a[k] < b[k]
    ensures LexicallyLess(a, b)
  {
    if k > 0 {
      assert a[0] == a[..k][0] && b[0] == b[..k][0];
      assert a[1..][..k - 1] == a[..k][1..] && b[1..][..k - 1] == b[..k][1..];
      FirstDifference(a[1..], b[1..], k - 1);
    }
  }

  function Significance(a: MonitorAction): nat {
    match a
    case WatchTop => 0
    case ListTop(_) => 0
    case EndBootScan => 0
    case NextDir => 1
    case TakeEvent => 1
    case NextHost => 3
    case CloseBoot => 4
    case Deliver => 4
    case _ => 2
  }

  /** The step leaves less of what it works on, and as much of all that is more significant. */
  ghost predicate Progresses(s: State, a: MonitorAction)
    requires MonitorEnabled(s, a)
  {
    var t, k := MonitorNext(s, a), Significance(a);
    Remaining(t)[..k] == Remaining(s)[..k] && Remaining(t)[k] < Remaining(s)[k]
  }

  lemma LoopProgresses(s: State, a: MonitorAction)
    requires MonitorEnabled(s, a) && Significance(a) <= 1
    ensures Progresses(s, a)
  {
  }

  lemma HandlerProgresses(s: State, a: MonitorAction)
    requires MonitorEnabled(s, a) && 2 <= Significance(a) <= 3
    ensures Progresses(s, a)
  {
    var t, k := MonitorNext(s, a), Significance(a);
    assert t.phase == s.phase && t.events == s.events;
    assert forall l :: 0 <= l < k ==> Remaining(t)[..k][l] == Remaining(s)[..k][l];
  }

  lemma QueueProgresses(s: State, a: MonitorAction)
    requires MonitorEnabled(s, a) && Significance(a) == 4
    ensures Progresses(s, a)
  {
    var t := MonitorNext(s, a);
    assert t.phase == s.phase && t.events == s.events && t.handler == s.handler;
    assert forall l :: 0 <= l < 4 ==> Remaining(t)[..4][l] == Remaining(s)[..4][l];
  }

  /** While the writer is quiet every step of the monitor leaves less to do, so it comes to rest. */
  lemma MonitorProgresses(s: State, a: MonitorAction)
    requires MonitorEnabled(s, a)
    ensures LexicallyLess(Remaining(MonitorNext(s, a)), Remaining(s))
  {
    if Significance(a) <= 1 {
      LoopProgresses(s, a);
    } else if Significance(a) <= 3 {
      HandlerProgresses(s, a);
    } else {
      QueueProgresses(s, a);
    }
    FirstDifference(Remaining(MonitorNext(s, a)), Remaining(s), Significance(a));
  }

  lemma {:induction false} SomeListing(names: set<string>) returns (listing: seq<string>)
    ensures forall name :: name in listing <==> name in names
    decreases names
  {
    if names == {} {
      listing := [];
    } else {
      var name :| name in names;
      var rest := SomeListing(names - {name});
      listing := [name] + rest;
    }
  }

  /** A monitor at rest is drained or has exited: it never gets stuck. */
  lemma RestIsDrained(run: seq<State>, i: nat)
    requires Behavior(run) && i < |run|
    requires forall a :: !MonitorEnabled(run[i], a)
    ensures Drained(run[i]) || run[i].phase == Exited
  {
    BehaviorKeepsInv(run, i);
    var s := run[i];
    if s.phase.ListingTop? {
      var dirs := SomeListing(s.phase.since);
      assert MonitorEnabled(s, ListTop(dirs));
    }
    assert !MonitorEnabled(s, WatchTop) && !MonitorEnabled(s, NextDir);
    assert !MonitorEnabled(s, EndBootScan) && !MonitorEnabled(s, WatchDir) && !MonitorEnabled(s, NextHost);
    assert !MonitorEnabled(s, EndScan) && !MonitorEnabled(s, OpenFile) && !MonitorEnabled(s, StatFile);
    if s.handler.ReadDir? {
      var hosts := SomeListing(s.handler.since);
      assert MonitorEnabled(s, ListDir(hosts));
    }
    assert !MonitorEnabled(s, TakeEvent) && !MonitorEnabled(s, CloseBoot) && !MonitorEnabled(s, Deliver);
  }

  lemma Extend(run: seq<State>, a: Action) returns (longer: seq<State>)
    requires Behavior(run) && Enabled(run[|run| - 1], a)
    ensures Behavior(longer) && longer == run + [Step(run[|run| - 1], a)]
  {
    assert Next(run[|run| - 1], Step(run[|run| - 1], a));
    longer := run + [Step(run[|run| - 1], a)];
  }

  /** A monitor that has booted on an empty tree. */
  function BootedOnNothing(hosts: iset<string>): State {
    State(hosts, Tree({}, map[]), false, {}, [], Looping, Idle, Output([None], [], [], []), Closing(false, 0, 0))
  }

  lemma BootOnNothing(hosts: iset<string>) returns (run: seq<State>)
    ensures Behavior(run) && run[|run| - 1] == BootedOnNothing(hosts)
  {
    run := [State(hosts, Tree({}, map[]), false, {}, [], Starting, Idle, Output([], [], [], []), Closing(false, 0, 0))];
    run := Extend(run, Watch(WatchTop));
    run := Extend(run, Watch(ListTop([])));
    run := Extend(run, Watch(EndBootScan));
  }

  /** Nobody calls Close, but the empty top directory is removed: C is closed with nothing delivered. */
  lemma RemovedTopClosesOutput(hosts: iset<string>) returns (run: seq<State>)
    ensures Behavior(run)
    ensures var s := run[|run| - 1];
      s.phase == Exited && s.closing == Closing(false, 1, 1) && s.output.delivered == []
  {
    run := BootOnNothing(hosts);
    run := Extend(run, RemoveTop);
    run := Extend(run, Watch(CloseBoot));
    run := Extend(run, Watch(TakeEvent));
  }
}
