/** One pass of the state writer (service/state.go): the tree is made to match the known features. */
module StateTree {
  import opened Base
  import opened Monitor

  const LOOPBACK := "127.0.0.1"

  type Files = map<Path, string>

  /** The two agree on whether the file exists and on what it holds. */
  ghost predicate SameAt(a: Files, b: Files, path: Path) {
    if path in a then path in b && a[path] == b[path] else path !in b
  }

  function FilesOf(render: string -> string, node: Node): Files {
    map feature | feature in node.features :: (feature, node.ipAddr) := render(node.features[feature])
  }

  /** The files of all the nodes. */
  function Wanted(render: string -> string, nodes: seq<Node>): Files {
    if nodes == [] then map[]
    else Wanted(render, nodes[..|nodes| - 1]) + FilesOf(render, nodes[|nodes| - 1])
  }

  /** The local features count as those of the loopback address. */
  function Owners(local: Features, remotes: seq<Node>): seq<Node> {
    [Node(LOOPBACK, 0, local)] + remotes
  }

  ghost predicate DistinctHosts(nodes: seq<Node>) {
    forall i, j :: 0 <= i < j < |nodes| ==> nodes[i].ipAddr != nodes[j].ipAddr
  }

  /** With distinct hosts, a file is wanted exactly when its host has its feature, with that feature's value. */
  lemma {:induction false} WantedIsEveryFeature(render: string -> string, nodes: seq<Node>, path: Path)
    requires DistinctHosts(nodes)
    ensures path in Wanted(render, nodes) <==>
      exists i :: 0 <= i < |nodes| && nodes[i].ipAddr == path.1 && path.0 in nodes[i].features
    ensures forall i :: 0 <= i < |nodes| && nodes[i].ipAddr == path.1 && path.0 in nodes[i].features ==>
      path in Wanted(render, nodes) && Wanted(render, nodes)[path] == render(nodes[i].features[path.0])
  {
    if nodes != [] {
      var init, last := nodes[..|nodes| - 1], nodes[|nodes| - 1];
      WantedIsEveryFeature(render, init, path);
      assert path in FilesOf(render, last) <==> last.ipAddr == path.1 && path.0 in last.features;
      assert forall i :: 0 <= i < |init| ==> init[i] == nodes[i];
    }
  }

  /**
   The files after a pass in which writing the paths in `failing` and removing those in `stuck` fails:
   a failed path keeps what it had.
  */
  ghost function Outcome(before: Files, wanted: Files, failing: set<Path>, stuck: set<Path>): (after: Files)
    ensures failing == {} && stuck == {} ==> after == wanted
  {
    map path | path in before.Keys + wanted.Keys &&
               (if path in wanted then path in failing ==> path in before else path in stuck) ::
      if path in wanted && path !in failing then wanted[path] else before[path]
  }

  /** A tree seen during the pass: each path as it was or as it is going to be. */
  ghost predicate Between(tree: Tree, before: Files, goal: Files) {
    forall path :: SameAt(tree.files, before, path) || SameAt(tree.files, goal, path)
  }

  ghost predicate PerformedBy(tree: Tree, a: WriterAction, next: Tree) {
    TreeEnabled(tree, a) && next == TreeNext(tree, a)
  }

  /** The trees that a writer's actions lead through. */
  ghost predicate Performed(trail: seq<Tree>, actions: seq<WriterAction>) {
    |trail| == |actions| + 1 &&
    forall i, j :: 0 <= i && j == i + 1 < |trail| ==> PerformedBy(trail[i], actions[i], trail[j])
  }

  lemma PerformNext(trail: seq<Tree>, actions: seq<WriterAction>, a: WriterAction)
    requires Performed(trail, actions) && TreeEnabled(trail[|trail| - 1], a)
    ensures Performed(trail + [TreeNext(trail[|trail| - 1], a)], actions + [a])
  {
    var longer, more := trail + [TreeNext(trail[|trail| - 1], a)], actions + [a];
    forall i, j | 0 <= i && j == i + 1 < |longer|
      ensures PerformedBy(longer[i], more[i], longer[j])
    {
      if j < |trail| {
        assert PerformedBy(trail[i], actions[i], trail[j]);
      }
    }
  }

  /** Only what is going to be is written, and only what is not is removed. */
  ghost predicate Towards(actions: seq<WriterAction>, goal: Files) {
    forall i :: 0 <= i < |actions| ==> LeadsTo(actions[i], goal)
  }

  predicate LeadsTo(a: WriterAction, goal: Files) {
    match a
    case Mkdir(_, _) => true
    case Rename(path, data, _) => path in goal && goal[path] == data
    case Remove(path, _) => path !in goal
  }

  ghost predicate Renames(actions: seq<WriterAction>, path: Path) {
    exists i :: 0 <= i < |actions| && actions[i].Rename? && actions[i].path == path
  }

  ghost predicate Removes(actions: seq<WriterAction>, path: Path) {
    exists i :: 0 <= i < |actions| && actions[i].Remove? && actions[i].path == path
  }

  /**
   What a pass without errors does, in whatever order: it writes wanted files, among them each that is missing or
   differs, and removes files that are not wanted, all that there are.
  */
  ghost predicate IsPass(before: Files, wanted: Files, actions: seq<WriterAction>) {
    Towards(actions, wanted) &&
    (forall path :: path in wanted && !SameAt(before, wanted, path) ==> Renames(actions, path)) &&
    (forall path :: path in before && path !in wanted ==> Removes(actions, path))
  }

  lemma {:induction false} UntouchedStays(trail: seq<Tree>, actions: seq<WriterAction>, path: Path, i: nat)
    requires Performed(trail, actions) && i < |trail| && !Renames(actions, path) && !Removes(actions, path)
    ensures SameAt(trail[i].files, trail[0].files, path)
  {
    if i > 0 {
      UntouchedStays(trail, actions, path, i - 1);
      assert PerformedBy(trail[i - 1], actions[i - 1], trail[i]);
    }
  }

  /** What leads to the wanted files by the right steps is a pass. */
  lemma DoneIsPass(trail: seq<Tree>, actions: seq<WriterAction>, wanted: Files)
    requires Performed(trail, actions) && Towards(actions, wanted) && trail[|trail| - 1].files == wanted
    ensures IsPass(trail[0].files, wanted, actions)
  {
    forall path
      ensures path in wanted && !SameAt(trail[0].files, wanted, path) ==> Renames(actions, path)
      ensures path in trail[0].files && path !in wanted ==> Removes(actions, path)
    {
      if !Renames(actions, path) && !Removes(actions, path) {
        UntouchedStays(trail, actions, path, |trail| - 1);
      }
    }
  }

  /** Settling one path takes a tree to another between the same two. */
  lemma SettlePath(tree: Tree, next: Tree, before: Files, goal: Files, path: Path)
    requires Between(tree, before, goal) && SameAt(next.files, goal, path)
    requires forall other :: other != path ==> SameAt(next.files, tree.files, other)
    ensures Between(next, before, goal)
  {
    forall other
      ensures SameAt(next.files, before, other) || SameAt(next.files, goal, other)
    {
      assert SameAt(tree.files, before, other) || SameAt(tree.files, goal, other);
      assert other != path ==> SameAt(next.files, tree.files, other);
    }
  }

  /** Of the paths, those named are as they are going to be and the others as they were. */
  ghost predicate Settled(files: Files, was: Files, goal: Files, names: set<Path>) {
    forall path :: SameAt(files, if path in names then goal else was, path)
  }

  lemma SettledFurther(files: Files, next: Files, was: Files, goal: Files, names: set<Path>, path: Path)
    requires Settled(files, was, goal, names) && SameAt(next, goal, path)
    requires forall other :: other != path ==> SameAt(next, files, other)
    ensures Settled(next, was, goal, names + {path})
  {
    forall other
      ensures SameAt(next, if other in names + {path} then goal else was, other)
    {
      assert other != path ==> SameAt(next, files, other);
      assert SameAt(files, if other in names then goal else was, other);
    }
  }

  lemma SameEverywhere(a: Files, b: Files)
    requires forall path :: SameAt(a, b, path)
    ensures a == b
  {
    assert forall path :: path in a ==> SameAt(a, b, path);
    assert forall path :: path in b ==> SameAt(a, b, path);
  }

  /** The goal has what the node says, except where writing fails. */
  ghost predicate GoalOf(render: string -> string, node: Node, failing: set<Path>, before: Files, goal: Files) {
    forall path :: path in FilesOf(render, node) ==>
      if path in failing then SameAt(goal, before, path) else path in goal && goal[path] == FilesOf(render, node)[path]
  }

  /** Of a tree in the course of a pass: each file is wholly old or wholly new, and one that is in both is there. */
  ghost predicate WhollyOldOrNew(files: Files, before: Files, after: Files) {
    (forall path :: path in files ==>
      (path in before && files[path] == before[path]) || (path in after && files[path] == after[path])) &&
    (forall path :: path in before && path in after ==> path in files)
  }

  lemma BetweenIsWhole(tree: Tree, before: Files, after: Files)
    requires Between(tree, before, after)
    ensures WhollyOldOrNew(tree.files, before, after)
  {
    forall path
      ensures path in tree.files ==>
        (path in before && tree.files[path] == before[path]) || (path in after && tree.files[path] == after[path])
      ensures path in before && path in after ==> path in tree.files
    {
      assert SameAt(tree.files, before, path) || SameAt(tree.files, after, path);
    }
  }

  class StateWriter {
    const render: string -> string
    var dirs: set<string>
    var files: Files
    ghost var trail: seq<Tree>
    ghost var actions: seq<WriterAction>

    ghost predicate Valid()
      reads this
    {
      Performed(trail, actions) && trail[|trail| - 1] == Tree(dirs, files) &&
      forall path :: path in files ==> path.0 in dirs
    }

    constructor (render: string -> string, tree: Tree)
      requires forall path :: path in tree.files ==> path.0 in tree.dirs
      ensures Valid() && this.render == render && trail == [tree]
    {
      this.render := render;
      dirs, files, trail, actions := tree.dirs, tree.files, [tree], [];
    }

    ghost predicate TrailBetween(before: Files, goal: Files)
      reads this
    {
      (forall tree :: tree in trail ==> Between(tree, before, goal)) && Towards(actions, goal)
    }

    /** Renames a complete new file over the path, making its directory first if need be. */
    method Publish(path: Path, data: string, ghost before: Files, ghost goal: Files)
      requires Valid() && TrailBetween(before, goal)
      requires path in goal && goal[path] == data
      modifies this
      ensures Valid() && TrailBetween(before, goal) && old(trail) <= trail
      ensures files == old(files)[path := data]
      ensures dirs == old(dirs) + {path.0}
    {
      MkdirAll(path.0, before, goal);
      assert Between(Tree(dirs, files), before, goal);
      files := files[path := data];
      PerformNext(trail, actions, Rename(path, data, false));
      SettlePath(trail[|trail| - 1], Tree(dirs, files), before, goal, path);
      trail, actions := trail + [Tree(dirs, files)], actions + [Rename(path, data, false)];
    }

    method MkdirAll(dir: string, ghost before: Files, ghost goal: Files)
      requires Valid() && TrailBetween(before, goal)
      modifies this
      ensures Valid() && TrailBetween(before, goal) && old(trail) <= trail
      ensures files == old(files) && dirs == old(dirs) + {dir}
    {
      assert Between(Tree(dirs, files), before, goal);
      if dir !in dirs {
        dirs := dirs + {dir};
        PerformNext(trail, actions, Mkdir(dir, false));
        trail, actions := trail + [Tree(dirs, files)], actions + [Mkdir(dir, false)];
      } else {
        assert dirs == dirs + {dir};
      }
    }

    method Unlink(path: Path, ghost before: Files, ghost goal: Files)
      requires Valid() && TrailBetween(before, goal)
      requires path in files && path !in goal
      modifies this
      ensures Valid() && TrailBetween(before, goal) && old(trail) <= trail
      ensures files == old(files) - {path} && dirs == old(dirs)
    {
      assert Between(Tree(dirs, files), before, goal);
      files := files - {path};
      PerformNext(trail, actions, Remove(path, false));
      SettlePath(trail[|trail| - 1], Tree(dirs, files), before, goal, path);
      trail, actions := trail + [Tree(dirs, files)], actions + [Remove(path, false)];
    }

    /** A file that already has the data is left alone, and so is one that cannot be written. */
    method WriteFeature(path: Path, newData: string, failing: set<Path>, ghost before: Files, ghost goal: Files)
      requires Valid() && TrailBetween(before, goal) && SameAt(files, before, path)
      requires if path in failing then SameAt(goal, before, path) else path in goal && goal[path] == newData
      modifies this
      ensures Valid() && TrailBetween(before, goal) && old(trail) <= trail
      ensures SameAt(files, goal, path) && forall other :: other != path ==> SameAt(files, old(files), other)
      ensures SameAt(old(files), goal, path) ==> trail == old(trail)
    {
      if path in files && files[path] == newData {
        return;
      }
      if path in failing {
        return;
      }
      Publish(path, newData, before, goal);
    }

    method WriteFeatureState(node: Node, failing: set<Path>, ghost before: Files, ghost goal: Files)
      returns (filenames: set<Path>)
      requires Valid() && TrailBetween(before, goal)
      requires forall path :: path in FilesOf(render, node) ==> SameAt(files, before, path)
      requires GoalOf(render, node, failing, before, goal)
      modifies this
      ensures Valid() && TrailBetween(before, goal) && old(trail) <= trail
      ensures filenames == FilesOf(render, node).Keys
      ensures Settled(files, old(files), goal, filenames)
      ensures (forall path :: path in filenames ==> SameAt(old(files), goal, path)) ==> trail == old(trail)
    {
      ghost var wanted, was := FilesOf(render, node), files;
      ghost var asWanted := forall path :: path in wanted ==> SameAt(was, goal, path);
      filenames := {};
      var unseen := node.features.Keys;
      while unseen != {}
        invariant unseen <= node.features.Keys
        invariant Valid() && TrailBetween(before, goal) && old(trail) <= trail
        invariant forall path :: path in filenames <==> path in wanted && path.0 !in unseen
        invariant Settled(files, was, goal, filenames)
        invariant asWanted ==> trail == old(trail)
        decreases unseen
      {
        var feature :| feature in unseen;
        unseen := unseen - {feature};
        var path := (feature, node.ipAddr);
        var newData := render(node.features[feature]);
        assert path in wanted && SameAt(files, was, path) && SameAt(was, before, path);
        ghost var earlier := files;
        WriteFeature(path, newData, failing, before, goal);
        SettledFurther(earlier, files, was, goal, filenames, path);
        filenames := filenames + {path};
      }
      assert filenames == wanted.Keys;
    }

    method RemoveOthers(filenames: set<Path>, stuck: set<Path>, ghost before: Files, ghost goal: Files)
      requires Valid() && TrailBetween(before, goal)
      requires forall path :: path in filenames ==> SameAt(files, goal, path)
      requires forall path :: path !in filenames ==>
        SameAt(files, before, path) && if path in stuck then SameAt(goal, before, path) else path !in goal
      modifies this
      ensures Valid() && TrailBetween(before, goal) && old(trail) <= trail
      ensures files == goal
      ensures old(files) == goal ==> trail == old(trail)
    {
      var unseen := files.Keys;
      while unseen != {}
        invariant unseen <= files.Keys
        invariant Valid() && TrailBetween(before, goal) && old(trail) <= trail
        invariant forall path :: path in unseen ==> SameAt(files, old(files), path)
        invariant forall path :: path !in unseen ==> SameAt(files, goal, path)
        invariant old(files) == goal ==> trail == old(trail)
        decreases unseen
      {
        var path :| path in unseen;
        unseen := unseen - {path};
        if path !in filenames && path !in stuck {
          Unlink(path, before, goal);
        }
      }
      assert forall path :: SameAt(files, goal, path);
      SameEverywhere(files, goal);
    }

    method WriteAll(owners: seq<Node>, failing: set<Path>, ghost goal: Files) returns (filenames: set<Path>)
      requires DistinctHosts(owners)
      requires forall owner :: owner in owners ==> GoalOf(render, owner, failing, files, goal)
      requires Valid() && trail == [Tree(dirs, files)] && actions == []
      modifies this
      ensures Valid() && TrailBetween(old(files), goal) && old(trail) <= trail
      ensures filenames == Wanted(render, owners).Keys
      ensures Settled(files, old(files), goal, filenames)
      ensures old(files) == goal ==> trail == old(trail)
    {
      ghost var before := files;
      assert Between(Tree(dirs, files), before, goal);
      filenames := {};
      var i := 0;
      while i < |owners|
        invariant 0 <= i <= |owners|
        invariant Valid() && TrailBetween(before, goal) && old(trail) <= trail
        invariant filenames == Wanted(render, owners[..i]).Keys
        invariant Settled(files, before, goal, filenames)
        invariant before == goal ==> trail == old(trail)
      {
        OwnerIsNext(render, owners, i);
        assert forall path :: path in FilesOf(render, owners[i]) ==> SameAt(files, before, path);
        ghost var earlier := files;
        var written := WriteFeatureState(owners[i], failing, before, goal);
        forall path
          ensures SameAt(files, if path in filenames + written then goal else before, path)
        {
          assert SameAt(files, if path in written then goal else earlier, path);
          assert SameAt(earlier, if path in filenames then goal else before, path);
        }
        filenames := filenames + written;
        i := i + 1;
      }
      assert owners[..i] == owners;
    }

    /** A pass, every tree on the way lying between the old and the new. */
    method Reconcile(local: Features, remotes: seq<Node>, failing: set<Path>, stuck: set<Path>)
      requires Valid() && trail == [Tree(dirs, files)] && DistinctHosts(Owners(local, remotes))
      modifies this
      ensures Valid() && old(trail) <= trail
      ensures files == Outcome(old(files), Wanted(render, Owners(local, remotes)), failing, stuck)
      ensures TrailBetween(old(files), files)
      ensures files == old(files) ==> trail == old(trail)
    {
      ghost var goal := Outcome(files, Wanted(render, Owners(local, remotes)), failing, stuck);
      forall owner | owner in Owners(local, remotes)
        ensures GoalOf(render, owner, failing, files, goal)
      {
        OwnerHasGoal(render, Owners(local, remotes), owner, files, failing, stuck);
      }
      var filenames := WriteAll(Owners(local, remotes), failing, goal);
      assert forall path :: path in filenames ==> SameAt(files, goal, path);
      RemoveOthers(filenames, stuck, old(files), goal);
    }

    /**
     A pass over snapshots of the local features and the known nodes. Without errors a file is there exactly for each
     local feature, under 127.0.0.1, and for each feature of a node, under its address, and holds that feature's value.
     A file that cannot be written stays as it was, and only one that cannot be removed is there besides.
    */
    method Pass(local: Features, remotes: seq<Node>, failing: set<Path>, stuck: set<Path>)
      requires Valid() && DistinctHosts(Owners(local, remotes))
      modifies this
      ensures Valid() && Performed(trail, actions) && trail[0] == Tree(old(dirs), old(files))
      ensures files == Outcome(old(files), Wanted(render, Owners(local, remotes)), failing, stuck)
      ensures failing == {} && stuck == {} ==> forall feature, host ::
        ((feature, host) in files <==>
           (host == "127.0.0.1" && feature in local) ||
           exists node :: node in remotes && node.ipAddr == host && feature in node.features)
      ensures forall feature :: feature in local ==>
        if (feature, "127.0.0.1") in failing then SameAt(files, old(files), (feature, "127.0.0.1"))
        else (feature, "127.0.0.1") in files && files[(feature, "127.0.0.1")] == render(local[feature])
      ensures forall node, feature :: node in remotes && feature in node.features ==>
        if (feature, node.ipAddr) in failing then SameAt(files, old(files), (feature, node.ipAddr))
        else (feature, node.ipAddr) in files && files[(feature, node.ipAddr)] == render(node.features[feature])
      ensures forall feature, host ::
        (host == "127.0.0.1" && feature in local) ||
        (exists node :: node in remotes && node.ipAddr == host && feature in node.features) ||
        if (feature, host) in stuck then SameAt(files, old(files), (feature, host)) else (feature, host) !in files
      ensures failing == {} && stuck == {} ==> IsPass(old(files), Wanted(render, Owners(local, remotes)), actions)
      ensures forall tree :: tree in trail ==> WhollyOldOrNew(tree.files, old(files), files)
      ensures files == old(files) ==> trail == [Tree(dirs, files)]
    {
      trail, actions := [Tree(dirs, files)], [];
      Reconcile(local, remotes, failing, stuck);
      TrailIsWhole(old(files));
      if failing == {} && stuck == {} {
        DoneIsPass(trail, actions, files);
      }
      ghost var after := OutcomeIsOfEveryFeature(render, old(files), local, remotes, failing, stuck);
    }

    lemma TrailIsWhole(before: Files)
      requires TrailBetween(before, files)
      ensures forall tree :: tree in trail ==> WhollyOldOrNew(tree.files, before, files)
    {
      forall tree | tree in trail
        ensures WhollyOldOrNew(tree.files, before, files)
      {
        BetweenIsWhole(tree, before, files);
      }
    }
  }

  /** The files of an owner are wanted as they are, and are not those of an earlier one. */
  lemma WantedOfOwner(render: string -> string, owners: seq<Node>, i: nat, path: Path)
    requires DistinctHosts(owners) && i < |owners| && path in FilesOf(render, owners[i])
    ensures path !in Wanted(render, owners[..i])
    ensures path in Wanted(render, owners) && Wanted(render, owners)[path] == FilesOf(render, owners[i])[path]
  {
    WantedIsEveryFeature(render, owners, path);
    WantedIsEveryFeature(render, owners[..i], path);
  }

  /** What is wanted are the files of the local features, under 127.0.0.1, and those of the features of each node. */
  lemma WantedIsLocalOrRemote(render: string -> string, local: Features, remotes: seq<Node>, feature: string, host: string)
    requires DistinctHosts(Owners(local, remotes))
    ensures (feature, host) in Wanted(render, Owners(local, remotes)) <==>
      (host == "127.0.0.1" && feature in local) ||
      exists node :: node in remotes && node.ipAddr == host && feature in node.features
    ensures host == "127.0.0.1" && feature in local ==>
      Wanted(render, Owners(local, remotes))[(feature, host)] == render(local[feature])
    ensures forall node :: node in remotes && node.ipAddr == host && feature in node.features ==>
      Wanted(render, Owners(local, remotes))[(feature, host)] == render(node.features[feature])
  {
    var owners, path := Owners(local, remotes), (feature, host);
    WantedIsEveryFeature(render, owners, path);
    assert owners[0] == Node("127.0.0.1", 0, local) && forall i :: 0 <= i < |remotes| ==> owners[i + 1] == remotes[i];
    forall node | node in remotes && node.ipAddr == host && feature in node.features
      ensures path in Wanted(render, owners) && Wanted(render, owners)[path] == render(node.features[feature])
    {
      var i :| 0 <= i < |remotes| && remotes[i] == node;
      assert owners[i + 1] == node;
    }
  }

  /** The outcome of a pass, feature by feature. */
  lemma OutcomeIsOfEveryFeature(render: string -> string, before: Files, local: Features, remotes: seq<Node>,
                                failing: set<Path>, stuck: set<Path>) returns (after: Files)
    requires DistinctHosts(Owners(local, remotes))
    ensures after == Outcome(before, Wanted(render, Owners(local, remotes)), failing, stuck)
    ensures failing == {} && stuck == {} ==> forall feature, host ::
      ((feature, host) in after <==>
         (host == "127.0.0.1" && feature in local) ||
         exists node :: node in remotes && node.ipAddr == host && feature in node.features)
    ensures forall feature :: feature in local ==>
      if (feature, "127.0.0.1") in failing then SameAt(after, before, (feature, "127.0.0.1"))
      else (feature, "127.0.0.1") in after && after[(feature, "127.0.0.1")] == render(local[feature])
    ensures forall node, feature :: node in remotes && feature in node.features ==>
      if (feature, node.ipAddr) in failing then SameAt(after, before, (feature, node.ipAddr))
      else (feature, node.ipAddr) in after && after[(feature, node.ipAddr)] == render(node.features[feature])
    ensures forall feature, host ::
      (host == "127.0.0.1" && feature in local) ||
      (exists node :: node in remotes && node.ipAddr == host && feature in node.features) ||
      if (feature, host) in stuck then SameAt(after, before, (feature, host)) else (feature, host) !in after
  {
    after := Outcome(before, Wanted(render, Owners(local, remotes)), failing, stuck);
    forall feature: string, host: string
      ensures (feature, host) in Wanted(render, Owners(local, remotes)) <==>
        (host == "127.0.0.1" && feature in local) ||
        exists node :: node in remotes && node.ipAddr == host && feature in node.features
    {
      WantedIsLocalOrRemote(render, local, remotes, feature, host);
    }
    forall feature | feature in local
      ensures Wanted(render, Owners(local, remotes))[(feature, "127.0.0.1")] == render(local[feature])
    {
      WantedIsLocalOrRemote(render, local, remotes, feature, "127.0.0.1");
    }
    forall node, feature | node in remotes && feature in node.features
      ensures Wanted(render, Owners(local, remotes))[(feature, node.ipAddr)] == render(node.features[feature])
    {
      WantedIsLocalOrRemote(render, local, remotes, feature, node.ipAddr);
    }
  }

  lemma OwnerIsNext(render: string -> string, owners: seq<Node>, i: nat)
    requires DistinctHosts(owners) && i < |owners|
    ensures forall path :: path in FilesOf(render, owners[i]) ==> path !in Wanted(render, owners[..i])
    ensures Wanted(render, owners[..i + 1]).Keys == Wanted(render, owners[..i]).Keys + FilesOf(render, owners[i]).Keys
  {
    assert owners[..i + 1][..i] == owners[..i];
    forall path | path in FilesOf(render, owners[i])
      ensures path !in Wanted(render, owners[..i])
    {
      WantedOfOwner(render, owners, i, path);
    }
  }

  lemma OwnerHasGoal(render: string -> string, owners: seq<Node>, owner: Node, before: Files,
                     failing: set<Path>, stuck: set<Path>)
    requires DistinctHosts(owners) && owner in owners
    ensures GoalOf(render, owner, failing, before, Outcome(before, Wanted(render, owners), failing, stuck))
  {
    var i :| 0 <= i < |owners| && owners[i] == owner;
    forall path | path in FilesOf(render, owner)
      ensures path in Wanted(render, owners) && Wanted(render, owners)[path] == FilesOf(render, owner)[path]
    {
      WantedOfOwner(render, owners, i, path);
    }
  }

  // From service to client.

  function FilesNext(files: Files, a: WriterAction): Files {
    TreeNext(Tree({}, files), a).files
  }

  function Performing(files: Files, actions: seq<WriterAction>): Files {
    if actions == [] then files
    else FilesNext(Performing(files, actions[..|actions| - 1]), actions[|actions| - 1])
  }

  /** A path that is as it is going to be, or has been written or removed, is as it is going to be. */
  lemma {:induction false} PassSettlesPath(before: Files, wanted: Files, actions: seq<WriterAction>, path: Path)
    requires Towards(actions, wanted)
    requires SameAt(before, wanted, path) || Renames(actions, path) || Removes(actions, path)
    ensures SameAt(Performing(before, actions), wanted, path)
  {
    if actions != [] {
      var init, last := actions[..|actions| - 1], actions[|actions| - 1];
      assert forall i :: 0 <= i < |init| ==> init[i] == actions[i];
      assert LeadsTo(last, wanted);
      if last.Mkdir? || last.path != path {
        if Renames(actions, path) {
          var i :| 0 <= i < |actions| && actions[i].Rename? && actions[i].path == path;
          assert init[i] == actions[i];
        }
        if Removes(actions, path) {
          var i :| 0 <= i < |actions| && actions[i].Remove? && actions[i].path == path;
          assert init[i] == actions[i];
        }
        PassSettlesPath(before, wanted, init, path);
      }
    }
  }

  /** A pass without errors, however it is ordered, leaves exactly the wanted files. */
  lemma PassLeavesWanted(before: Files, wanted: Files, actions: seq<WriterAction>)
    requires IsPass(before, wanted, actions)
    ensures Performing(before, actions) == wanted
  {
    forall path
      ensures SameAt(Performing(before, actions), wanted, path)
    {
      PassSettlesPath(before, wanted, actions, path);
    }
    SameEverywhere(Performing(before, actions), wanted);
  }

  /** The actions that make up a run. */
  ghost predicate Taking(run: seq<State>, actions: seq<Action>) {
    |run| == |actions| + 1 &&
    forall i, j :: 0 <= i && j == i + 1 < |run| ==> StepBy(run[i], actions[i], run[j])
  }

  ghost predicate StepBy(s: State, a: Action, t: State) {
    Enabled(s, a) && t == Step(s, a)
  }

  /** What the writer does among them. */
  function Writes(actions: seq<Action>): seq<WriterAction> {
    if actions == [] then []
    else
      var last := actions[|actions| - 1];
      Writes(actions[..|actions| - 1]) + if last.Write? then [last.writer] else []
  }

  lemma FilesAfterStep(s: State, a: Action)
    requires Enabled(s, a)
    ensures Step(s, a).tree.files == if a.Write? then FilesNext(s.tree.files, a.writer) else s.tree.files
  {
  }

  lemma WritesAppend(actions: seq<Action>, a: Action)
    ensures Writes(actions + [a]) == Writes(actions) + if a.Write? then [a.writer] else []
  {
    assert (actions + [a])[..|actions|] == actions;
  }

  lemma PerformingAppend(files: Files, actions: seq<WriterAction>, a: WriterAction)
    ensures Performing(files, actions + [a]) == FilesNext(Performing(files, actions), a)
  {
    assert (actions + [a])[..|actions|] == actions;
  }

  lemma {:induction false} FilesAfterWrites(run: seq<State>, actions: seq<Action>, k: nat, i: nat)
    requires Taking(run, actions) && k <= i < |run|
    ensures run[i].tree.files == Performing(run[k].tree.files, Writes(actions[k..i]))
    decreases i
  {
    if i > k {
      FilesAfterWrites(run, actions, k, i - 1);
      var earlier, a := actions[k..i - 1], actions[i - 1];
      assert actions[k..i] == earlier + [a];
      WritesAppend(earlier, a);
      assert StepBy(run[i - 1], a, run[i]);
      FilesAfterStep(run[i - 1], a);
      if a.Write? {
        PerformingAppend(run[k].tree.files, Writes(earlier), a.writer);
      } else {
        assert Writes(earlier + [a]) == Writes(earlier);
      }
    } else {
      assert actions[k..i] == [];
    }
  }

  lemma FilesAfterPass(run: seq<State>, actions: seq<Action>, k: nat, wanted: Files)
    requires Taking(run, actions) && k < |run| && IsPass(run[k].tree.files, wanted, Writes(actions[k..]))
    ensures run[|run| - 1].tree.files == wanted
  {
    assert actions[k..|run| - 1] == actions[k..];
    FilesAfterWrites(run, actions, k, |run| - 1);
    PassLeavesWanted(run[k].tree.files, wanted, Writes(actions[k..]));
  }

  lemma AllWantedAreHostFiles(s: State, render: string -> string, owners: seq<Node>)
    requires DistinctHosts(owners) && s.tree.files == Wanted(render, owners)
    requires forall node :: node in owners ==> node.ipAddr in s.hosts
    ensures HostFiles(s) == s.tree.files
  {
    forall path | path in s.tree.files
      ensures path in HostFiles(s)
    {
      WantedIsEveryFeature(render, owners, path);
    }
  }

  /**
   However the steps of a pass without errors interleave with a monitor's, from any state on: once the pass is over and
   the monitor has drained, its records replay to the local features and those of all known nodes.
  */
  lemma DeliveredViewIsWanted(run: seq<State>, actions: seq<Action>, k: nat, render: string -> string,
                              local: Features, remotes: seq<Node>)
    requires Behavior(run) && Taking(run, actions) && k < |run| && Drained(run[|run| - 1])
    requires IsPass(run[k].tree.files, Wanted(render, Owners(local, remotes)), Writes(actions[k..]))
    requires DistinctHosts(Owners(local, remotes))
    requires forall node :: node in Owners(local, remotes) ==> node.ipAddr in run[|run| - 1].hosts
    ensures Replay(run[|run| - 1].output.delivered) == Wanted(render, Owners(local, remotes))
    ensures var view := Replay(run[|run| - 1].output.delivered);
      (forall feature, host :: (feature, host) in view <==>
         (host == "127.0.0.1" && feature in local) ||
         exists node :: node in remotes && node.ipAddr == host && feature in node.features) &&
      (forall feature :: feature in local ==> view[(feature, "127.0.0.1")] == render(local[feature])) &&
      forall node, feature :: node in remotes && feature in node.features ==>
        view[(feature, node.ipAddr)] == render(node.features[feature])
  {
    var s, wanted := run[|run| - 1], Wanted(render, Owners(local, remotes));
    FilesAfterPass(run, actions, k, wanted);
    DrainedViewIsTree(run, |run| - 1);
    AllWantedAreHostFiles(s, render, Owners(local, remotes));
    forall feature: string, host: string
      ensures (feature, host) in wanted <==>
        (host == "127.0.0.1" && feature in local) ||
        exists node :: node in remotes && node.ipAddr == host && feature in node.features
      ensures host == "127.0.0.1" && feature in local ==> wanted[(feature, host)] == render(local[feature])
      ensures forall node :: node in remotes && node.ipAddr == host && feature in node.features ==>
        wanted[(feature, host)] == render(node.features[feature])
    {
      WantedIsLocalOrRemote(render, local, remotes, feature, host);
    }
  }
}
