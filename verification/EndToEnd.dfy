/** From a host's features to the client of another host: the replication of a quiet network. */
module EndToEnd {
  import opened Base
  import Monitor
  import Network
  import StateTree

  /** The nodes of a table, each once. */
  ghost predicate NodesOf(remotes: seq<Node>, table: map<IpAddr, Node>) {
    forall node :: node in remotes <==> node.ipAddr in table && table[node.ipAddr] == node
  }

  /**
   On packets alone, once a live host's features have not changed since its last broadcast and an instance has merged
   that, and then has made a pass over its table and a monitor of its tree has drained: what the monitor delivered replays
   to exactly that host's current features under its address. As this is so of every instance, all clients agree.
  */
  lemma ClientsSeeCurrentFeatures(
      network: seq<Network.State>, n: nat, p: Network.Stamped, d: Network.Discipline,
      run: seq<Monitor.State>, actions: seq<Monitor.Action>, k: nat,
      render: string -> string, local: Features, remotes: seq<Node>)
    requires Network.Behavior(network, d) && !d.loads && n < |network|
    requires p in network[n].sent && p.node.ipAddr in network[n].senders
    requires p.node.timeNs == network[n].senders[p.node.ipAddr].stamp
    requires p.body == network[n].senders[p.node.ipAddr].current
    requires p.node.ipAddr in network[n].observer.table
    requires p.node.timeNs <= network[n].observer.table[p.node.ipAddr].timeNs
    requires NodesOf(remotes, network[n].observer.table) && StateTree.DistinctHosts(StateTree.Owners(local, remotes))
    requires Monitor.Behavior(run) && StateTree.Taking(run, actions) && k < |run| && Monitor.Drained(run[|run| - 1])
    requires StateTree.IsPass(run[k].tree.files, StateTree.Wanted(render, StateTree.Owners(local, remotes)),
                              StateTree.Writes(actions[k..]))
    requires forall node :: node in StateTree.Owners(local, remotes) ==> node.ipAddr in run[|run| - 1].hosts
    ensures var view, features := Monitor.Replay(run[|run| - 1].output.delivered),
                                  network[n].senders[p.node.ipAddr].current.features;
      forall feature :: ((feature, p.node.ipAddr) in view <==> feature in features) &&
        (feature in features ==> view[(feature, p.node.ipAddr)] == render(features[feature]))
  {
    var owners, ip := StateTree.Owners(local, remotes), p.node.ipAddr;
    Network.CurrentBodyHeld(network, n, p, d);
    assert p.node in remotes;
    var i :| 0 <= i < |owners| && owners[i] == p.node;
    StateTree.DeliveredViewIsWanted(run, actions, k, render, local, remotes);
    var view := Monitor.Replay(run[|run| - 1].output.delivered);
    forall feature
      ensures (feature, ip) in view <==> feature in p.node.features
      ensures feature in p.node.features ==> view[(feature, ip)] == render(p.node.features[feature])
    {
      StateTree.WantedIsEveryFeature(render, owners, (feature, ip));
      OnlyOwner(owners, i);
    }
  }

  lemma OnlyOwner(owners: seq<Node>, i: nat)
    requires StateTree.DistinctHosts(owners) && i < |owners|
    ensures forall j :: 0 <= j < |owners| && owners[j].ipAddr == owners[i].ipAddr ==> j == i
  {
  }
}
