/** The table of known peers (service/node.go) and the order-independence of its merge. */
module PeerTable {
  import opened Base

  type Table = map<IpAddr, Node>

  /** Every entry is filed under its own address. */
  ghost predicate Keyed(table: Table) {
    forall ip :: ip in table ==> table[ip].ipAddr == ip
  }

  function Merge(table: Table, node: Node): Table {
    if node.ipAddr in table && node.timeNs <= table[node.ipAddr].timeNs then table
    else table[node.ipAddr := node]
  }

  /** Entries stamped at or after the threshold. */
  function Prune(table: Table, thresholdNs: int): Table {
    map ip | ip in table && thresholdNs <= table[ip].timeNs :: table[ip]
  }

  predicate IsUpdatable(table: Table, ipAddr: IpAddr, newTimeNs: int) {
    ipAddr in table ==> table[ipAddr].timeNs < newTimeNs
  }

  class RemoteNodes {
    var ipAddrs: Table

    ghost predicate Valid()
      reads this
    {
      Keyed(ipAddrs)
    }

    constructor ()
      ensures Valid() && ipAddrs == map[]
    {
      ipAddrs := map[];
    }

    /** Whether a node with that stamp would become the host's entry; if not, merging it changes nothing. */
    method Updatable(ipAddr: IpAddr, newTimeNs: int) returns (updatable: bool)
      ensures forall features :: var node := Node(ipAddr, newTimeNs, features);
        if updatable then Merge(ipAddrs, node) == ipAddrs[ipAddr := node] && Merge(ipAddrs, node) != ipAddrs
        else Merge(ipAddrs, node) == ipAddrs
      ensures updatable == IsUpdatable(ipAddrs, ipAddr, newTimeNs)
    {
      if ipAddr !in ipAddrs {
        return true;
      }
      return ipAddrs[ipAddr].timeNs < newTimeNs;
    }

    method Update(newNode: Node) returns (newAddr: Option<IpAddr>)
      requires Valid()
      modifies this
      ensures Valid()
      ensures ipAddrs == Merge(old(ipAddrs), newNode)
      ensures newAddr == if newNode.ipAddr in old(ipAddrs) then None else Some(newNode.ipAddr)
    {
      newAddr := None;
      if newNode.ipAddr in ipAddrs {
        if newNode.timeNs > ipAddrs[newNode.ipAddr].timeNs {
          ipAddrs := ipAddrs[newNode.ipAddr := newNode];
        }
      } else {
        newAddr := Some(newNode.ipAddr);
        ipAddrs := ipAddrs[newNode.ipAddr := newNode];
      }
    }

    /** Deletes by the entry's own address, so it relies on the table being keyed by it. */
    method Expire(thresholdNs: int)
      requires Valid()
      modifies this
      ensures Valid()
      ensures ipAddrs == Prune(old(ipAddrs), thresholdNs)
      ensures forall ip :: ip in ipAddrs <==> ip in old(ipAddrs) && old(ipAddrs)[ip].timeNs >= thresholdNs
      ensures forall ip :: ip in ipAddrs ==> ipAddrs[ip] == old(ipAddrs)[ip]
    {
      var expired: seq<Node> := [];
      var unseen := ipAddrs.Keys;
      while unseen != {}
        invariant unseen <= ipAddrs.Keys
        invariant forall node :: node in expired ==>
          node.ipAddr in ipAddrs && ipAddrs[node.ipAddr] == node && node.timeNs < thresholdNs
        invariant forall ip :: ip in ipAddrs && ip !in unseen && ipAddrs[ip].timeNs < thresholdNs ==>
          ipAddrs[ip] in expired
        decreases unseen
      {
        var ip :| ip in unseen;
        unseen := unseen - {ip};
        if ipAddrs[ip].timeNs < thresholdNs {
          expired := expired + [ipAddrs[ip]];
        }
      }
      ghost var before := ipAddrs;
      var i := 0;
      while i < |expired|
        invariant 0 <= i <= |expired|
        invariant forall ip :: ip in ipAddrs <==> ip in before && before[ip] !in expired[..i]
        invariant forall ip :: ip in ipAddrs ==> ipAddrs[ip] == before[ip]
      {
        assert expired[..i + 1] == expired[..i] + [expired[i]];
        assert expired[i] in expired;
        ipAddrs := ipAddrs - {expired[i].ipAddr};
        i := i + 1;
      }
      assert expired[..i] == expired;
    }

    method Addrs() returns (addrs: seq<IpAddr>)
      ensures forall ip :: ip in addrs <==> ip in ipAddrs
      ensures forall i, j :: 0 <= i < j < |addrs| ==> addrs[i] != addrs[j]
    {
      addrs := [];
      var unseen := ipAddrs.Keys;
      while unseen != {}
        invariant unseen <= ipAddrs.Keys
        invariant forall ip :: ip in addrs <==> ip in ipAddrs && ip !in unseen
        invariant forall i, j :: 0 <= i < j < |addrs| ==> addrs[i] != addrs[j]
        decreases unseen
      {
        var ip :| ip in unseen;
        unseen := unseen - {ip};
        addrs := addrs + [ip];
      }
    }

    method Nodes() returns (nodes: seq<Node>)
      requires Valid()
      ensures forall node :: node in nodes <==> node.ipAddr in ipAddrs && ipAddrs[node.ipAddr] == node
      ensures forall i, j :: 0 <= i < j < |nodes| ==> nodes[i].ipAddr != nodes[j].ipAddr
    {
      nodes := [];
      var unseen := ipAddrs.Keys;
      while unseen != {}
        invariant unseen <= ipAddrs.Keys
        invariant forall node :: node in nodes <==>
          node.ipAddr in ipAddrs && node.ipAddr !in unseen && ipAddrs[node.ipAddr] == node
        invariant forall i, j :: 0 <= i < j < |nodes| ==> nodes[i].ipAddr != nodes[j].ipAddr
        decreases unseen
      {
        var ip :| ip in unseen;
        unseen := unseen - {ip};
        assert forall node :: node in nodes ==> node.ipAddr != ip;
        nodes := nodes + [ipAddrs[ip]];
      }
    }
  }

  /** The table after merging the nodes in order of arrival. */
  function MergeAll(table: Table, nodes: seq<Node>): (merged: Table) {
    if nodes == [] then table
    else Merge(MergeAll(table, nodes[..|nodes| - 1]), nodes[|nodes| - 1])
  }

  /** The node is the earliest to carry its host's newest stamp. */
  ghost predicate FirstNewest(nodes: seq<Node>, k: int) {
    0 <= k < |nodes| &&
    (forall j :: 0 <= j < |nodes| && nodes[j].ipAddr == nodes[k].ipAddr ==>
      nodes[j].timeNs <= nodes[k].timeNs && (j < k ==> nodes[j].timeNs < nodes[k].timeNs))
  }

  ghost predicate Wins(nodes: seq<Node>, node: Node) {
    exists k :: FirstNewest(nodes, k) && nodes[k] == node
  }

  lemma ExtendWins(nodes: seq<Node>, node: Node, last: Node)
    requires Wins(nodes, node)
    requires last.ipAddr != node.ipAddr || last.timeNs <= node.timeNs
    ensures Wins(nodes + [last], node)
  {
    var k :| FirstNewest(nodes, k) && nodes[k] == node;
    assert FirstNewest(nodes + [last], k);
  }

  lemma LastWins(nodes: seq<Node>, last: Node)
    requires forall j :: 0 <= j < |nodes| && nodes[j].ipAddr == last.ipAddr ==> nodes[j].timeNs < last.timeNs
    ensures Wins(nodes + [last], last)
  {
    assert FirstNewest(nodes + [last], |nodes|);
  }

  /** After any deliveries an entry is the earliest arrival among its host's newest nodes. */
  lemma {:induction false} MergeAllKeepsFirstNewest(nodes: seq<Node>, ip: IpAddr)
    ensures ip in MergeAll(map[], nodes) <==> exists k :: 0 <= k < |nodes| && nodes[k].ipAddr == ip
    ensures ip in MergeAll(map[], nodes) ==>
      MergeAll(map[], nodes)[ip].ipAddr == ip && Wins(nodes, MergeAll(map[], nodes)[ip])
  {
    if nodes == [] {
      return;
    }
    var init, last := nodes[..|nodes| - 1], nodes[|nodes| - 1];
    assert nodes == init + [last];
    MergeAllKeepsFirstNewest(init, ip);
    var before := MergeAll(map[], init);
    if ip in before {
      if last.ipAddr == ip && last.timeNs > before[ip].timeNs {
        var k :| FirstNewest(init, k) && init[k] == before[ip];
        LastWins(init, last);
      } else {
        ExtendWins(init, before[ip], last);
      }
      assert exists k :: 0 <= k < |nodes| && nodes[k].ipAddr == ip by {
        var k :| 0 <= k < |init| && init[k].ipAddr == ip;
        assert nodes[k] == init[k];
      }
    } else if last.ipAddr == ip {
      LastWins(init, last);
    } else {
      assert forall k :: 0 <= k < |init| ==> nodes[k] == init[k];
    }
  }

  /** No host sends two different nodes with the same stamp. */
  ghost predicate StampsIdentify(nodes: seq<Node>) {
    forall x, y :: x in nodes && y in nodes && x.ipAddr == y.ipAddr && x.timeNs == y.timeNs ==> x == y
  }

  lemma SameSourcesSameEntry(xs: seq<Node>, ys: seq<Node>, ip: IpAddr)
    requires forall node :: node in xs <==> node in ys
    requires StampsIdentify(xs)
    ensures ip in MergeAll(map[], xs) <==> ip in MergeAll(map[], ys)
    ensures ip in MergeAll(map[], xs) ==> MergeAll(map[], xs)[ip] == MergeAll(map[], ys)[ip]
  {
    MergeAllKeepsFirstNewest(xs, ip);
    MergeAllKeepsFirstNewest(ys, ip);
    if k :| 0 <= k < |xs| && xs[k].ipAddr == ip {
      assert xs[k] in ys;
    }
    if k :| 0 <= k < |ys| && ys[k].ipAddr == ip {
      assert ys[k] in xs;
    }
    if ip in MergeAll(map[], xs) && ip in MergeAll(map[], ys) {
      var x, y := MergeAll(map[], xs)[ip], MergeAll(map[], ys)[ip];
      var k :| FirstNewest(xs, k) && xs[k] == x;
      var l :| FirstNewest(ys, l) && ys[l] == y;
      assert x in ys && y in xs;
    }
  }

  /** Reordering and duplicating deliveries, from packets or storage, cannot be told from the table. */
  lemma StrongConvergence(xs: seq<Node>, ys: seq<Node>)
    requires forall node :: node in xs <==> node in ys
    requires StampsIdentify(xs)
    ensures MergeAll(map[], xs) == MergeAll(map[], ys)
  {
    forall ip
      ensures ip in MergeAll(map[], xs) <==> ip in MergeAll(map[], ys)
      ensures ip in MergeAll(map[], xs) ==> MergeAll(map[], xs)[ip] == MergeAll(map[], ys)[ip]
    {
      SameSourcesSameEntry(xs, ys, ip);
    }
  }
}
