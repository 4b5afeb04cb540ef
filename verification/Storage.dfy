/** Listing an object store page by page (listObjects in service/storage.go). */
module Listing {
  import opened Base

  datatype Object = Object(key: string, lastModified: int)

  /** What the store answers to one request. */
  datatype Page = Page(contents: seq<Object>, isTruncated: bool)

  datatype Outcome = Complete | FirstPageFailed | LaterPageFailed

  predicate Less(a: string, b: string) {
    b != [] && (a == [] || a[0] < b[0] || (a[0] == b[0] && Less(a[1..], b[1..])))
  }

  lemma {:induction false} LessIsStrict(a: string, b: string)
    requires Less(a, b)
    ensures !Less(b, a) && a != b
  {
    if a != [] && a[0] == b[0] {
      LessIsStrict(a[1..], b[1..]);
    }
  }

  /** Objects in key order, each key once. */
  ghost predicate Ordered(objects: seq<Object>) {
    forall i, j :: 0 <= i < j < |objects| ==> Less(objects[i].key, objects[j].key)
  }

  predicate Selected(entry: Object, prefix: string, marker: Option<string>) {
    prefix <= entry.key && (marker.Some? ==> Less(marker.value, entry.key))
  }

  /** The objects with the prefix that come after the marker, in order. */
  function After(store: seq<Object>, prefix: string, marker: Option<string>): seq<Object> {
    if store == [] then []
    else (if Selected(store[0], prefix, marker) then [store[0]] else []) + After(store[1..], prefix, marker)
  }

  lemma HeadComesFirst(store: seq<Object>)
    requires Ordered(store) && store != []
    ensures Ordered(store[1..])
    ensures forall entry :: entry in store[1..] ==> Less(store[0].key, entry.key)
  {
    forall entry | entry in store[1..]
      ensures Less(store[0].key, entry.key)
    {
      var i :| 0 <= i < |store[1..]| && store[1..][i] == entry;
      assert store[i + 1] == entry;
    }
  }

  /** Listing selects each object with the prefix exactly once, in key order, and nothing else. */
  lemma {:induction false} AfterIsExact(store: seq<Object>, prefix: string, marker: Option<string>)
    requires Ordered(store)
    ensures Ordered(After(store, prefix, marker))
    ensures forall entry :: entry in After(store, prefix, marker) <==> entry in store && Selected(entry, prefix, marker)
  {
    if store != [] {
      HeadComesFirst(store);
      AfterIsExact(store[1..], prefix, marker);
      assert store == [store[0]] + store[1..];
    }
  }

  lemma {:induction false} MarkerBelowAll(store: seq<Object>, prefix: string, marker: string)
    requires forall i :: 0 <= i < |store| ==> Less(marker, store[i].key)
    ensures After(store, prefix, Some(marker)) == After(store, prefix, None)
  {
    if store != [] {
      MarkerBelowAll(store[1..], prefix, marker);
    }
  }

  lemma NotAfterItself(entry: Object, prefix: string)
    ensures !Selected(entry, prefix, Some(entry.key))
  {
    if Less(entry.key, entry.key) {
      LessIsStrict(entry.key, entry.key);
    }
  }

  /** Asking again with the last key seen as the marker continues where the listing stopped. */
  lemma {:induction false} MarkerResumes(store: seq<Object>, prefix: string, k: nat)
    requires Ordered(store) && 0 < k <= |After(store, prefix, None)|
    ensures After(store, prefix, Some(After(store, prefix, None)[k - 1].key)) == After(store, prefix, None)[k..]
  {
    var all, head, rest := After(store, prefix, None), store[0], store[1..];
    var marker, remaining := all[k - 1].key, After(rest, prefix, None);
    HeadComesFirst(store);
    if Selected(head, prefix, None) {
      assert all == [head] + remaining && all[k..] == remaining[k - 1..];
      if k == 1 {
        MarkerBelowAll(rest, prefix, marker);
        NotAfterItself(head, prefix);
      } else {
        MarkerResumes(rest, prefix, k - 1);
        AfterIsExact(rest, prefix, None);
        assert marker == remaining[k - 2].key && remaining[k - 2] in remaining;
        LessIsStrict(head.key, marker);
      }
    } else {
      assert all == remaining;
      MarkerResumes(rest, prefix, k);
    }
  }

  /** A page is the beginning of what remains, all of it unless truncated, and not empty if truncated. */
  ghost predicate PageOf(page: Page, remaining: seq<Object>) {
    page.contents <= remaining &&
    (page.isTruncated <==> page.contents != remaining) &&
    (page.isTruncated ==> page.contents != [])
  }

  /** The store may fail, and may cut a page anywhere as long as a truncated page holds something. */
  method RequestPage(store: seq<Object>, prefix: string, marker: Option<string>) returns (page: Option<Page>)
    ensures page.Some? ==> PageOf(page.value, After(store, prefix, marker))
  {
    var matching := After(store, prefix, marker);
    if * {
      return None;
    }
    var cut := |matching|;
    if * {
      cut :| (cut == |matching| || 0 < cut) && cut <= |matching|;
    }
    return Some(Page(matching[..cut], cut < |matching|));
  }

  /** Passes a page on; the marker follows the last object passed. */
  method Forward(contents: seq<Object>, listed: seq<Object>, marker: Option<string>)
    returns (listed': seq<Object>, marker': Option<string>)
    ensures listed' == listed + contents
    ensures marker' == if contents == [] then marker else Some(contents[|contents| - 1].key)
  {
    listed', marker' := listed, marker;
    var i := 0;
    while i < |contents|
      invariant 0 <= i <= |contents|
      invariant listed' == listed + contents[..i]
      invariant marker' == if i == 0 then marker else Some(contents[i - 1].key)
    {
      listed' := listed' + [contents[i]];
      marker' := Some(contents[i].key);
      i := i + 1;
    }
  }

  lemma PageAdvances(all: seq<Object>, listed: seq<Object>, page: Page)
    requires listed <= all && PageOf(page, all[|listed|..])
    ensures listed + page.contents <= all
    ensures page.isTruncated <==> listed + page.contents != all
    ensures page.contents != [] ==>
      page.contents[|page.contents| - 1] == all[|listed + page.contents| - 1]
  {
    assert all == listed + all[|listed|..];
    assert page.contents != [] ==>
      page.contents[|page.contents| - 1] == all[|listed|..][|page.contents| - 1];
  }

  /** The loop over pages, from the first one on. */
  method ListPages(store: seq<Object>, prefix: string, first: Page) returns (listed: seq<Object>, complete: bool)
    requires Ordered(store) && PageOf(first, After(store, prefix, None))
    ensures listed <= After(store, prefix, None)
    ensures complete <==> listed == After(store, prefix, None)
  {
    var output := first;
    var marker: Option<string> := None;
    ghost var all := After(store, prefix, None);
    listed, complete := [], true;
    assert all[|listed|..] == all;
    while true
      invariant listed <= all && PageOf(output, all[|listed|..])
      decreases |all| - |listed|
    {
      PageAdvances(all, listed, output);
      listed, marker := Forward(output.contents, listed, marker);
      if !output.isTruncated {
        return;
      }
      MarkerResumes(store, prefix, |listed|);
      var next := RequestPage(store, prefix, marker);
      if next == None {
        complete := false;
        return;
      }
      output := next.value;
    }
  }

  /** Yields the matching objects exactly once and in order, or a proper beginning of them when a request fails. */
  method ListObjects(store: seq<Object>, prefix: string) returns (listed: seq<Object>, outcome: Outcome)
    requires Ordered(store)
    ensures outcome == Complete ==> listed == After(store, prefix, None)
    ensures outcome == Complete ==>
      Ordered(listed) && forall entry :: entry in listed <==> entry in store && prefix <= entry.key
    ensures outcome == FirstPageFailed ==> listed == []
    ensures outcome == LaterPageFailed ==> listed < After(store, prefix, None)
  {
    var output := RequestPage(store, prefix, None);
    if output == None {
      return [], FirstPageFailed;
    }
    var complete;
    listed, complete := ListPages(store, prefix, output.value);
    AfterIsExact(store, prefix, None);
    return listed, if complete then Complete else LaterPageFailed;
  }
}

/** Merging stored nodes into the peer table while packets keep arriving (scanStorage in service/storage.go). */
module Scan {
  import opened Base
  import opened PeerTable

  /** A listed object under its host's address; without a body its load or decoding fails. */
  datatype Listed = Listed(ipAddr: IpAddr, lastModified: int, body: Option<Features>)

  function StoredNode(listed: Listed): Node
    requires listed.body.Some?
  {
    Node(listed.ipAddr, listed.lastModified, listed.body.value)
  }

  datatype Event = Packet(node: Node) | List(k: nat) | Load(k: nat)

  datatype Result = Result(table: Table, newAddrs: seq<IpAddr>)

  /** What scanStorage is given: the local address, the addresses it accepts, and its threshold. */
  datatype Context = Context(local: IpAddr, unicast: set<IpAddr>, thresholdNs: int)
  {
    predicate Accepts(listed: Listed) {
      listed.ipAddr != "" && listed.ipAddr != local && listed.ipAddr in unicast
    }

    predicate Fresh(listed: Listed) {
      Accepts(listed) && thresholdNs < listed.lastModified
    }

    predicate Stale(listed: Listed) {
      Accepts(listed) && listed.lastModified <= thresholdNs
    }
  }

  function LoadInto(r: Result, listed: Listed): Result {
    if listed.body == None then r
    else Result(Merge(r.table, StoredNode(listed)),
                if listed.ipAddr in r.table then r.newAddrs else r.newAddrs + [listed.ipAddr])
  }

  /** Every fresh object is loaded. */
  function SimpleStep(c: Context, objects: seq<Listed>, r: Result, event: Event): Result {
    match event
    case Packet(node) => r.(table := Merge(r.table, node))
    case List(_) => r
    case Load(k) => if k < |objects| && c.Fresh(objects[k]) then LoadInto(r, objects[k]) else r
  }

  function Simple(c: Context, objects: seq<Listed>, table: Table, events: seq<Event>): Result {
    if events == [] then Result(table, [])
    else SimpleStep(c, objects, Simple(c, objects, table, events[..|events| - 1]), events[|events| - 1])
  }

  /** The objects chosen when they were listed, and the table, when useless loads are skipped. */
  datatype Skipping = Skipping(result: Result, chosen: set<nat>)

  function OptimisedStep(c: Context, objects: seq<Listed>, s: Skipping, event: Event): Skipping {
    match event
    case Packet(node) => s.(result := s.result.(table := Merge(s.result.table, node)))
    case List(k) =>
      if k < |objects| && c.Fresh(objects[k]) && IsUpdatable(s.result.table, objects[k].ipAddr, objects[k].lastModified)
      then s.(chosen := s.chosen + {k}) else s
    case Load(k) => if k < |objects| && k in s.chosen then s.(result := LoadInto(s.result, objects[k])) else s
  }

  function Optimised(c: Context, objects: seq<Listed>, table: Table, events: seq<Event>): Skipping {
    if events == [] then Skipping(Result(table, []), {})
    else OptimisedStep(c, objects, Optimised(c, objects, table, events[..|events| - 1]), events[|events| - 1])
  }

  /** Every object is listed before it is loaded. */
  ghost predicate ListedFirst(events: seq<Event>) {
    if events == [] then true
    else
      var init, last := events[..|events| - 1], events[|events| - 1];
      ListedFirst(init) && (last.Load? ==> List(last.k) in init)
  }

  /** An object that was listed but not chosen has nothing to add, however the table has changed since. */
  ghost predicate SkippedUseless(c: Context, objects: seq<Listed>, events: seq<Event>, s: Skipping) {
    (forall k :: k in s.chosen ==> k < |objects| && c.Fresh(objects[k])) &&
    forall k :: 0 <= k < |objects| && List(k) in events && c.Fresh(objects[k]) && k !in s.chosen ==>
      !IsUpdatable(s.result.table, objects[k].ipAddr, objects[k].lastModified)
  }

  lemma UselessLoad(r: Result, listed: Listed)
    requires !IsUpdatable(r.table, listed.ipAddr, listed.lastModified)
    ensures LoadInto(r, listed) == r
  {
  }

  lemma StepsAgree(c: Context, objects: seq<Listed>, events: seq<Event>, s: Skipping, event: Event)
    requires SkippedUseless(c, objects, events, s) && (event.Load? ==> List(event.k) in events)
    ensures OptimisedStep(c, objects, s, event).result == SimpleStep(c, objects, s.result, event)
    ensures SkippedUseless(c, objects, events + [event], OptimisedStep(c, objects, s, event))
  {
    if event.Load? && event.k < |objects| && c.Fresh(objects[event.k]) && event.k !in s.chosen {
      UselessLoad(s.result, objects[event.k]);
    }
  }

  lemma {:induction false} SkippingLoadsNothingUseful(c: Context, objects: seq<Listed>, table: Table, events: seq<Event>)
    requires ListedFirst(events)
    ensures var s := Optimised(c, objects, table, events);
      s.result == Simple(c, objects, table, events) && SkippedUseless(c, objects, events, s)
  {
    if events == [] {
      return;
    }
    var init, last := events[..|events| - 1], events[|events| - 1];
    assert events == init + [last];
    SkippingLoadsNothingUseful(c, objects, table, init);
    StepsAgree(c, objects, init, Optimised(c, objects, table, init), last);
  }

  /** However packets interleave with a scan, skipping the loads that looked useless when listed changes nothing. */
  lemma OptimisedRefinesSimple(c: Context, objects: seq<Listed>, table: Table, events: seq<Event>)
    requires ListedFirst(events)
    ensures Optimised(c, objects, table, events).result == Simple(c, objects, table, events)
  {
    SkippingLoadsNothingUseful(c, objects, table, events);
  }

  // What the simple scan makes of a table.

  /** The object makes a node that is merged: it can be loaded, is accepted and is newer than the threshold. */
  ghost predicate Loadable(c: Context, objects: seq<Listed>, k: int) {
    0 <= k < |objects| && c.Fresh(objects[k]) && objects[k].body.Some?
  }

  /** The address comes with an object, and with no packet before that. */
  ghost predicate ComesByLoad(c: Context, objects: seq<Listed>, events: seq<Event>, ip: IpAddr, i: int) {
    0 <= i < |events| && events[i].Load? && Loadable(c, objects, events[i].k) && objects[events[i].k].ipAddr == ip &&
    forall j :: 0 <= j < i && events[j].Packet? ==> events[j].node.ipAddr != ip
  }

  ghost predicate IsObjectNode(c: Context, objects: seq<Listed>, node: Node, k: int) {
    Loadable(c, objects, k) && node == Node(objects[k].ipAddr, objects[k].lastModified, objects[k].body.value)
  }

  /** An entry is of the old table, of a packet or of an object. */
  lemma {:induction false} SimpleHasSource(c: Context, objects: seq<Listed>, table: Table, events: seq<Event>, ip: IpAddr)
    requires Keyed(table) && ip in Simple(c, objects, table, events).table
    ensures var node := Simple(c, objects, table, events).table[ip];
      node.ipAddr == ip &&
      ((ip in table && table[ip] == node) || Packet(node) in events ||
       exists k: nat :: Load(k) in events && IsObjectNode(c, objects, node, k))
  {
    if events != [] {
      var init, last := events[..|events| - 1], events[|events| - 1];
      assert events == init + [last];
      var before := Simple(c, objects, table, init).table;
      if ip in before && before[ip] == Simple(c, objects, table, events).table[ip] {
        SimpleHasSource(c, objects, table, init, ip);
      } else if last.Load? {
        assert IsObjectNode(c, objects, Simple(c, objects, table, events).table[ip], last.k);
      }
    }
  }

  /** The table only gains: nothing merged is lost to something older. */
  lemma {:induction false} SimpleOnlyGains(c: Context, objects: seq<Listed>, table: Table, events: seq<Event>)
    ensures var now := Simple(c, objects, table, events).table;
      (forall ip :: ip in table ==> ip in now && table[ip].timeNs <= now[ip].timeNs) &&
      (forall node :: Packet(node) in events ==> node.ipAddr in now && node.timeNs <= now[node.ipAddr].timeNs) &&
      forall k: nat :: Load(k) in events && Loadable(c, objects, k) ==>
        objects[k].ipAddr in now && objects[k].lastModified <= now[objects[k].ipAddr].timeNs
  {
    if events != [] {
      var init, last := events[..|events| - 1], events[|events| - 1];
      assert events == init + [last];
      SimpleOnlyGains(c, objects, table, init);
    }
  }

  /** The new addresses are those not in the table before that came with an object first, each once. */
  lemma {:induction false} NewAddrsComeByLoad(c: Context, objects: seq<Listed>, table: Table, events: seq<Event>, ip: IpAddr)
    requires Keyed(table)
    ensures var newAddrs := Simple(c, objects, table, events).newAddrs;
      (ip in newAddrs <==> ip !in table && exists i :: ComesByLoad(c, objects, events, ip, i)) &&
      forall i, j :: 0 <= i < j < |newAddrs| ==> newAddrs[i] != newAddrs[j]
  {
    if events == [] {
      return;
    }
    var init, last := events[..|events| - 1], events[|events| - 1];
    var before := Simple(c, objects, table, init);
    assert events == init + [last];
    NewAddrsComeByLoad(c, objects, table, init, ip);
    forall i | 0 <= i < |init|
      ensures ComesByLoad(c, objects, events, ip, i) <==> ComesByLoad(c, objects, init, ip, i)
    {
      assert forall j :: 0 <= j <= i ==> init[j] == events[j];
    }
    SimpleOnlyGains(c, objects, table, init);
    if last.Load? && Loadable(c, objects, last.k) {
      NewAddrsComeByLoad(c, objects, table, init, objects[last.k].ipAddr);
      if ip in before.table {
        KnownBefore(c, objects, table, init, ip);
      }
      if objects[last.k].ipAddr in before.newAddrs {
        NewIsHeld(c, objects, table, init, objects[last.k].ipAddr);
      }
      if objects[last.k].ipAddr == ip && ip !in before.table {
        assert forall j :: 0 <= j < |init| ==> events[j] == init[j] && init[j] in init;
        assert ComesByLoad(c, objects, events, ip, |init|);
      }
    }
  }

  lemma NewIsHeld(c: Context, objects: seq<Listed>, table: Table, events: seq<Event>, ip: IpAddr)
    requires exists i :: ComesByLoad(c, objects, events, ip, i)
    ensures ip in Simple(c, objects, table, events).table
  {
    var i :| ComesByLoad(c, objects, events, ip, i);
    assert events[i] in events;
    SimpleOnlyGains(c, objects, table, events);
  }

  /** An address that is held was in the table before, or came with a packet, or came with an object first. */
  lemma KnownBefore(c: Context, objects: seq<Listed>, table: Table, events: seq<Event>, ip: IpAddr)
    requires Keyed(table) && ip in Simple(c, objects, table, events).table
    ensures ip in table || (exists i :: ComesByLoad(c, objects, events, ip, i)) ||
      exists j :: 0 <= j < |events| && events[j].Packet? && events[j].node.ipAddr == ip
  {
    SimpleHasSource(c, objects, table, events, ip);
    var node := Simple(c, objects, table, events).table[ip];
    if k: nat :| Load(k) in events && IsObjectNode(c, objects, node, k) {
      var i :| 0 <= i < |events| && events[i] == Load(k);
      if forall j :: 0 <= j < i && events[j].Packet? ==> events[j].node.ipAddr != ip {
        assert ComesByLoad(c, objects, events, ip, i);
      }
    }
  }

  lemma ListedFirstAppend(events: seq<Event>, event: Event)
    requires ListedFirst(events) && (event.Load? ==> List(event.k) in events)
    ensures ListedFirst(events + [event])
  {
    assert (events + [event])[..|events|] == events;
  }

  /** The run so far of a scan: its events, and that they led to the table and the new addresses. */
  ghost predicate Ran(c: Context, objects: seq<Listed>, table: Table, events: seq<Event>, now: Table,
                      newAddrs: seq<IpAddr>, chosen: set<nat>) {
    ListedFirst(events) &&
    Optimised(c, objects, table, events) == Skipping(Result(now, newAddrs), chosen)
  }

  lemma RanFurther(c: Context, objects: seq<Listed>, table: Table, events: seq<Event>, event: Event,
                   now: Table, newAddrs: seq<IpAddr>, chosen: set<nat>)
    requires Ran(c, objects, table, events, now, newAddrs, chosen)
    requires event.Load? ==> List(event.k) in events
    ensures ListedFirst(events + [event])
    ensures Optimised(c, objects, table, events + [event]) ==
      OptimisedStep(c, objects, Skipping(Result(now, newAddrs), chosen), event)
  {
    ListedFirstAppend(events, event);
    assert (events + [event])[..|events|] == events;
  }

  lemma RunOnlyGains(c: Context, objects: seq<Listed>, table: Table, events: seq<Event>, now: Table,
                     newAddrs: seq<IpAddr>, chosen: set<nat>)
    requires Ran(c, objects, table, events, now, newAddrs, chosen)
    ensures forall ip :: ip in table ==> ip in now && table[ip].timeNs <= now[ip].timeNs
  {
    OptimisedRefinesSimple(c, objects, table, events);
    SimpleOnlyGains(c, objects, table, events);
  }

  /** Any packets may arrive at any point of a scan. */
  method ReceivePackets(remotes: RemoteNodes, c: Context, objects: seq<Listed>, ghost table: Table,
                        ghost before: seq<Event>, ghost newAddrs: seq<IpAddr>, ghost chosen: set<nat>)
    returns (ghost events: seq<Event>)
    requires remotes.Valid() && Ran(c, objects, table, before, remotes.ipAddrs, newAddrs, chosen)
    modifies remotes
    ensures remotes.Valid() && Ran(c, objects, table, events, remotes.ipAddrs, newAddrs, chosen)
    ensures forall e: Event :: !e.Packet? ==> (e in events <==> e in before)
  {
    events := before;
    var n: nat := *;
    while n > 0
      invariant remotes.Valid() && Ran(c, objects, table, events, remotes.ipAddrs, newAddrs, chosen)
      invariant forall e: Event :: !e.Packet? ==> (e in events <==> e in before)
    {
      var node: Node := *;
      RanFurther(c, objects, table, events, Packet(node), remotes.ipAddrs, newAddrs, chosen);
      var _ := remotes.Update(node);
      events := events + [Packet(node)];
      n := n - 1;
    }
  }

  ghost predicate ListedUpTo(events: seq<Event>, n: nat) {
    forall k: nat :: List(k) in events <==> k < n
  }

  /** The listing loop: which objects to load, and which to delete. */
  method ChooseKeys(remotes: RemoteNodes, c: Context, objects: seq<Listed>)
    returns (loadKeys: seq<nat>, deleteKeys: seq<nat>, ghost events: seq<Event>)
    requires remotes.Valid()
    modifies remotes
    ensures remotes.Valid()
    ensures Ran(c, objects, old(remotes.ipAddrs), events, remotes.ipAddrs, [], set k | k in loadKeys)
    ensures forall k :: k in loadKeys ==> k < |objects|
    ensures forall k :: k in loadKeys && objects[k].ipAddr in old(remotes.ipAddrs) ==>
      old(remotes.ipAddrs)[objects[k].ipAddr].timeNs < objects[k].lastModified
    ensures ListedUpTo(events, |objects|) && forall e :: e in events ==> !e.Load?
    ensures forall k: nat :: k in deleteKeys <==>
      k < |objects| && objects[k].lastModified <= c.thresholdNs &&
      objects[k].ipAddr != "" && objects[k].ipAddr != c.local && objects[k].ipAddr in c.unicast
    ensures forall i, j :: 0 <= i < j < |deleteKeys| ==> deleteKeys[i] < deleteKeys[j]
  {
    loadKeys, deleteKeys, events := [], [], [];
    ghost var table: Table, chosen: set<nat> := remotes.ipAddrs, {};
    var i := 0;
    while i < |objects|
      invariant 0 <= i <= |objects|
      invariant remotes.Valid() && Ran(c, objects, table, events, remotes.ipAddrs, [], chosen)
      invariant forall k :: k in chosen <==> k in loadKeys
      invariant ListedUpTo(events, i) && forall e :: e in events ==> !e.Load?
      invariant forall k :: k in loadKeys ==> k < i
      invariant forall k :: k in loadKeys && objects[k].ipAddr in table ==>
        table[objects[k].ipAddr].timeNs < objects[k].lastModified
      invariant forall k: nat :: k in deleteKeys <==> k < i && c.Stale(objects[k])
      invariant forall k, l :: 0 <= k < l < |deleteKeys| ==> deleteKeys[k] < deleteKeys[l]
      invariant forall k :: 0 <= k < |deleteKeys| ==> deleteKeys[k] < i
    {
      events := ReceivePackets(remotes, c, objects, table, events, [], chosen);
      RanFurther(c, objects, table, events, List(i), remotes.ipAddrs, [], chosen);
      RunOnlyGains(c, objects, table, events, remotes.ipAddrs, [], chosen);
      var listed := objects[i];
      if c.Accepts(listed) {
        if c.thresholdNs < listed.lastModified {
          var updatable := remotes.Updatable(listed.ipAddr, listed.lastModified);
          if updatable {
            loadKeys, chosen := loadKeys + [i], chosen + {i};
          }
        } else {
          deleteKeys := deleteKeys + [i];
        }
      }
      events := events + [List(i)];
      i := i + 1;
    }
    assert chosen == set k | k in loadKeys;
  }

  /** One load: an object that cannot be fetched or decoded adds nothing. */
  method LoadKey(remotes: RemoteNodes, listed: Listed, newAddrs: seq<IpAddr>) returns (newAddrs': seq<IpAddr>)
    requires remotes.Valid()
    modifies remotes
    ensures remotes.Valid()
    ensures Result(remotes.ipAddrs, newAddrs') == LoadInto(Result(old(remotes.ipAddrs), newAddrs), listed)
  {
    newAddrs' := newAddrs;
    if listed.body.Some? {
      var newAddr := remotes.Update(StoredNode(listed));
      if newAddr.Some? {
        newAddrs' := newAddrs' + [newAddr.value];
      }
    }
  }

  /** The loading loop. */
  method LoadKeys(remotes: RemoteNodes, c: Context, objects: seq<Listed>, loadKeys: seq<nat>, ghost table: Table,
                  ghost before: seq<Event>)
    returns (newAddrs: seq<IpAddr>, ghost events: seq<Event>)
    requires remotes.Valid() && Ran(c, objects, table, before, remotes.ipAddrs, [], set k | k in loadKeys)
    requires (forall k :: k in loadKeys ==> k < |objects|) && forall k: nat :: k < |objects| ==> List(k) in before
    modifies remotes
    ensures remotes.Valid() && Ran(c, objects, table, events, remotes.ipAddrs, newAddrs, set k | k in loadKeys)
    ensures (forall k: nat :: k < |objects| ==> List(k) in events) && forall k :: k in loadKeys ==> Load(k) in events
  {
    newAddrs, events := [], before;
    ghost var chosen: set<nat> := set k | k in loadKeys;
    var i := 0;
    while i < |loadKeys|
      invariant 0 <= i <= |loadKeys|
      invariant remotes.Valid() && Ran(c, objects, table, events, remotes.ipAddrs, newAddrs, chosen)
      invariant forall k: nat :: k < |objects| ==> List(k) in events
      invariant forall j :: 0 <= j < i ==> Load(loadKeys[j]) in events
    {
      events := ReceivePackets(remotes, c, objects, table, events, newAddrs, chosen);
      var k := loadKeys[i];
      assert k in loadKeys && List(k) in events;
      RanFurther(c, objects, table, events, Load(k), remotes.ipAddrs, newAddrs, chosen);
      newAddrs := LoadKey(remotes, objects[k], newAddrs);
      events := events + [Load(k)];
      i := i + 1;
    }
  }

  /** The entries after a scan, one by one. */
  lemma EntriesAfter(c: Context, objects: seq<Listed>, table: Table, events: seq<Event>, after: Table)
    requires Keyed(table) && after == Prune(Simple(c, objects, table, events).table, c.thresholdNs)
    requires forall k: nat :: k < |objects| ==> Load(k) in events
    ensures forall ip :: ip in after ==>
      var node := after[ip];
      (ip in table && table[ip] == node) || (node.ipAddr == ip && Packet(node) in events) ||
      exists k :: 0 <= k < |objects| && objects[k].ipAddr == ip && objects[k].body == Some(node.features) &&
        node == Node(ip, objects[k].lastModified, node.features) && c.thresholdNs < objects[k].lastModified &&
        ip != "" && ip != c.local && ip in c.unicast
    ensures forall ip :: ip in after ==> c.thresholdNs <= after[ip].timeNs
    ensures forall ip :: ip in table && c.thresholdNs <= table[ip].timeNs ==>
      ip in after && table[ip].timeNs <= after[ip].timeNs
    ensures forall node :: Packet(node) in events && c.thresholdNs <= node.timeNs ==>
      node.ipAddr in after && node.timeNs <= after[node.ipAddr].timeNs
    ensures forall k ::
      0 <= k < |objects| && objects[k].body.Some? && c.thresholdNs < objects[k].lastModified &&
      objects[k].ipAddr != "" && objects[k].ipAddr != c.local && objects[k].ipAddr in c.unicast ==>
        objects[k].ipAddr in after && objects[k].lastModified <= after[objects[k].ipAddr].timeNs
  {
    SimpleOnlyGains(c, objects, table, events);
    forall ip | ip in after
      ensures var node := after[ip];
        (ip in table && table[ip] == node) || (node.ipAddr == ip && Packet(node) in events) ||
        exists k: nat :: IsObjectNode(c, objects, node, k) && node.ipAddr == ip
    {
      SimpleHasSource(c, objects, table, events, ip);
    }
    forall k: nat | k < |objects| && objects[k].body.Some? && c.Fresh(objects[k])
      ensures objects[k].ipAddr in after && objects[k].lastModified <= after[objects[k].ipAddr].timeNs
    {
      assert Load(k) in events && Loadable(c, objects, k);
    }
  }

  /** An address is new to a scan if it was not in the table before, and came with an object first. */
  lemma NewAddrAfter(c: Context, objects: seq<Listed>, table: Table, events: seq<Event>, ip: IpAddr)
    requires Keyed(table)
    ensures ip in Simple(c, objects, table, events).newAddrs <==>
      ip !in table && ip != "" && ip != c.local && ip in c.unicast &&
      exists i ::
        0 <= i < |events| && events[i].Load? && events[i].k < |objects| && objects[events[i].k].ipAddr == ip &&
        objects[events[i].k].body.Some? && c.thresholdNs < objects[events[i].k].lastModified &&
        forall j :: 0 <= j < i && events[j].Packet? ==> events[j].node.ipAddr != ip
  {
    NewAddrsComeByLoad(c, objects, table, events, ip);
    if i :| ComesByLoad(c, objects, events, ip, i) {
      assert events[i].Load? && objects[events[i].k].ipAddr == ip;
    }
    if i :|
      0 <= i < |events| && events[i].Load? && events[i].k < |objects| && objects[events[i].k].ipAddr == ip &&
      c.Fresh(objects[events[i].k]) && objects[events[i].k].body.Some? &&
      forall j :: 0 <= j < i && events[j].Packet? ==> events[j].node.ipAddr != ip {
      assert ComesByLoad(c, objects, events, ip, i);
    }
  }

  lemma NewAddrsAfter(c: Context, objects: seq<Listed>, table: Table, events: seq<Event>, newAddrs: seq<IpAddr>)
    requires Keyed(table) && newAddrs == Simple(c, objects, table, events).newAddrs
    ensures forall ip :: ip in newAddrs <==>
      ip !in table && ip != "" && ip != c.local && ip in c.unicast &&
      exists i ::
        0 <= i < |events| && events[i].Load? && events[i].k < |objects| && objects[events[i].k].ipAddr == ip &&
        objects[events[i].k].body.Some? && c.thresholdNs < objects[events[i].k].lastModified &&
        forall j :: 0 <= j < i && events[j].Packet? ==> events[j].node.ipAddr != ip
    ensures forall i, j :: 0 <= i < j < |newAddrs| ==> newAddrs[i] != newAddrs[j]
  {
    NewAddrsComeByLoad(c, objects, table, events, "");
    forall ip
    {
      NewAddrAfter(c, objects, table, events, ip);
    }
  }

  /**
   A whole scan: the table and the addresses to reply to are those of the simple scan over the same
   events, then expired. `events` holds a load of every object; those of skipped objects come last.

   Said without that scan: each entry is an old one, a packet's node or the node of an object that could be loaded; none
   is older than the threshold; and none of these is missing but for one at least as new. Replies go to exactly the
   addresses that came with an object first.
  */
  method ScanStorage(remotes: RemoteNodes, c: Context, objects: seq<Listed>)
    returns (newAddrs: seq<IpAddr>, deleteKeys: seq<nat>, ghost events: seq<Event>)
    requires remotes.Valid()
    modifies remotes
    ensures remotes.Valid()
    ensures remotes.ipAddrs == Prune(Simple(c, objects, old(remotes.ipAddrs), events).table, c.thresholdNs)
    ensures newAddrs == Simple(c, objects, old(remotes.ipAddrs), events).newAddrs
    ensures forall k: nat :: k < |objects| ==> List(k) in events && Load(k) in events
    ensures forall ip :: ip in remotes.ipAddrs ==>
      var node := remotes.ipAddrs[ip];
      (ip in old(remotes.ipAddrs) && old(remotes.ipAddrs)[ip] == node) || (node.ipAddr == ip && Packet(node) in events) ||
      exists k :: 0 <= k < |objects| && objects[k].ipAddr == ip && objects[k].body == Some(node.features) &&
        node == Node(ip, objects[k].lastModified, node.features) && c.thresholdNs < objects[k].lastModified &&
        ip != "" && ip != c.local && ip in c.unicast
    ensures forall ip :: ip in remotes.ipAddrs ==> c.thresholdNs <= remotes.ipAddrs[ip].timeNs
    ensures forall ip :: ip in old(remotes.ipAddrs) && c.thresholdNs <= old(remotes.ipAddrs)[ip].timeNs ==>
      ip in remotes.ipAddrs && old(remotes.ipAddrs)[ip].timeNs <= remotes.ipAddrs[ip].timeNs
    ensures forall node :: Packet(node) in events && c.thresholdNs <= node.timeNs ==>
      node.ipAddr in remotes.ipAddrs && node.timeNs <= remotes.ipAddrs[node.ipAddr].timeNs
    ensures forall k ::
      0 <= k < |objects| && objects[k].body.Some? && c.thresholdNs < objects[k].lastModified &&
      objects[k].ipAddr != "" && objects[k].ipAddr != c.local && objects[k].ipAddr in c.unicast ==>
        objects[k].ipAddr in remotes.ipAddrs && objects[k].lastModified <= remotes.ipAddrs[objects[k].ipAddr].timeNs
    ensures forall ip :: ip in newAddrs <==>
      ip !in old(remotes.ipAddrs) && ip != "" && ip != c.local && ip in c.unicast &&
      exists i ::
        0 <= i < |events| && events[i].Load? && events[i].k < |objects| && objects[events[i].k].ipAddr == ip &&
        objects[events[i].k].body.Some? && c.thresholdNs < objects[events[i].k].lastModified &&
        forall j :: 0 <= j < i && events[j].Packet? ==> events[j].node.ipAddr != ip
    ensures forall i, j :: 0 <= i < j < |newAddrs| ==> newAddrs[i] != newAddrs[j]
    ensures forall k: nat :: k in deleteKeys <==>
      k < |objects| && objects[k].lastModified <= c.thresholdNs &&
      objects[k].ipAddr != "" && objects[k].ipAddr != c.local && objects[k].ipAddr in c.unicast
    ensures forall i, j :: 0 <= i < j < |deleteKeys| ==> deleteKeys[i] < deleteKeys[j]
  {
    var loadKeys;
    loadKeys, deleteKeys, events := ChooseKeys(remotes, c, objects);
    ghost var table := old(remotes.ipAddrs);
    newAddrs, events := LoadKeys(remotes, c, objects, loadKeys, table, events);
    ghost var chosen: set<nat> := set k | k in loadKeys;
    LoadSkipped(c, objects, table, events, remotes.ipAddrs, newAddrs, chosen, |objects|);
    SkippedAreLoaded(events, chosen, |objects|);
    events := WithSkipped(events, chosen, |objects|);
    OptimisedRefinesSimple(c, objects, table, events);
    remotes.Expire(c.thresholdNs);
    EntriesAfter(c, objects, table, events, remotes.ipAddrs);
    NewAddrsAfter(c, objects, table, events, newAddrs);
  }

  /** Loading an object that was not chosen is no event of the optimised scan. */
  lemma SkippedLoad(c: Context, objects: seq<Listed>, table: Table, events: seq<Event>, k: nat,
                    now: Table, newAddrs: seq<IpAddr>, chosen: set<nat>)
    requires Ran(c, objects, table, events, now, newAddrs, chosen) && List(k) in events && k !in chosen
    ensures Ran(c, objects, table, events + [Load(k)], now, newAddrs, chosen)
  {
    RanFurther(c, objects, table, events, Load(k), now, newAddrs, chosen);
  }

  /** The events followed by a load of each of the first objects that was not chosen. */
  ghost function WithSkipped(events: seq<Event>, chosen: set<nat>, n: nat): seq<Event> {
    if n == 0 then events
    else WithSkipped(events, chosen, n - 1) + if n - 1 in chosen then [] else [Load(n - 1)]
  }

  lemma {:induction false} SkippedAreLoaded(events: seq<Event>, chosen: set<nat>, n: nat)
    ensures forall e :: e in events ==> e in WithSkipped(events, chosen, n)
    ensures forall k: nat :: k < n && k !in chosen ==> Load(k) in WithSkipped(events, chosen, n)
  {
    if n > 0 {
      SkippedAreLoaded(events, chosen, n - 1);
    }
  }

  lemma {:induction false} LoadSkipped(c: Context, objects: seq<Listed>, table: Table, events: seq<Event>,
                                       now: Table, newAddrs: seq<IpAddr>, chosen: set<nat>, n: nat)
    requires Ran(c, objects, table, events, now, newAddrs, chosen)
    requires forall k: nat :: k < n ==> List(k) in events
    ensures Ran(c, objects, table, WithSkipped(events, chosen, n), now, newAddrs, chosen)
  {
    if n > 0 {
      var shorter := WithSkipped(events, chosen, n - 1);
      LoadSkipped(c, objects, table, events, now, newAddrs, chosen, n - 1);
      if n - 1 !in chosen {
        SkippedAreLoaded(events, chosen, n - 1);
        SkippedLoad(c, objects, table, shorter, n - 1, now, newAddrs, chosen);
        assert WithSkipped(events, chosen, n) == shorter + [Load(n - 1)];
      } else {
        assert WithSkipped(events, chosen, n) == shorter;
      }
    }
  }
}
