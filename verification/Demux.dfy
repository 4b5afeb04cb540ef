/** Forwarding features by name to buffered subscribers (go/demux.go). */
module Demux {
  import opened Base

  datatype Feature = Feature(name: string, host: string, data: Option<string>)

  /** Where the goroutine of a FeatureBuffer stands: before its select, in it, or gone. */
  datatype BufferPc = Top | Selecting | Returned

  /**
   A subscriber's channel: what it has taken in, what it still holds, what its consumer has received, how often
   the consumer's channel was closed, and whether the dispatcher has closed it. If it is the queue of a
   FeatureBuffer there is a goroutine, which holds the buffer and listens until it has seen the close.
  */
  datatype Subscriber = Subscriber(name: string, buffered: bool, capacity: nat, pc: BufferPc, listening: bool,
                                   queueClosed: bool, accepted: seq<Feature>, held: seq<Feature>,
                                   delivered: seq<Feature>, closes: nat)

  /** The steps of the goroutine. It meets its sender in `Receive` and its consumer in `Deliver`. */
  datatype BufferAction = Turn | Receive(feature: Feature) | HearClose | Deliver | Return

  predicate BufferEnabled(sub: Subscriber, a: BufferAction) {
    sub.buffered &&
    match a
    case Turn => sub.pc == Top && (sub.held != [] || sub.listening)
    case Receive(_) => sub.pc == Selecting && sub.listening && !sub.queueClosed
    case HearClose => sub.pc == Selecting && sub.listening && sub.queueClosed
    case Deliver => sub.pc == Selecting && sub.held != []
    case Return => sub.pc == Top && sub.held == [] && !sub.listening
  }

  function BufferNext(sub: Subscriber, a: BufferAction): Subscriber
    requires BufferEnabled(sub, a)
  {
    match a
    case Turn => sub.(pc := Selecting)
    case Receive(feature) => sub.(pc := Top, accepted := sub.accepted + [feature], held := sub.held + [feature])
    case HearClose => sub.(pc := Top, listening := false)
    case Deliver => sub.(pc := Top, held := sub.held[1..], delivered := sub.delivered + [sub.held[0]])
    case Return => sub.(pc := Returned, closes := sub.closes + 1)
  }

  predicate Fresh(sub: Subscriber) {
    sub.pc == Top && sub.listening && !sub.queueClosed && sub.accepted == [] && sub.held == [] && sub.delivered == [] &&
    sub.closes == 0
  }

  /** The goroutine's steps, and the close of its queue. */
  ghost predicate BufferRun(run: seq<Subscriber>) {
    |run| > 0 && Fresh(run[0]) && forall i, j :: 0 <= i && j == i + 1 < |run| ==> BufferStep(run[i], run[j])
  }

  ghost predicate BufferStep(sub: Subscriber, next: Subscriber) {
    (exists a :: BufferEnabled(sub, a) && next == BufferNext(sub, a)) ||
    (!sub.queueClosed && next == sub.(queueClosed := true))
  }

  lemma ExtendBufferRun(run: seq<Subscriber>, a: BufferAction)
    requires BufferRun(run) && BufferEnabled(run[|run| - 1], a)
    ensures BufferRun(run + [BufferNext(run[|run| - 1], a)])
  {
    assert BufferStep(run[|run| - 1], BufferNext(run[|run| - 1], a));
  }

  /**
   The goroutine of FeatureBuffer, given all that will be sent before the close. Which ready case a select
   takes, and so how long the consumer stalls, is arbitrary. `run` shows its steps to be those above.
  */
  method FeatureBuffer(name: string, queue: seq<Feature>)
    returns (output: seq<Feature>, closes: nat, ghost run: seq<Subscriber>)
    ensures output == queue && closes == 1
    ensures BufferRun(run)
    ensures var last := run[|run| - 1];
      last.pc == Returned && last.accepted == queue && last.delivered == output && last.closes == closes
  {
    var buffer: seq<Feature> := [];
    var open := true;
    var received := 0;
    output, closes := [], 0;
    ghost var sub := Subscriber(name, true, 0, Top, true, false, [], [], [], 0);
    run := [sub];
    while true
      invariant BufferRun(run) && run[|run| - 1] == sub && sub.buffered && sub.pc == Top
      invariant sub.held == buffer && sub.listening == open && sub.delivered == output && sub.closes == closes == 0
      invariant received <= |queue| && sub.accepted == queue[..received] && output + buffer == queue[..received]
      invariant !open ==> received == |queue|
      invariant sub.queueClosed == !open
      decreases 2 * (|queue| - received) + |buffer| + if open then 1 else 0
    {
      if buffer == [] && !open {
        ExtendBufferRun(run, Return);
        run := run + [BufferNext(sub, Return)];
        closes := closes + 1;
        return;
      }
      ExtendBufferRun(run, Turn);
      sub := BufferNext(sub, Turn);
      run := run + [sub];
      if
      case open =>
        if received < |queue| {
          ExtendBufferRun(run, Receive(queue[received]));
          sub := BufferNext(sub, Receive(queue[received]));
          buffer := buffer + [queue[received]];
          received := received + 1;
        } else {
          assert BufferStep(sub, sub.(queueClosed := true));
          run := run + [sub.(queueClosed := true)];
          ExtendBufferRun(run, HearClose);
          sub := BufferNext(sub.(queueClosed := true), HearClose);
          open := false;
        }
        run := run + [sub];
      case buffer != [] =>
        ExtendBufferRun(run, Deliver);
        sub := BufferNext(sub, Deliver);
        run := run + [sub];
        output := output + [buffer[0]];
        buffer := buffer[1..];
    }
  }

  /** The features of one name, in order. */
  function Named(features: seq<Feature>, name: string): seq<Feature> {
    if features == [] then []
    else
      var last := features[|features| - 1];
      Named(features[..|features| - 1], name) + if last.name == name then [last] else []
  }

  lemma NamedAppend(features: seq<Feature>, feature: Feature, name: string)
    ensures Named(features + [feature], name) == Named(features, name) + if feature.name == name then [feature] else []
  {
    assert (features + [feature])[..|features|] == features;
  }

  /** The features of a name are those at increasing positions, and all that have it. */
  lemma {:induction false} NamedIsExact(features: seq<Feature>, name: string) returns (at: seq<nat>)
    ensures |at| == |Named(features, name)|
    ensures forall i, j :: 0 <= i < j < |at| ==> at[i] < at[j]
    ensures forall i :: 0 <= i < |at| ==> at[i] < |features| && Named(features, name)[i] == features[at[i]]
    ensures forall k :: 0 <= k < |features| ==> (k in at <==> features[k].name == name)
  {
    at := [];
    if features != [] {
      at := NamedIsExact(features[..|features| - 1], name);
      if features[|features| - 1].name == name {
        at := at + [|features| - 1];
      }
    }
  }

  class Channel {
    var sent: seq<Feature>
    var closes: nat
  }

  /** The registry and forwarding loop; a send to a channel is taken at once. */
  class FeatureDemux {
    var outputs: map<string, seq<Channel>>

    ghost predicate Valid()
      reads this
    {
      forall n, i, m, j ::
        (n in outputs && m in outputs && 0 <= i < |outputs[n]| && 0 <= j < |outputs[m]| &&
          outputs[n][i] == outputs[m][j]) ==> n == m && i == j
    }

    ghost function Registered(): set<Channel>
      reads this
    {
      set n, c | n in outputs && c in outputs[n] :: c
    }

    /** No channel is registered twice, unless this one is: then it would be closed twice. */
    method Add(name: string, output: Channel)
      modifies this
      ensures Valid() <==> old(Valid()) && output !in old(Registered())
      ensures outputs == old(outputs)[name := (if name in old(outputs) then old(outputs)[name] else []) + [output]]
    {
      var channels := if name in outputs then outputs[name] else [];
      ghost var before := outputs;
      outputs := outputs[name := channels + [output]];
      assert outputs[name][|channels|] == output;
      assert forall n, i :: n in before && 0 <= i < |before[n]| ==>
        outputs[n][i] == before[n][i] && before[n][i] in before[n];
      if output in old(Registered()) {
        var n, c :| n in before && c in before[n] && c == output;
        var i :| 0 <= i < |before[n]| && before[n][i] == output;
        assert outputs[n][i] == outputs[name][|channels|];
      }
    }

    /** Every channel is sent the features of its name in order, and closed once. */
    method Start(input: seq<Feature>)
      requires Valid()
      modifies Registered()
      ensures forall n, i :: n in outputs && 0 <= i < |outputs[n]| ==>
        outputs[n][i].sent == old(outputs[n][i].sent) + Named(input, n) &&
        outputs[n][i].closes == old(outputs[n][i].closes) + 1
    {
      var k := 0;
      while k < |input|
        invariant 0 <= k <= |input|
        invariant forall n, i :: n in outputs && 0 <= i < |outputs[n]| ==>
          outputs[n][i].sent == old(outputs[n][i].sent) + Named(input[..k], n) &&
          outputs[n][i].closes == old(outputs[n][i].closes)
      {
        Forward(input[k]);
        assert input[..k + 1] == input[..k] + [input[k]];
        forall n
          ensures Named(input[..k + 1], n) == Named(input[..k], n) + if input[k].name == n then [input[k]] else []
        {
          NamedAppend(input[..k], input[k], n);
        }
        k := k + 1;
      }
      assert input[..k] == input;
      CloseAll();
    }

    method Forward(f: Feature)
      requires Valid()
      modifies Registered()
      ensures forall n, i :: n in outputs && 0 <= i < |outputs[n]| ==>
        outputs[n][i].sent == old(outputs[n][i].sent) + (if f.name == n then [f] else []) &&
        outputs[n][i].closes == old(outputs[n][i].closes)
    {
      var channels := if f.name in outputs then outputs[f.name] else [];
      var j := 0;
      while j < |channels|
        invariant 0 <= j <= |channels|
        invariant forall n, i :: n in outputs && 0 <= i < |outputs[n]| ==>
          outputs[n][i].sent == old(outputs[n][i].sent) + (if f.name == n && i < j then [f] else []) &&
          outputs[n][i].closes == old(outputs[n][i].closes)
      {
        assert f.name in outputs && channels[j] in outputs[f.name];
        channels[j].sent := channels[j].sent + [f];
        j := j + 1;
      }
    }

    method CloseAll()
      requires Valid()
      modifies Registered()
      ensures forall n, i :: n in outputs && 0 <= i < |outputs[n]| ==>
        outputs[n][i].sent == old(outputs[n][i].sent) && outputs[n][i].closes == old(outputs[n][i].closes) + 1
    {
      var unseen := outputs.Keys;
      while unseen != {}
        invariant unseen <= outputs.Keys
        invariant forall n, i :: n in outputs && 0 <= i < |outputs[n]| ==>
          outputs[n][i].sent == old(outputs[n][i].sent) &&
          outputs[n][i].closes == old(outputs[n][i].closes) + if n in unseen then 0 else 1
        decreases unseen
      {
        var name :| name in unseen;
        var channels := outputs[name];
        var j := 0;
        while j < |channels|
          invariant 0 <= j <= |channels|
          invariant forall n, i :: n in outputs && 0 <= i < |outputs[n]| ==>
            outputs[n][i].sent == old(outputs[n][i].sent) &&
            outputs[n][i].closes == old(outputs[n][i].closes) + if n in unseen && (n != name || j <= i) then 0 else 1
        {
          assert name in outputs && channels[j] in outputs[name];
          channels[j].closes := channels[j].closes + 1;
          j := j + 1;
        }
        unseen := unseen - {name};
      }
    }
  }

  // The demultiplexer and its subscribers, concurrently.

  datatype Dispatch = Waiting | Sending(feature: Feature, rest: seq<nat>) | Closing(unclosed: set<nat>) | Done

  datatype State = State(input: seq<Feature>, inputClosed: bool, dispatch: Dispatch, subscribers: seq<Subscriber>)

  datatype Action =
    | Input(feature: Feature)
    | CloseInput
    | Send
    | Sent
    | EndInput
    | CloseQueue(i: nat)
    | Stop
    | Consume(i: nat)
    | Buffer(i: nat, action: BufferAction)

  ghost predicate Init(s: State) {
    s.input == [] && !s.inputClosed && s.dispatch == Waiting &&
    forall i :: 0 <= i < |s.subscribers| ==> Fresh(s.subscribers[i])
  }

  /** A FeatureBuffer takes a feature when its goroutine is in its select, another channel when it has room. */
  predicate Accepts(sub: Subscriber, feature: Feature) {
    if sub.buffered then BufferEnabled(sub, Receive(feature)) else !sub.queueClosed && |sub.held| < sub.capacity
  }

  /** The consumer of a FeatureBuffer meets the goroutine. */
  predicate Offers(sub: Subscriber) {
    if sub.buffered then BufferEnabled(sub, Deliver) else sub.held != []
  }

  predicate Enabled(s: State, a: Action) {
    match a
    case Input(_) => s.dispatch == Waiting && !s.inputClosed
    case CloseInput => !s.inputClosed
    case Send =>
      s.dispatch.Sending? && s.dispatch.rest != [] && s.dispatch.rest[0] < |s.subscribers| &&
      Accepts(s.subscribers[s.dispatch.rest[0]], s.dispatch.feature)
    case Sent => s.dispatch.Sending? && s.dispatch.rest == []
    case EndInput => s.dispatch == Waiting && s.inputClosed
    case CloseQueue(i) => s.dispatch.Closing? && i in s.dispatch.unclosed && i < |s.subscribers|
    case Stop => s.dispatch == Closing({})
    case Consume(i) => i < |s.subscribers| && Offers(s.subscribers[i])
    case Buffer(i, b) =>
      i < |s.subscribers| && (b == Turn || b == HearClose || b == Return) && BufferEnabled(s.subscribers[i], b)
  }

  /** The subscribers of a name, in the order they were added. */
  function Targets(subscribers: seq<Subscriber>, name: string): (targets: seq<nat>)
    ensures forall i: nat :: i in targets <==> i < |subscribers| && subscribers[i].name == name
    ensures forall j, k :: 0 <= j < k < |targets| ==> targets[j] < targets[k]
  {
    if subscribers == [] then []
    else
      var n := |subscribers| - 1;
      var earlier := Targets(subscribers[..n], name);
      assert forall k :: 0 <= k < |earlier| ==> earlier[k] in earlier;
      assert forall i: nat :: i < n ==> subscribers[..n][i] == subscribers[i];
      if subscribers[n].name == name then earlier + [n] else earlier
  }

  function Below(n: nat): (indices: set<nat>)
    ensures forall i: nat :: i in indices <==> i < n
  {
    if n == 0 then {} else Below(n - 1) + {n - 1}
  }

  function Taking(sub: Subscriber, feature: Feature): Subscriber
    requires Accepts(sub, feature)
  {
    if sub.buffered then BufferNext(sub, Receive(feature))
    else sub.(accepted := sub.accepted + [feature], held := sub.held + [feature])
  }

  function Giving(sub: Subscriber): Subscriber
    requires Offers(sub)
  {
    if sub.buffered then BufferNext(sub, Deliver)
    else sub.(held := sub.held[1..], delivered := sub.delivered + [sub.held[0]])
  }

  /** Closing a plain channel closes the consumer's; closing a queue is for its goroutine to see. */
  function Closed(sub: Subscriber): Subscriber {
    sub.(queueClosed := true, closes := if sub.buffered then sub.closes else sub.closes + 1)
  }

  function Step(s: State, a: Action): State
    requires Enabled(s, a)
  {
    match a
    case Input(feature) =>
      s.(input := s.input + [feature], dispatch := Sending(feature, Targets(s.subscribers, feature.name)))
    case CloseInput => s.(inputClosed := true)
    case Send =>
      var i, feature := s.dispatch.rest[0], s.dispatch.feature;
      s.(dispatch := Sending(feature, s.dispatch.rest[1..]),
         subscribers := s.subscribers[i := Taking(s.subscribers[i], feature)])
    case Sent => s.(dispatch := Waiting)
    case EndInput => s.(dispatch := Closing(Below(|s.subscribers|)))
    case CloseQueue(i) =>
      s.(dispatch := Closing(s.dispatch.unclosed - {i}), subscribers := s.subscribers[i := Closed(s.subscribers[i])])
    case Stop => s.(dispatch := Done)
    case Consume(i) => s.(subscribers := s.subscribers[i := Giving(s.subscribers[i])])
    case Buffer(i, b) => s.(subscribers := s.subscribers[i := BufferNext(s.subscribers[i], b)])
  }

  ghost predicate Next(s: State, t: State) {
    exists a :: Enabled(s, a) && t == Step(s, a)
  }

  lemma Taken(s: State, t: State) returns (a: Action)
    requires Next(s, t)
    ensures Enabled(s, a) && t == Step(s, a)
  {
    a :| Enabled(s, a) && t == Step(s, a);
  }

  ghost predicate Behavior(run: seq<State>) {
    |run| > 0 && Init(run[0]) && forall i, j :: 0 <= i && j == i + 1 < |run| ==> Next(run[i], run[j])
  }

  /** The feature being dispatched, if the subscriber's turn is still to come. */
  function Owed(s: State, i: nat): seq<Feature> {
    if s.dispatch.Sending? && i in s.dispatch.rest then [s.dispatch.feature] else []
  }

  /** The goroutine's own bookkeeping: it stops listening only after the close, and returns only when empty. */
  ghost predicate BufferInv(sub: Subscriber) {
    (sub.listening || sub.queueClosed) &&
    (sub.pc == Selecting ==> sub.held != [] || sub.listening) &&
    (sub.pc == Returned ==> sub.held == [] && !sub.listening) &&
    sub.closes == if sub.pc == Returned then 1 else 0
  }

  ghost predicate SubscriberInv(s: State, i: nat)
    requires i < |s.subscribers|
  {
    var sub := s.subscribers[i];
    sub.delivered + sub.held == sub.accepted &&
    sub.accepted + Owed(s, i) == Named(s.input, sub.name) &&
    (sub.queueClosed <==> s.dispatch == Done || (s.dispatch.Closing? && i !in s.dispatch.unclosed)) &&
    if sub.buffered then BufferInv(sub) else sub.closes == if sub.queueClosed then 1 else 0
  }

  ghost predicate DispatchInv(s: State) {
    match s.dispatch
    case Sending(feature, rest) =>
      (forall k :: 0 <= k < |rest| ==> rest[k] < |s.subscribers| && s.subscribers[rest[k]].name == feature.name) &&
      (forall j, k :: 0 <= j < k < |rest| ==> rest[j] != rest[k])
    case Waiting => true
    case _ => s.inputClosed
  }

  ghost predicate SubscribersInv(s: State) {
    forall i :: 0 <= i < |s.subscribers| ==> SubscriberInv(s, i)
  }

  lemma StepKeepsDispatchInv(s: State, a: Action)
    requires DispatchInv(s) && Enabled(s, a)
    ensures DispatchInv(Step(s, a))
  {
    if a.Input? {
      var targets := Targets(s.subscribers, a.feature.name);
      assert forall k :: 0 <= k < |targets| ==> targets[k] in targets;
    }
  }

  lemma SendKeepsSubscriberInv(s: State, i: nat)
    requires i < |s.subscribers| && DispatchInv(s) && SubscriberInv(s, i) && Enabled(s, Send)
    ensures SubscriberInv(Step(s, Send), i)
  {
    var sub, feature, rest := s.subscribers[i], s.dispatch.feature, s.dispatch.rest;
    assert rest == [rest[0]] + rest[1..] && rest[0] !in rest[1..];
    assert sub.delivered + (sub.held + [feature]) == (sub.delivered + sub.held) + [feature];
    assert Owed(Step(s, Send), i) == if i == rest[0] then [] else Owed(s, i);
    assert i == rest[0] ==> (sub.accepted + [feature]) + [] == sub.accepted + [feature];
  }

  lemma GivingKeepsAccepted(sub: Subscriber)
    requires Offers(sub) && sub.delivered + sub.held == sub.accepted
    ensures Giving(sub).delivered + Giving(sub).held == Giving(sub).accepted == sub.accepted
    ensures Giving(sub).name == sub.name && Giving(sub).queueClosed == sub.queueClosed
    ensures Giving(sub).buffered == sub.buffered && Giving(sub).closes == sub.closes
    ensures sub.buffered && BufferInv(sub) ==> BufferInv(Giving(sub))
  {
    assert sub.held == [sub.held[0]] + sub.held[1..];
    assert (sub.delivered + [sub.held[0]]) + sub.held[1..] == sub.delivered + ([sub.held[0]] + sub.held[1..]);
  }

  lemma ConsumeKeepsSubscriberInv(s: State, j: nat, i: nat)
    requires i < |s.subscribers| && SubscriberInv(s, i) && Enabled(s, Consume(j))
    ensures SubscriberInv(Step(s, Consume(j)), i)
  {
    assert Owed(Step(s, Consume(j)), i) == Owed(s, i);
    if i == j {
      GivingKeepsAccepted(s.subscribers[i]);
    }
  }

  lemma StepKeepsSubscriberInv(s: State, a: Action, i: nat)
    requires i < |s.subscribers| && DispatchInv(s) && SubscriberInv(s, i) && Enabled(s, a)
    ensures SubscriberInv(Step(s, a), i)
  {
    match a
    case Input(feature) => NamedAppend(s.input, feature, s.subscribers[i].name);
    case Send => SendKeepsSubscriberInv(s, i);
    case Consume(j) => ConsumeKeepsSubscriberInv(s, j, i);
    case Buffer(j, _) => assert Owed(Step(s, a), i) == Owed(s, i);
    case CloseQueue(_) => assert Owed(Step(s, a), i) == Owed(s, i);
    case _ =>
  }

  lemma StepKeepsSubscribersInv(s: State, a: Action)
    requires DispatchInv(s) && SubscribersInv(s) && Enabled(s, a)
    ensures SubscribersInv(Step(s, a))
  {
    forall i | 0 <= i < |s.subscribers|
      ensures SubscriberInv(Step(s, a), i)
    {
      StepKeepsSubscriberInv(s, a, i);
    }
  }

  lemma {:induction false} BehaviorKeepsInv(run: seq<State>, i: nat)
    requires Behavior(run) && i < |run|
    ensures DispatchInv(run[i]) && SubscribersInv(run[i])
  {
    if i > 0 {
      BehaviorKeepsInv(run, i - 1);
      var a := Taken(run[i - 1], run[i]);
      StepKeepsDispatchInv(run[i - 1], a);
      StepKeepsSubscribersInv(run[i - 1], a);
    }
  }

  /** A subscriber gets exactly the features of its name, in order: delivered, held, or next in turn. */
  lemma NothingLostOrReordered(run: seq<State>, i: nat, k: nat)
    requires Behavior(run) && i < |run| && k < |run[i].subscribers|
    ensures var sub := run[i].subscribers[k];
      sub.delivered + sub.held + Owed(run[i], k) == Named(run[i].input, sub.name)
  {
    BehaviorKeepsInv(run, i);
    assert SubscriberInv(run[i], k);
  }

  /**
   A consumer's channel is closed at most once, and only after the input; behind a FeatureBuffer, only
   after everything was delivered.
  */
  lemma ClosedOnceAtTheEnd(run: seq<State>, i: nat, k: nat)
    requires Behavior(run) && i < |run| && k < |run[i].subscribers|
    ensures run[i].subscribers[k].closes <= 1
    ensures run[i].subscribers[k].closes == 1 ==> run[i].inputClosed
    ensures run[i].subscribers[k].closes == 1 && run[i].subscribers[k].buffered ==>
      run[i].subscribers[k].delivered == Named(run[i].input, run[i].subscribers[k].name)
  {
    BehaviorKeepsInv(run, i);
    assert SubscriberInv(run[i], k);
  }

  // A dispatch ends without any consumer.

  /** A step of the dispatcher or of a buffer, not of a consumer or of the producer. */
  predicate Silent(a: Action) {
    !a.Consume? && !a.Input? && !a.CloseInput?
  }

  ghost predicate AllBuffered(s: State) {
    forall k :: 0 <= k < |s.subscribers| ==> s.subscribers[k].buffered
  }

  /** How many goroutines are on their way to their select. */
  function Turning(subscribers: seq<Subscriber>): nat {
    if subscribers == [] then 0
    else Turning(subscribers[1..]) + if subscribers[0].pc == Top then 1 else 0
  }

  /** What remains of a dispatch: two steps for each send, and one for each goroutine before its select. */
  function DispatchWork(s: State): nat {
    Turning(s.subscribers) + match s.dispatch case Sending(_, rest) => 1 + 2 * |rest| case _ => 0
  }

  lemma {:induction false} TurningUpdate(subscribers: seq<Subscriber>, i: nat, sub: Subscriber)
    requires i < |subscribers|
    ensures Turning(subscribers[i := sub]) + (if subscribers[i].pc == Top then 1 else 0) ==
      Turning(subscribers) + if sub.pc == Top then 1 else 0
  {
    if i == 0 {
      assert subscribers[0 := sub][1..] == subscribers[1..];
    } else {
      assert subscribers[i := sub][1..] == subscribers[1..][i - 1 := sub];
      TurningUpdate(subscribers[1..], i - 1, sub);
    }
  }

  /** During a dispatch every step that is not a consumer's or the producer's brings its end nearer. */
  lemma SilentStepCounts(s: State, a: Action)
    requires SubscribersInv(s) && s.dispatch.Sending? && AllBuffered(s) && Silent(a) && Enabled(s, a)
    ensures DispatchWork(Step(s, a)) < DispatchWork(s)
    ensures AllBuffered(Step(s, a)) && (Step(s, a).dispatch.Sending? || Step(s, a).dispatch == Waiting)
    ensures Undelivered(s, Step(s, a))
  {
    match a
    case Send =>
      var i := s.dispatch.rest[0];
      TurningUpdate(s.subscribers, i, Taking(s.subscribers[i], s.dispatch.feature));
    case Buffer(i, b) =>
      assert SubscriberInv(s, i);
      TurningUpdate(s.subscribers, i, BufferNext(s.subscribers[i], b));
    case _ =>
  }

  /** No consumer has received anything in between. */
  ghost predicate Undelivered(s: State, t: State) {
    |s.subscribers| == |t.subscribers| &&
    forall k :: 0 <= k < |s.subscribers| ==> t.subscribers[k].delivered == s.subscribers[k].delivered
  }

  /** Nothing the dispatcher waits for is up to a consumer. */
  lemma SilentStepEnabled(s: State) returns (a: Action)
    requires DispatchInv(s) && SubscribersInv(s) && s.dispatch.Sending? && AllBuffered(s)
    ensures Silent(a) && Enabled(s, a)
  {
    if s.dispatch.rest == [] {
      a := Sent;
    } else {
      var i := s.dispatch.rest[0];
      assert SubscriberInv(s, i);
      a := if s.subscribers[i].pc == Selecting then Send else Buffer(i, Turn);
    }
  }

  lemma Extend(run: seq<State>, a: Action)
    requires Behavior(run) && Enabled(run[|run| - 1], a)
    ensures Behavior(run + [Step(run[|run| - 1], a)])
  {
    assert Next(run[|run| - 1], Step(run[|run| - 1], a));
  }

  /**
   Behind buffers every dispatch ends though no consumer ever receives: some step of the dispatcher or a buffer
   is possible until it does, and (SilentStepCounts) there are only so many such steps.
  */
  lemma {:induction false} StalledConsumerBlocksNoOne(run: seq<State>) returns (longer: seq<State>)
    requires Behavior(run) && run[|run| - 1].dispatch.Sending? && AllBuffered(run[|run| - 1])
    ensures Behavior(longer) && run <= longer && longer[|longer| - 1].dispatch == Waiting
    ensures Undelivered(run[|run| - 1], longer[|longer| - 1])
    decreases DispatchWork(run[|run| - 1])
  {
    var s := run[|run| - 1];
    BehaviorKeepsInv(run, |run| - 1);
    var a := SilentStepEnabled(s);
    SilentStepCounts(s, a);
    Extend(run, a);
    longer := run + [Step(s, a)];
    if Step(s, a).dispatch.Sending? {
      longer := StalledConsumerBlocksNoOne(longer);
    }
  }

  /** At the end every buffered subscriber was closed once and got all of its features. */
  lemma RestIsComplete(run: seq<State>, i: nat, k: nat)
    requires Behavior(run) && i < |run| && k < |run[i].subscribers| && run[i].subscribers[k].buffered
    requires run[i].dispatch == Done && !Enabled(run[i], Consume(k))
    requires forall b :: !Enabled(run[i], Buffer(k, b))
    ensures run[i].subscribers[k].closes == 1
    ensures run[i].subscribers[k].delivered == Named(run[i].input, run[i].subscribers[k].name)
  {
    BehaviorKeepsInv(run, i);
    assert SubscriberInv(run[i], k);
    assert !Enabled(run[i], Buffer(k, Turn)) && !Enabled(run[i], Buffer(k, HearClose));
    assert !Enabled(run[i], Buffer(k, Return));
    var sub := run[i].subscribers[k];
    assert sub.delivered + sub.held == sub.delivered;
  }
}
