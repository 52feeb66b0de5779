/** Runs of the SMP session protocol: two sides, and a network that hands any frame made so far to
  * either side, any number of times, in any order, or never. */
module SmpRuns {
  import opened Bytes
  import opened Smp

  /** A frame on the network with its maker as it was then. */
  datatype Note = Note(maker: Party, t: int, packet: seq<byte>, frame: Frame)

  /** What smpProcessMessage returned on success, and the position in the log of the frame it was given. */
  datatype Delivery = Delivery(k: nat, message: Message)

  datatype World = World(
    client: Party, broker: Party, log: seq<Note>, clientGot: seq<Delivery>, brokerGot: seq<Delivery>)
  {
    function Side(r: Role): Party { if r == Client then client else broker }
    function Got(r: Role): seq<Delivery> { if r == Client then clientGot else brokerGot }
    function With(p: Party, got: seq<Delivery>): World {
      if p.role == Client then this.(client := p, clientGot := got) else this.(broker := p, brokerGot := got)
    }
  }

  datatype Event =
    | Send(role: Role, t: int, packet: seq<byte>)
    | Receive(role: Role, k: nat)

  predicate Possible(w: World, e: Event) {
    match e
    case Send(_, t, _) => t != DISCONNECT
    case Receive(_, k) => k < |w.log|
  }

  predicate Fit(w: World) {
    ValidParty(w.client) && ValidParty(w.broker)
  }

  function Step(w: World, e: Event): (v: World)
    requires Fit(w) && Possible(w, e)
    ensures Fit(v)
  {
    match e
    case Send(role, t, packet) =>
      var p := w.Side(role);
      var r := GetMessage(p, t, packet);
      if r.1.Err? then w
      else w.With(r.0, w.Got(role)).(log := w.log + [Note(p, t, packet, r.1.value)])
    case Receive(role, k) =>
      var r := Process(w.Side(role), w.log[k].frame);
      w.With(r.0, if r.1.Ok? then w.Got(role) + [Delivery(k, r.1.value)] else w.Got(role))
  }

  // ----- the invariant -----

  /** The session key is the one of both sides' public keys, and a side has it exactly if its private
    * key has been used up. */
  predicate Keyed(w: World, p: Party) {
    && ValidParty(p) && (p.established <==> !p.hasPrivate) && IsPublicKey(p.dhPublic)
    && (p.hasPublic <==> p.hasPrivate || p.role == Broker)
    && (p.established ==> p.key == Some({w.client.dhPublic, w.broker.dhPublic}))
  }

  /** A side as it was earlier: only counters, keys and flags move. */
  predicate Earlier(s: Party, p: Party) {
    s.role == p.role && s.clientId == p.clientId && s.dhPublic == p.dhPublic && s.sends < p.sends
  }

  predicate Made(w: World, n: Note) {
    && Keyed(w, n.maker) && Sendable(n.maker, n.t, n.packet) && n.frame == GetMessage(n.maker, n.t, n.packet).1.value
    && Earlier(n.maker, w.Side(n.maker.role))
  }

  /** Every frame was made from a sendable packet by one of the two sides; each side's frames are
    * numbered in order. */
  predicate Logged(w: World) {
    && (forall i :: 0 <= i < |w.log| ==>
          Made(w, w.log[i]))
    && (forall i, j :: 0 <= i < j < |w.log| && w.log[i].maker.role == w.log[j].maker.role ==>
          w.log[i].maker.sends < w.log[j].maker.sends)
  }

  /** What one side has delivered: packets as the other side secured them, of admitted types, from frames
    * with counters that never go back; the last one's counter is the one remembered. */
  predicate InTurn(w: World, r: Role) {
    var got, p := w.Got(r), w.Side(r);
    && (forall i :: 0 <= i < |got| ==> got[i].k < |w.log|)
    && (forall i :: 0 <= i < |got| ==> Genuine(w.log[got[i].k], r, got[i].message))
    && (forall i, j :: 0 <= i < j < |got| ==> w.log[got[i].k].maker.toBeSent <= w.log[got[j].k].maker.toBeSent)
    && p.lastReceived == (if got == [] then 0 else w.log[got[|got| - 1].k].maker.toBeSent)
    && (forall i :: 0 <= i < |got| ==> w.log[got[i].k].maker.toBeSent <= p.lastReceived)
  }

  /** The message is what the other side secured in this frame. */
  predicate Genuine(n: Note, r: Role, m: Message) {
    n.maker.role == r.Peer() && Admits(r, n.t) && m == Message(n.t, n.packet)
  }

  /** The session is opened once, and before anything else is delivered. */
  predicate OpenedOnce(w: World, r: Role) {
    var got := w.Got(r);
    && (w.Side(r).established <==> got != [])
    && (forall i :: 0 <= i < |got| ==> (got[i].message.t == Opening(r.Peer()) <==> i == 0))
  }

  ghost predicate Good(w: World) {
    && w.client.role == Client && w.broker.role == Broker
    && Keyed(w, w.client) && Keyed(w, w.broker) && Logged(w)
    && InTurn(w, Client) && InTurn(w, Broker) && OpenedOnce(w, Client) && OpenedOnce(w, Broker)
  }

  /** Two sides before they have met. */
  predicate Fresh(c: seq<byte>, b: seq<byte>, clientKey: seq<byte>, brokerKey: seq<byte>) {
    |c| <= 32 && 0 !in c && |b| <= 32 && 0 !in b && IsPublicKey(clientKey) && IsPublicKey(brokerKey)
  }

  function Start(c: seq<byte>, b: seq<byte>, clientKey: seq<byte>, brokerKey: seq<byte>): (w: World)
    ensures Fresh(c, b, clientKey, brokerKey) ==> Fit(w)
  {
    World(NewParty(Client, c, clientKey), NewParty(Broker, b, brokerKey), [], [], [])
  }

  lemma StartGood(c: seq<byte>, b: seq<byte>, clientKey: seq<byte>, brokerKey: seq<byte>)
    requires Fresh(c, b, clientKey, brokerKey)
    ensures Good(Start(c, b, clientKey, brokerKey))
  {
    hide Logged, InTurn, OpenedOnce, Keyed;
    StartKeyed(c, b, clientKey, brokerKey);
    StartTurns(c, b, clientKey, brokerKey);
  }

  lemma StartTurns(c: seq<byte>, b: seq<byte>, clientKey: seq<byte>, brokerKey: seq<byte>)
    ensures var w := Start(c, b, clientKey, brokerKey);
            && Logged(w) && InTurn(w, Client) && InTurn(w, Broker) && OpenedOnce(w, Client) && OpenedOnce(w, Broker)
  {
    hide Made, Genuine, Opening;
  }

  lemma StartKeyed(c: seq<byte>, b: seq<byte>, clientKey: seq<byte>, brokerKey: seq<byte>)
    requires Fresh(c, b, clientKey, brokerKey)
    ensures var w := Start(c, b, clientKey, brokerKey); Keyed(w, w.client) && Keyed(w, w.broker)
  {
  }

  /** What receiving the `k`th frame does. */
  lemma ReceiveIs(w: World, role: Role, k: nat)
    requires Good(w) && k < |w.log|
    ensures var p, n := w.Side(role), w.log[k];
            var s := n.maker;
            var ready := if n.t == Opening(s.role) then p.hasPrivate else p.established;
            var r := Process(p, n.frame);
            if s.role == role.Peer() && Admits(role, n.t) && s.toBeSent >= p.lastReceived && ready then
              && r.1 == Ok(Message(n.t, n.packet))
              && r.0 == p.(lastReceived := s.toBeSent, established := true, hasPrivate := false,
                           hasPublic := role == Broker, key := Some({w.client.dhPublic, w.broker.dhPublic}))
            else r.1.Err? && r.0 == p
  {
    hide GetMessage, Process;
    var p, n := w.Side(role), w.log[k];
    assert Made(w, n);
    if n.maker.role == role.Peer() {
      PeerFrameIff(p, n.maker, n.t, n.packet);
      assert {p.dhPublic, n.maker.dhPublic} == {w.client.dhPublic, w.broker.dhPublic};
    } else {
      OwnFrameRefused(p, n.maker, n.t, n.packet);
    }
  }

  /** A world in which a side's name, public key and the log so far are those of an earlier one. */
  predicate Later(w: World, v: World) {
    && v.client.role == Client && v.broker.role == Broker
    && v.client.clientId == w.client.clientId && v.broker.clientId == w.broker.clientId
    && v.client.dhPublic == w.client.dhPublic && v.broker.dhPublic == w.broker.dhPublic
    && w.client.sends <= v.client.sends && w.broker.sends <= v.broker.sends
    && |w.log| <= |v.log| && v.log[..|w.log|] == w.log
  }

  lemma MadeLater(w: World, v: World, n: Note)
    requires Later(w, v) && Made(w, n)
    ensures Made(v, n)
  {
    hide GetMessage, ValidParty, Sendable;
  }

  lemma LoggedLater(w: World, v: World)
    requires Later(w, v) && Logged(w)
    requires |v.log| <= |w.log| + 1
    requires |v.log| > |w.log| ==>
               var n := v.log[|w.log|];
               Made(v, n) && w.Side(n.maker.role).sends == n.maker.sends
    ensures Logged(v)
  {
    hide Keyed, Sendable, GetMessage;
    assert forall i :: 0 <= i < |w.log| ==> v.log[i] == w.log[i];
    forall i | 0 <= i < |w.log| ensures Made(v, v.log[i]) {
      MadeLater(w, v, w.log[i]);
    }
  }

  lemma TurnLater(w: World, v: World, r: Role)
    requires Later(w, v) && InTurn(w, r) && OpenedOnce(w, r)
    requires v.Got(r) == w.Got(r) && v.Side(r).lastReceived == w.Side(r).lastReceived
    requires v.Side(r).established == w.Side(r).established
    ensures InTurn(v, r) && OpenedOnce(v, r)
  {
    hide Genuine, Opening;
    assert forall i :: 0 <= i < |w.log| ==> v.log[i] == w.log[i];
  }

  lemma SendGood(w: World, role: Role, t: int, packet: seq<byte>)
    requires Good(w) && Fit(w) && t != DISCONNECT
    ensures Good(Step(w, Send(role, t, packet)))
  {
    hide GetMessage, Count, Logged, InTurn, OpenedOnce, Sendable, Keyed;
    var p, v := w.Side(role), Step(w, Send(role, t, packet));
    if GetMessage(p, t, packet).1.Ok? {
      CountIs(w, p, t, packet);
      KeyedLater(w, v, v.client);
      KeyedLater(w, v, v.broker);
      KeyedLater(w, v, p);
      SendableIs(p, t, packet);
      LoggedLater(w, v);
      TurnLater(w, v, Client);
      TurnLater(w, v, Broker);
    }
  }

  /** Making a frame moves the counters only. */
  lemma CountIs(w: World, p: Party, t: int, packet: seq<byte>)
    requires Keyed(w, p) && ValidParty(p) && t != DISCONNECT && GetMessage(p, t, packet).1.Ok?
    ensures var c := GetMessage(p, t, packet).0;
            && Keyed(w, c) && c.sends == p.sends + 1 && c == p.(sends := c.sends, toBeSent := c.toBeSent)
  {
    hide Export, Secure;
  }

  lemma KeyedLater(w: World, v: World, p: Party)
    requires Keyed(w, p) && v.client.dhPublic == w.client.dhPublic && v.broker.dhPublic == w.broker.dhPublic
    ensures Keyed(v, p)
  {
    hide ValidParty;
  }

  lemma SendableIs(p: Party, t: int, packet: seq<byte>)
    requires ValidParty(p) && t != DISCONNECT
    ensures GetMessage(p, t, packet).1.Ok? <==> Sendable(p, t, packet)
  {
  }

  lemma ReceiveGood(w: World, role: Role, k: nat)
    requires Good(w) && Fit(w) && k < |w.log|
    ensures Good(Step(w, Receive(role, k)))
  {
    hide GetMessage, Process, Logged, InTurn, OpenedOnce, Sendable, Admits;
    ReceiveIs(w, role, k);
    var v := Step(w, Receive(role, k));
    assert v.log[..|w.log|] == w.log;
    LoggedLater(w, v);
    TurnLater(w, v, role.Peer());
    DeliverTurn(w, v, role, k);
    DeliverOnce(w, v, role, k);
  }

  /** What receiving the `k`th frame means for the receiver. */
  predicate Delivers(w: World, v: World, role: Role, k: nat)
    requires k < |w.log|
  {
    var p, n := w.Side(role), w.log[k];
    var ready := if n.t == Opening(n.maker.role) then p.hasPrivate else p.established;
    if n.maker.role == role.Peer() && Admits(role, n.t) && n.maker.toBeSent >= p.lastReceived && ready then
      && v.Got(role) == w.Got(role) + [Delivery(k, Message(n.t, n.packet))]
      && v.Side(role).lastReceived == n.maker.toBeSent && v.Side(role).established
    else v.Got(role) == w.Got(role) && v.Side(role) == p
  }

  lemma DeliverTurn(w: World, v: World, role: Role, k: nat)
    requires InTurn(w, role) && k < |w.log| && v.log == w.log && Delivers(w, v, role, k)
    ensures InTurn(v, role)
  {
    hide Admits, Opening, Genuine;
    var got, now, log := w.Got(role), v.Got(role), w.log;
    if now != got {
      NowGenuine(log[k], role);
      assert now == got + [Delivery(k, Message(log[k].t, log[k].packet))];
      forall i, j | 0 <= i < j < |now| ensures log[now[i].k].maker.toBeSent <= log[now[j].k].maker.toBeSent {
        assert now[i] == got[i];
        assert j < |got| ==> now[j] == got[j];
      }
      forall i | 0 <= i < |now|
        ensures now[i].k < |log| && log[now[i].k].maker.toBeSent <= v.Side(role).lastReceived
        ensures Genuine(log[now[i].k], role, now[i].message)
      {
        assert i < |got| ==> now[i] == got[i];
      }
    }
  }

  lemma NowGenuine(n: Note, r: Role)
    requires n.maker.role == r.Peer() && Admits(r, n.t)
    ensures Genuine(n, r, Message(n.t, n.packet))
  {
  }

  lemma DeliverOnce(w: World, v: World, role: Role, k: nat)
    requires InTurn(w, role) && OpenedOnce(w, role) && Keyed(w, w.Side(role))
    requires k < |w.log| && v.log == w.log && Delivers(w, v, role, k)
    ensures OpenedOnce(v, role)
  {
    hide Admits, ValidParty;
  }

  // ----- every run -----

  predicate PossibleRun(w: World, es: seq<Event>)
    requires Fit(w)
    decreases |es|
  {
    es == [] || (Possible(w, es[0]) && PossibleRun(Step(w, es[0]), es[1..]))
  }

  function Run(w: World, es: seq<Event>): (v: World)
    requires Fit(w) && PossibleRun(w, es)
    ensures Fit(v)
    decreases |es|
  {
    if es == [] then w else Run(Step(w, es[0]), es[1..])
  }

  lemma StepGood(w: World, e: Event)
    requires Good(w) && Fit(w) && Possible(w, e)
    ensures Good(Step(w, e))
  {
    hide Good, Step;
    match e
    case Send(role, t, packet) => SendGood(w, role, t, packet);
    case Receive(role, k) => ReceiveGood(w, role, k);
  }

  /** Over every run, whatever the network does with the frames. */
  lemma {:induction false} RunGood(w: World, es: seq<Event>)
    requires Good(w) && Fit(w) && PossibleRun(w, es)
    ensures Good(Run(w, es))
    decreases |es|
  {
    hide Good, Step, Possible;
    if es != [] {
      StepGood(w, es[0]);
      RunGood(Step(w, es[0]), es[1..]);
    }
  }

  // ----- what this means -----

  /** After every run from the start, whatever the network did: all that either side has delivered, and
    * all that it would deliver of any frame now, is a packet that the other side secured, under the type
    * under which it was secured. */
  lemma DeliveredWasSecured(c: seq<byte>, b: seq<byte>, clientKey: seq<byte>, brokerKey: seq<byte>, es: seq<Event>)
    requires Fresh(c, b, clientKey, brokerKey) && PossibleRun(Start(c, b, clientKey, brokerKey), es)
    ensures var w := Run(Start(c, b, clientKey, brokerKey), es);
            && (forall r: Role, i :: 0 <= i < |w.Got(r)| ==>
                  w.Got(r)[i].k < |w.log| && Genuine(w.log[w.Got(r)[i].k], r, w.Got(r)[i].message))
            && (forall r: Role, k :: 0 <= k < |w.log| && Process(w.Side(r), w.log[k].frame).1.Ok? ==>
                  Genuine(w.log[k], r, Process(w.Side(r), w.log[k].frame).1.value))
  {
    hide Good, Step, Process, Genuine;
    StartGood(c, b, clientKey, brokerKey);
    RunGood(Start(c, b, clientKey, brokerKey), es);
    var w := Run(Start(c, b, clientKey, brokerKey), es);
    forall r: Role, k | 0 <= k < |w.log| && Process(w.Side(r), w.log[k].frame).1.Ok?
      ensures Genuine(w.log[k], r, Process(w.Side(r), w.log[k].frame).1.value)
    {
      ReceiveGenuine(w, r, k);
    }
    GoodMeans(w);
  }

  /** After every run from the start, two established sides have the same key, and a side without a key
    * has delivered nothing. */
  lemma KeysAgree(c: seq<byte>, b: seq<byte>, clientKey: seq<byte>, brokerKey: seq<byte>, es: seq<Event>)
    requires Fresh(c, b, clientKey, brokerKey) && PossibleRun(Start(c, b, clientKey, brokerKey), es)
    ensures var w := Run(Start(c, b, clientKey, brokerKey), es);
            && (w.client.established && w.broker.established ==> w.client.key == w.broker.key)
            && (forall r: Role :: !w.Side(r).established ==> w.Got(r) == [])
  {
    hide Good, Step;
    StartGood(c, b, clientKey, brokerKey);
    RunGood(Start(c, b, clientKey, brokerKey), es);
    GoodMeans(Run(Start(c, b, clientKey, brokerKey), es));
  }

  lemma ReceiveGenuine(w: World, r: Role, k: nat)
    requires Good(w) && k < |w.log| && Process(w.Side(r), w.log[k].frame).1.Ok?
    ensures Genuine(w.log[k], r, Process(w.Side(r), w.log[k].frame).1.value)
  {
    hide Process, Good, Admits;
    ReceiveIs(w, r, k);
  }

  lemma GoodMeans(w: World)
    requires Good(w)
    ensures forall r: Role, i :: 0 <= i < |w.Got(r)| ==>
              w.Got(r)[i].k < |w.log| && Genuine(w.log[w.Got(r)[i].k], r, w.Got(r)[i].message)
    ensures forall r: Role :: !w.Side(r).established ==> w.Got(r) == []
    ensures w.client.established && w.broker.established ==> w.client.key == w.broker.key
  {
    hide Good, Genuine;
    forall r: Role, i | 0 <= i < |w.Got(r)|
      ensures w.Got(r)[i].k < |w.log| && Genuine(w.log[w.Got(r)[i].k], r, w.Got(r)[i].message)
    {
      GotFacts(w, r, i);
    }
    forall r: Role | !w.Side(r).established ensures w.Got(r) == [] {
      NoneUnopened(w, r);
    }
    SameKey(w);
  }

  lemma NoneUnopened(w: World, r: Role)
    requires Good(w)
    ensures !w.Side(r).established ==> w.Got(r) == []
  {
    hide Logged, InTurn, Keyed, Opening;
  }

  lemma SameKey(w: World)
    requires Good(w)
    ensures w.client.established && w.broker.established ==> w.client.key == w.broker.key
  {
    hide Logged, InTurn, OpenedOnce, ValidParty, IsPublicKey;
  }

  /** With at most 2 to the 32nd frames from one side, its counters tell them apart and in order. */
  lemma CountersInOrder(w: World, a: nat, b: nat)
    requires Logged(w) && a < |w.log| && b < |w.log| && w.log[a].maker.role == w.log[b].maker.role
    requires w.Side(w.log[a].maker.role).sends <= WIDTH
    ensures a < b <==> w.log[a].maker.toBeSent < w.log[b].maker.toBeSent
  {
    hide Sendable, GetMessage;
    assert Made(w, w.log[a]) && Made(w, w.log[b]);
  }

  lemma GotFacts(w: World, r: Role, i: nat)
    requires Good(w) && i < |w.Got(r)|
    ensures var got, k := w.Got(r), w.Got(r)[i].k;
            && k < |w.log| && Genuine(w.log[k], r, got[i].message)
            && w.log[k].maker.toBeSent <= w.Side(r).lastReceived
            && (i == |got| - 1 ==> w.log[k].maker.toBeSent == w.Side(r).lastReceived)
    ensures w.Side(r).established && !w.Side(r).hasPrivate && Logged(w)
    ensures forall j :: i < j < |w.Got(r)| ==>
              w.Got(r)[j].k < |w.log| && w.log[w.Got(r)[i].k].maker.toBeSent <= w.log[w.Got(r)[j].k].maker.toBeSent
  {
    hide Logged, Made, Admits;
  }

  /** With at most 2 to the 32nd frames from the other side, delivery follows the order in which they
    * were made: a delivered frame is the one before or a later one. */
  lemma DeliveredInOrder(w: World, r: Role, i: nat, j: nat)
    requires Good(w) && i < j < |w.Got(r)| && w.Side(r.Peer()).sends <= WIDTH
    ensures w.Got(r)[i].k <= w.Got(r)[j].k
  {
    hide Good, Logged, Admits;
    GotFacts(w, r, i);
    GotFacts(w, r, j);
    CountersInOrder(w, w.Got(r)[j].k, w.Got(r)[i].k);
  }

  /** The counter check lets the frame delivered last through once more: of the frames that a side has
    * delivered, exactly that one is delivered again when it comes again, unless it opened the session.
    * The comment at the check asks for greater counters, which would refuse it. */
  lemma RepeatedIff(w: World, r: Role, i: nat)
    requires Good(w) && Fit(w) && i < |w.Got(r)| && w.Side(r.Peer()).sends <= WIDTH
    ensures var got, d := w.Got(r), w.Got(r)[i];
            && d.k < |w.log|
            && (Step(w, Receive(r, d.k)).Got(r) == got + [d] <==>
                  d.k == got[|got| - 1].k && d.message.t != Opening(r.Peer()))
  {
    hide GetMessage, Process, Good, Logged, Admits;
    var got, d := w.Got(r), w.Got(r)[i];
    GotFacts(w, r, i);
    GotFacts(w, r, |got| - 1);
    CountersInOrder(w, d.k, got[|got| - 1].k);
    CountersInOrder(w, got[|got| - 1].k, d.k);
    ReceiveIs(w, r, d.k);
    SidesFit(w);
    assert |got + [d]| > |got|;
  }

  lemma SidesFit(w: World)
    requires Good(w)
    ensures w.client.role == Client && w.broker.role == Broker && Fit(w)
  {
  }

  /** Nothing in order is lost: once the session is open, a frame that was made after all that have been
    * delivered is itself delivered exactly if the receiver admits its type. */
  lemma NewerDeliveredIff(w: World, r: Role, k: nat)
    requires Good(w) && Fit(w) && w.Side(r).established && w.Side(r.Peer()).sends <= WIDTH
    requires k < |w.log| && w.log[k].maker.role == r.Peer() && w.log[k].t != Opening(r.Peer())
    requires forall i :: 0 <= i < |w.Got(r)| ==> w.Got(r)[i].k < k
    ensures Step(w, Receive(r, k)).Got(r) == w.Got(r) + [Delivery(k, Message(w.log[k].t, w.log[k].packet))] <==>
            Admits(r, w.log[k].t)
  {
    hide GetMessage, Process, Good, Admits;
    NotBehind(w, r, k);
    ReceiveIs(w, r, k);
    SidesFit(w);
    assert |w.Got(r) + [Delivery(k, Message(w.log[k].t, w.log[k].packet))]| > |w.Got(r)|;
  }

  /** The counter of a newer frame has not gone back. */
  lemma NotBehind(w: World, r: Role, k: nat)
    requires Good(w) && w.Side(r).established && w.Side(r.Peer()).sends <= WIDTH
    requires k < |w.log| && w.log[k].maker.role == r.Peer()
    requires forall i :: 0 <= i < |w.Got(r)| ==> w.Got(r)[i].k < k
    ensures w.log[k].maker.toBeSent >= w.Side(r).lastReceived
  {
    hide Logged, Made, Admits;
    var got := w.Got(r);
    GotFacts(w, r, |got| - 1);
    CountersInOrder(w, got[|got| - 1].k, k);
  }

  // ----- what can be read on the way -----

  /** PUBLISH, SUBSCRIBE, SUBACK and UNSUBSCRIBE, which carry topics and payloads. */
  const SECRET: set<int> := {3, 8, 9, 10}

  /** After every run from the start: of a packet that carries topics or payloads nothing is in the clear part of
    * its frame, it is in the box only, under the session key; every other one is authenticated or signed. */
  lemma SecretsAreBoxed(c: seq<byte>, b: seq<byte>, clientKey: seq<byte>, brokerKey: seq<byte>, es: seq<Event>, k: nat)
    requires Fresh(c, b, clientKey, brokerKey) && PossibleRun(Start(c, b, clientKey, brokerKey), es)
    requires k < |Run(Start(c, b, clientKey, brokerKey), es).log|
    ensures var n := Run(Start(c, b, clientKey, brokerKey), es).log[k];
            if n.t in SECRET then
              && n.frame.Control? && n.frame.clear.None? && n.frame.box.plain == Some(n.packet)
              && n.frame.box.key == {clientKey, brokerKey}
            else if n.frame.Control? then
              && n.frame.clear == Some(n.packet) && |n.packet| <= |n.frame.box.aad|
              && n.packet == n.frame.box.aad[|n.frame.box.aad| - |n.packet|..]
            else
              && n.frame.packet == n.packet && |n.packet| <= |n.frame.signed|
              && n.packet == n.frame.signed[|n.frame.signed| - |n.packet|..]
  {
    hide Good, Step;
    StartGood(c, b, clientKey, brokerKey);
    RunGood(Start(c, b, clientKey, brokerKey), es);
    RunKeys(Start(c, b, clientKey, brokerKey), es);
    NoteBoxed(Run(Start(c, b, clientKey, brokerKey), es), k);
  }

  lemma NoteBoxed(w: World, k: nat)
    requires Good(w) && k < |w.log|
    ensures var n := w.log[k];
            if n.t in SECRET then
              && n.frame.Control? && n.frame.clear.None? && n.frame.box.plain == Some(n.packet)
              && n.frame.box.key == {w.client.dhPublic, w.broker.dhPublic}
            else if n.frame.Control? then
              && n.frame.clear == Some(n.packet) && |n.packet| <= |n.frame.box.aad|
              && n.packet == n.frame.box.aad[|n.frame.box.aad| - |n.packet|..]
            else
              && n.frame.packet == n.packet && |n.packet| <= |n.frame.signed|
              && n.packet == n.frame.signed[|n.frame.signed| - |n.packet|..]
  {
    hide HeaderOf, Label, InTurn, OpenedOnce;
    assert Made(w, w.log[k]);
  }

  lemma {:induction false} RunKeys(w: World, es: seq<Event>)
    requires Fit(w) && PossibleRun(w, es) && Good(w)
    ensures Run(w, es).client.dhPublic == w.client.dhPublic && Run(w, es).broker.dhPublic == w.broker.dhPublic
    decreases |es|
  {
    hide Good, Step, Possible;
    if es != [] {
      StepGood(w, es[0]);
      StepKeys(w, es[0]);
      RunKeys(Step(w, es[0]), es[1..]);
    }
  }

  lemma StepKeys(w: World, e: Event)
    requires Fit(w) && Possible(w, e) && Good(w)
    ensures Step(w, e).client.dhPublic == w.client.dhPublic && Step(w, e).broker.dhPublic == w.broker.dhPublic
  {
    hide Good, Process, GetMessage, Keyed;
    match e
    case Send(role, t, packet) => SendKeys(w, role, t, packet);
    case Receive(role, k) =>
      ReceiveIs(w, role, k);
      SidesFit(w);
  }

  lemma SendKeys(w: World, role: Role, t: int, packet: seq<byte>)
    requires Fit(w) && Good(w) && t != DISCONNECT
    ensures var v := Step(w, Send(role, t, packet));
            v.client.dhPublic == w.client.dhPublic && v.broker.dhPublic == w.broker.dhPublic
  {
    hide GetMessage, Logged, InTurn, OpenedOnce;
    if GetMessage(w.Side(role), t, packet).1.Ok? {
      CountIs(w, w.Side(role), t, packet);
    }
  }
}
