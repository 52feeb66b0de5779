/** The inbound half of the client: PUBLISH packets of QoS 2 are held until their PUBREL
  * (method A of section 4.3.3 of MQTT 3.1.1), through reconnects. */
module Inbound {
  import opened LinkedLists

  /** A PUBLISH packet as received. */
  datatype Arrival = Arrival(mid: int, qos: int, dup: bool, retain: bool, topic: seq<int>, payload: seq<int>)

  datatype Reply = Puback(mid: int) | Pubrec(mid: int) | Pubcomp(mid: int)

  datatype Event = Publish(a: Arrival) | Pubrel(mid: int) | Reconnect

  /** Held messages, and the logs of what was received, passed to on_message, and answered. */
  datatype State = State(held: seq<Arrival>, received: seq<Arrival>, delivered: seq<Arrival>, replies: seq<Reply>)

  function FindMid(q: seq<Arrival>, mid: int): (k: nat)
    ensures k <= |q|
    ensures forall i :: 0 <= i < k ==> q[i].mid != mid
    ensures k < |q| ==> q[k].mid == mid
  {
    if q == [] || q[0].mid == mid then 0 else 1 + FindMid(q[1..], mid)
  }

  lemma {:induction false} FindMidIs(q: seq<Arrival>, mid: int, k: nat)
    requires k <= |q| && (forall i :: 0 <= i < k ==> q[i].mid != mid)
    requires k < |q| ==> q[k].mid == mid
    ensures FindMid(q, mid) == k
  {
    if k > 0 {
      FindMidIs(q[1..], mid, k - 1);
    }
  }

  function KeepQos2(q: seq<Arrival>): seq<Arrival> {
    if q == [] then [] else (if q[0].qos == 2 then [q[0]] else []) + KeepQos2(q[1..])
  }

  /** The inbound loop of message__reconnect_reset.  After dropping the head it steps over the new head unchecked. */
  function ResetIn(q: seq<Arrival>): seq<Arrival> {
    if q == [] then []
    else if q[0].qos == 2 then [q[0]] + KeepQos2(q[1..])
    else if |q| == 1 then []
    else [q[1]] + KeepQos2(q[2..])
  }

  predicate AllQos2(q: seq<Arrival>) {
    forall i :: 0 <= i < |q| ==> q[i].qos == 2
  }

  /** handle__publish after parsing, with a QoS the parser accepts; handle__pubrel; a reconnect. */
  function Step(s: State, ev: Event): State {
    match ev
    case Publish(a) =>
      var t := s.(received := s.received + [a]);
      if a.qos == 0 then t.(delivered := s.delivered + [a])
      else if a.qos == 1 then t.(delivered := s.delivered + [a], replies := s.replies + [Puback(a.mid)])
      else if a.qos == 2 then t.(held := s.held + [a], replies := s.replies + [Pubrec(a.mid)])
      else s
    case Pubrel(mid) =>
      var k := FindMid(s.held, mid);
      var t := s.(replies := s.replies + [Pubcomp(mid)]);
      if k == |s.held| then t
      else t.(held := s.held[..k] + s.held[k + 1..], delivered := s.delivered + [s.held[k]])
    case Reconnect => s.(held := ResetIn(s.held))
  }

  function Run(s: State, evs: seq<Event>): State
    decreases |evs|
  {
    if evs == [] then s else Run(Step(s, evs[0]), evs[1..])
  }

  /** The QoS 2 messages of `q` with identifier `mid`, in order. */
  function Of(q: seq<Arrival>, mid: int): seq<Arrival> {
    if q == [] then []
    else (if q[0].qos == 2 && q[0].mid == mid then [q[0]] else []) + Of(q[1..], mid)
  }

  lemma {:induction false} OfAppend(a: seq<Arrival>, b: seq<Arrival>, mid: int)
    ensures Of(a + b, mid) == Of(a, mid) + Of(b, mid)
  {
    if a == [] {
      assert a + b == b;
    } else {
      assert (a + b)[1..] == a[1..] + b;
      OfAppend(a[1..], b, mid);
    }
  }

  lemma {:induction false} OfAbsent(q: seq<Arrival>, mid: int)
    requires forall i :: 0 <= i < |q| ==> q[i].mid != mid
    ensures Of(q, mid) == []
  {
    if q != [] {
      OfAbsent(q[1..], mid);
    }
  }

  lemma OfOne(a: Arrival, mid: int)
    ensures Of([a], mid) == if a.qos == 2 && a.mid == mid then [a] else []
  {
    assert [a][1..] == [];
  }

  /** Taking out the first message with its identifier takes the head off that identifier's messages. */
  lemma OfTaken(q: seq<Arrival>, k: nat, mid: int)
    requires k < |q| && forall i :: 0 <= i < k ==> q[i].mid != q[k].mid
    ensures Of(q, mid) == Of([q[k]], mid) + Of(q[..k] + q[k + 1..], mid)
  {
    hide Of;
    var front, a, back := q[..k], q[k], q[k + 1..];
    assert q == front + ([a] + back);
    OfAppend(front, [a] + back, mid);
    OfAppend([a], back, mid);
    OfAppend(front, back, mid);
    OfOne(a, mid);
    if mid == a.mid {
      OfAbsent(front, mid);
    }
  }

  lemma {:induction false} ResetKeepsQos2(q: seq<Arrival>)
    requires AllQos2(q)
    ensures KeepQos2(q) == q && ResetIn(q) == q
  {
    if q != [] {
      ResetKeepsQos2(q[1..]);
    }
  }

  /** The reset loop leaves only QoS 2 messages exactly unless the first two both have another QoS. */
  lemma ResetDropsOthersIff(q: seq<Arrival>)
    ensures AllQos2(ResetIn(q)) <==> !(|q| >= 2 && q[0].qos != 2 && q[1].qos != 2)
  {
    if q != [] {
      KeptQos2(q[1..]);
      if |q| >= 2 {
        KeptQos2(q[2..]);
      }
      assert q[0].qos != 2 && |q| >= 2 ==> ResetIn(q)[0] == q[1];
    }
  }

  lemma {:induction false} KeptQos2(q: seq<Arrival>)
    ensures AllQos2(KeepQos2(q))
  {
    if q != [] {
      KeptQos2(q[1..]);
    }
  }

  /** Per identifier, what was received is what was delivered followed by what is still held. */
  ghost predicate Conserved(s: State) {
    AllQos2(s.held) && forall mid :: Of(s.delivered, mid) + Of(s.held, mid) == Of(s.received, mid)
  }

  lemma StepConserves(s: State, ev: Event)
    requires Conserved(s)
    ensures Conserved(Step(s, ev))
  {
    hide Of;
    match ev
    case Publish(a) =>
      forall mid
        ensures var t := Step(s, ev); Of(t.delivered, mid) + Of(t.held, mid) == Of(t.received, mid)
      {
        PublishConserves(s, a, mid);
      }
    case Pubrel(m) =>
      var k := FindMid(s.held, m);
      if k < |s.held| {
        forall mid
          ensures var t := Step(s, ev); Of(t.delivered, mid) + Of(t.held, mid) == Of(t.received, mid)
        {
          PubrelConserves(s, m, mid);
        }
      }
    case Reconnect => ResetKeepsQos2(s.held);
  }

  lemma PublishConserves(s: State, a: Arrival, mid: int)
    requires Conserved(s)
    ensures var t := Step(s, Publish(a)); Of(t.delivered, mid) + Of(t.held, mid) == Of(t.received, mid)
  {
    hide Of;
    OfAppend(s.received, [a], mid);
    OfAppend(s.held, [a], mid);
    OfAppend(s.delivered, [a], mid);
    OfOne(a, mid);
    assert Of(s.delivered, mid) + Of(s.held, mid) == Of(s.received, mid);
  }

  lemma PubrelConserves(s: State, m: int, mid: int)
    requires Conserved(s) && FindMid(s.held, m) < |s.held|
    ensures var t := Step(s, Pubrel(m)); Of(t.delivered, mid) + Of(t.held, mid) == Of(s.received, mid)
  {
    hide Of;
    var k := FindMid(s.held, m);
    OfTaken(s.held, k, mid);
    OfAppend(s.delivered, [s.held[k]], mid);
    assert Of(s.delivered, mid) + Of(s.held, mid) == Of(s.received, mid);
  }

  /** Through every run, reconnects included, no QoS 2 message is lost, duplicated or reordered within its
    * identifier. */
  lemma {:induction false} RunConserves(s: State, evs: seq<Event>)
    requires Conserved(s)
    ensures Conserved(Run(s, evs))
    decreases |evs|
  {
    if evs != [] {
      StepConserves(s, evs[0]);
      RunConserves(Step(s, evs[0]), evs[1..]);
    }
  }

  // ----- exactly once -----

  /** Number of PUBRELs for `mid` in a run. */
  function Pubrels(evs: seq<Event>, mid: int): nat {
    if evs == [] then 0 else (if evs[0] == Pubrel(mid) then 1 else 0) + Pubrels(evs[1..], mid)
  }

  predicate NoArrival(evs: seq<Event>, mid: int) {
    forall i :: 0 <= i < |evs| && evs[i].Publish? ==> !(evs[i].a.qos == 2 && evs[i].a.mid == mid)
  }

  /** Without further arrivals, each PUBREL delivers the oldest message held for its identifier, until none is left. */
  lemma {:induction false} PubrelsDeliver(s: State, evs: seq<Event>, mid: int)
    requires Conserved(s) && NoArrival(evs, mid)
    ensures var h, n := Of(s.held, mid), Pubrels(evs, mid);
            Of(Run(s, evs).delivered, mid) == Of(s.delivered, mid) + h[..if n < |h| then n else |h|]
    decreases |evs|
  {
    hide Of, Step;
    if evs != [] {
      var t := Step(s, evs[0]);
      StepConserves(s, evs[0]);
      PubrelsDeliver(t, evs[1..], mid);
      StepHeld(s, evs[0], mid);
    }
  }

  lemma StepHeld(s: State, ev: Event, mid: int)
    requires Conserved(s) && NoArrival([ev], mid)
    ensures var t, h := Step(s, ev), Of(s.held, mid);
            if ev == Pubrel(mid) && h != [] then
              Of(t.held, mid) == h[1..] && Of(t.delivered, mid) == Of(s.delivered, mid) + [h[0]]
            else
              Of(t.held, mid) == h && Of(t.delivered, mid) == Of(s.delivered, mid)
  {
    hide Of;
    match ev
    case Publish(a) =>
      assert [ev][0] == ev;
      OfAppend(s.held, [a], mid);
      OfAppend(s.delivered, [a], mid);
      OfOne(a, mid);
    case Pubrel(m) =>
      var k := FindMid(s.held, m);
      if k < |s.held| {
        OfTaken(s.held, k, mid);
        OfAppend(s.delivered, [s.held[k]], mid);
        OfOne(s.held[k], mid);
        if mid != m {
          assert Of(s.delivered, mid) + [] == Of(s.delivered, mid);
        }
      } else if mid == m {
        OfAbsent(s.held, mid);
      }
    case Reconnect => ResetKeepsQos2(s.held);
  }

  /** A QoS 2 message that arrives once, with no other one held under its identifier, is delivered
    * exactly once as soon as there is a PUBREL, however often that is repeated, and not before. */
  lemma ExactlyOnce(s: State, a: Arrival, after: seq<Event>)
    requires Conserved(s) && a.qos == 2 && Of(s.held, a.mid) == [] && NoArrival(after, a.mid)
    ensures Of(Run(Step(s, Publish(a)), after).delivered, a.mid) ==
            Of(s.delivered, a.mid) + if Pubrels(after, a.mid) > 0 then [a] else []
  {
    var t := Step(s, Publish(a));
    StepConserves(s, Publish(a));
    OfAppend(s.held, [a], a.mid);
    OfOne(a, a.mid);
    PubrelsDeliver(t, after, a.mid);
  }

  /** handle__publish does not look for the identifier among the held messages.  After an arrival and any
    * run without another one, exactly one message has been delivered under the identifier if and only if
    * there was one PUBREL, or there were more and none was held under the identifier before: a PUBLISH
    * repeated before its PUBREL reaches the application twice. */
  lemma DeliveredOnceIff(s: State, a: Arrival, after: seq<Event>)
    requires Conserved(s) && a.qos == 2 && NoArrival(after, a.mid)
    ensures var d, n := Run(Step(s, Publish(a)), after), Pubrels(after, a.mid);
            |Of(d.delivered, a.mid)| == |Of(s.delivered, a.mid)| + 1 <==> n == 1 || (n > 1 && Of(s.held, a.mid) == [])
  {
    hide Of;
    StepConserves(s, Publish(a));
    OfAppend(s.held, [a], a.mid);
    OfOne(a, a.mid);
    PubrelsDeliver(Step(s, Publish(a)), after, a.mid);
  }

  // ----- every packet gets its answer -----

  /** What asks for an answer: a PUBLISH of QoS 1, one of QoS 2, a PUBREL. */
  datatype Request = Qos1 | Qos2 | Release

  predicate Asks(ev: Event, r: Request) {
    match r
    case Qos1 => ev.Publish? && ev.a.qos == 1
    case Qos2 => ev.Publish? && ev.a.qos == 2
    case Release => ev.Pubrel?
  }

  /** PUBACK, PUBREC and PUBCOMP (sections 3.4, 3.5 and 3.7 of MQTT 3.1.1). */
  predicate Answers(reply: Reply, r: Request) {
    match r
    case Qos1 => reply.Puback?
    case Qos2 => reply.Pubrec?
    case Release => reply.Pubcomp?
  }

  /** The identifiers of the packets of one kind that came, in order. */
  function Requested(evs: seq<Event>, r: Request): seq<int> {
    if evs == [] then [] else RequestOf(evs[0], r) + Requested(evs[1..], r)
  }

  function RequestOf(ev: Event, r: Request): seq<int> {
    if Asks(ev, r) then [if ev.Pubrel? then ev.mid else ev.a.mid] else []
  }

  /** The identifiers of the answers of one kind, in order. */
  function Answered(replies: seq<Reply>, r: Request): seq<int> {
    if replies == [] then [] else AnswerOf(replies[0], r) + Answered(replies[1..], r)
  }

  function AnswerOf(reply: Reply, r: Request): seq<int> {
    if Answers(reply, r) then [reply.mid] else []
  }

  lemma {:induction false} AnsweredAppend(a: seq<Reply>, b: seq<Reply>, r: Request)
    ensures Answered(a + b, r) == Answered(a, r) + Answered(b, r)
  {
    hide AnswerOf;
    if a == [] {
      assert a + b == b;
    } else {
      assert (a + b)[1..] == a[1..] + b;
      AnsweredAppend(a[1..], b, r);
    }
  }

  /** Over every run: the PUBACKs, PUBRECs and PUBCOMPs are those for the QoS 1 and QoS 2 messages and the
    * PUBRELs that came, one for each, in order. */
  lemma {:induction false} RunAnswers(s: State, evs: seq<Event>, r: Request)
    ensures Answered(Run(s, evs).replies, r) == Answered(s.replies, r) + Requested(evs, r)
    decreases |evs|
  {
    hide Step, Answered, RequestOf;
    if evs != [] {
      StepAnswers(s, evs[0], r);
      RunAnswers(Step(s, evs[0]), evs[1..], r);
    }
  }

  /** And there are no other answers. */
  lemma {:induction false} NoOtherAnswers(s: State, evs: seq<Event>)
    ensures |Run(s, evs).replies| ==
            |s.replies| + |Requested(evs, Qos1)| + |Requested(evs, Qos2)| + |Requested(evs, Release)|
    decreases |evs|
  {
    hide Step;
    if evs != [] {
      StepReplies(s, evs[0]);
      NoOtherAnswers(Step(s, evs[0]), evs[1..]);
    }
  }

  lemma StepAnswers(s: State, ev: Event, r: Request)
    ensures Answered(Step(s, ev).replies, r) == Answered(s.replies, r) + RequestOf(ev, r)
  {
    hide Answered;
    var t := Step(s, ev);
    if |t.replies| > |s.replies| {
      var last := t.replies[|s.replies|];
      assert t.replies == s.replies + [last];
      AnsweredAppend(s.replies, [last], r);
      AnsweredOne(last, r);
    }
  }

  lemma AnsweredOne(reply: Reply, r: Request)
    ensures Answered([reply], r) == AnswerOf(reply, r)
  {
    assert [reply][1..] == [];
  }

  lemma StepReplies(s: State, ev: Event)
    ensures |Step(s, ev).replies| ==
            |s.replies| + |RequestOf(ev, Qos1)| + |RequestOf(ev, Qos2)| + |RequestOf(ev, Release)|
  {
  }

  /** The messages of QoS 0 and 1. */
  function AtOnce(q: seq<Arrival>): seq<Arrival> {
    if q == [] then [] else OneAtOnce(q[0]) + AtOnce(q[1..])
  }

  function OneAtOnce(a: Arrival): seq<Arrival> {
    if a.qos == 0 || a.qos == 1 then [a] else []
  }

  lemma {:induction false} AtOnceAppend(a: seq<Arrival>, b: seq<Arrival>)
    ensures AtOnce(a + b) == AtOnce(a) + AtOnce(b)
  {
    hide OneAtOnce;
    if a == [] {
      assert a + b == b;
    } else {
      assert (a + b)[1..] == a[1..] + b;
      AtOnceAppend(a[1..], b);
    }
  }

  /** The messages that came, of the three levels of QoS. */
  function Came(evs: seq<Event>): seq<Arrival> {
    if evs == [] then []
    else (if evs[0].Publish? && 0 <= evs[0].a.qos <= 2 then [evs[0].a] else []) + Came(evs[1..])
  }

  /** Over every run: messages of QoS 0 and 1 reach the application once each, in the order in which they
    * came; the log of received messages is what came. */
  lemma {:induction false} RunDelivers(s: State, evs: seq<Event>)
    requires AllQos2(s.held)
    ensures Run(s, evs).received == s.received + Came(evs)
    ensures AtOnce(Run(s, evs).delivered) == AtOnce(s.delivered) + AtOnce(Came(evs))
    decreases |evs|
  {
    hide AtOnce, Step;
    NoneAtOnce();
    if evs != [] {
      var t := Step(s, evs[0]);
      var now := if evs[0].Publish? && 0 <= evs[0].a.qos <= 2 then [evs[0].a] else [];
      StepDelivers(s, evs[0]);
      RunDelivers(t, evs[1..]);
      AtOnceAppend(now, Came(evs[1..]));
      assert Came(evs) == now + Came(evs[1..]);
    } else {
      assert s.received + [] == s.received && AtOnce(s.delivered) + [] == AtOnce(s.delivered);
    }
  }

  lemma NoneAtOnce()
    ensures AtOnce([]) == []
  {
  }

  lemma StepDelivers(s: State, ev: Event)
    requires AllQos2(s.held)
    ensures var t, now := Step(s, ev), if ev.Publish? && 0 <= ev.a.qos <= 2 then [ev.a] else [];
            && AllQos2(t.held) && t.received == s.received + now
            && AtOnce(t.delivered) == AtOnce(s.delivered) + AtOnce(now)
  {
    hide AtOnce;
    var t := Step(s, ev);
    ResetKeepsQos2(s.held);
    NoneAtOnce();
    if |t.delivered| > |s.delivered| {
      var last := t.delivered[|s.delivered|];
      assert t.delivered == s.delivered + [last];
      AtOnceAppend(s.delivered, [last]);
      AtOnceOne(last);
    } else {
      assert AtOnce(s.delivered) + [] == AtOnce(s.delivered);
      if ev.Publish? {
        AtOnceOne(ev.a);
      }
    }
  }

  lemma AtOnceOne(a: Arrival)
    ensures AtOnce([a]) == OneAtOnce(a)
  {
    assert [a][1..] == [];
  }

  // ----- the linked list -----

  /** The reset loop at position `i`. */
  function ResetInAt(q: seq<Arrival>, i: nat): seq<Arrival>
    requires i <= |q|
  {
    if i == 0 then ResetIn(q) else q[..i] + KeepQos2(q[i..])
  }

  /** How many messages the loop still looks at, and counts, from position `i` on. */
  function ResetTurns(q: seq<Arrival>, i: nat): int {
    if i == 0 && |q| > 1 && q[0].qos != 2 then |q| - 1 else |q| - i
  }

  lemma ResetInTurn(q: seq<Arrival>, i: nat)
    requires i < |q|
    ensures q[i].qos == 2 ==> ResetInAt(q, i) == ResetInAt(q, i + 1)
    ensures q[i].qos != 2 && i > 0 ==> ResetInAt(q, i) == ResetInAt(q[..i] + q[i + 1..], i)
    ensures q[0].qos != 2 && i == 0 ==>
              ResetInAt(q, 0) == ResetInAt(q[..0] + q[1..], if |q| > 1 then 1 else 0)
  {
    assert q[i..][0] == q[i] && q[i..][1..] == q[i + 1..];
    if q[i].qos == 2 {
      assert q[..i + 1] == q[..i] + [q[i]];
      assert i == 0 ==> q[..1] == [q[0]];
    } else if i > 0 {
      var r := q[..i] + q[i + 1..];
      assert r[..i] == q[..i] && r[i..] == q[i + 1..];
    } else if |q| > 1 {
      var r := q[..0] + q[1..];
      assert r[..1] == [q[1]] && r[1..] == q[2..];
    }
  }

  class InQueue {
    const list: LinkedList<Arrival>   // in_messages, in_messages_last
    var inQueueLen: int
    var received: seq<Arrival>
    var delivered: seq<Arrival>
    var replies: seq<Reply>

    ghost predicate Valid()
      reads this, list, list.nodes
    {
      list.Valid() && AllQos2(list.Contents()) && inQueueLen == |list.nodes|
    }

    ghost function Value(): State
      reads this, list, list.nodes
    {
      State(list.Contents(), received, delivered, replies)
    }

    constructor ()
      ensures Valid() && Value() == State([], [], [], []) && Conserved(Value()) && fresh(list)
    {
      list := new LinkedList<Arrival>();
      inQueueLen, received, delivered, replies := 0, [], [], [];
    }

    /** handle__publish after parsing; a QoS of 3 is refused. */
    method HandlePublish(a: Arrival) returns (ok: bool)
      requires Valid() && 0 <= a.qos <= 3
      modifies this`inQueueLen, this`received, this`delivered, this`replies, list, list.nodes
      ensures Valid() && Value() == Step(old(Value()), Publish(a)) && ok == (a.qos <= 2)
    {
      hide LinkedList.Valid, LinkedList.Contents;
      if a.qos <= 2 {
        received := received + [a];
      }
      match a.qos {
        case 0 =>
          delivered := delivered + [a];
        case 1 =>
          replies := replies + [Puback(a.mid)];
          delivered := delivered + [a];
        case 2 =>
          replies := replies + [Pubrec(a.mid)];
          inQueueLen := inQueueLen + 1;
          var n := new Node(a);
          list.Append(n);
        case _ =>
          return false;
      }
      return true;
    }

    /** The search loop of message__remove. */
    method Lookup(mid: int) returns (prev: Node?<Arrival>, cur: Node?<Arrival>, ghost k: nat)
      requires list.Valid()
      ensures k == FindMid(list.Contents(), mid)
      ensures var found := FindMid(list.Contents(), mid);
              cur == NodeAt(list.nodes, found) && prev == NodeAt(list.nodes, found - 1)
    {
      hide LinkedList.Valid, LinkedList.Contents;
      list.Head();
      prev, cur, k := null, list.head, 0;
      while cur != null
        invariant 0 <= k <= |list.nodes| && cur == NodeAt(list.nodes, k) && prev == NodeAt(list.nodes, k - 1)
        invariant forall i :: 0 <= i < k ==> list.Contents()[i].mid != mid
        decreases |list.nodes| - k
      {
        list.Links(k);
        if cur.data.mid == mid {
          break;
        }
        prev := cur;
        cur := cur.next;
        k := k + 1;
      }
      FindMidIs(list.Contents(), mid, k);
    }

    /** handle__pubrel with the inbound half of message__remove. */
    method HandlePubrel(mid: int)
      requires Valid()
      modifies this`inQueueLen, this`delivered, this`replies, list, list.nodes
      ensures Valid() && Value() == Step(old(Value()), Pubrel(mid))
    {
      hide LinkedList.Valid, LinkedList.Linked, LinkedList.Contents;
      var prev, cur;
      ghost var k;
      prev, cur, k := Lookup(mid);
      if cur != null {
        list.Links(k);
        list.Unlink(prev, cur, k);
        inQueueLen := inQueueLen - 1;
        delivered := delivered + [cur.data];
      }
      replies := replies + [Pubcomp(mid)];
    }

    /** Unlink `message`, and go back to the node before it, or to the new head. */
    method Drop(prev: Node?<Arrival>, message: Node<Arrival>, ghost i: nat)
      returns (m: Node?<Arrival>, ghost j: nat)
      requires list.Valid() && i < |list.nodes| && message == list.nodes[i] && prev == NodeAt(list.nodes, i - 1)
      modifies list, list.nodes
      ensures list.Valid() && (forall k :: 0 <= k < |list.nodes| ==> list.nodes[k] in old(list.nodes))
      ensures list.Contents() == old(list.Contents())[..i] + old(list.Contents())[i + 1..]
      ensures j == (if i > 0 then i - 1 else 0) && m == NodeAt(list.nodes, j)
    {
      hide LinkedList.Valid, LinkedList.Contents;
      list.Links(i);
      list.Unlink(prev, message, i);
      if prev != null {
        m, j := prev, i - 1;
      } else {
        m, j := message.next, 0;
      }
    }

    /** The body of the reset loop: deal with `message`, the `i`th node, and step on. */
    method ResetTurn(prev: Node?<Arrival>, message: Node<Arrival>, ghost i: nat)
      returns (prev': Node?<Arrival>, message': Node?<Arrival>, ghost j: nat)
      requires list.Valid() && i < |list.nodes| && message == list.nodes[i] && prev == NodeAt(list.nodes, i - 1)
      modifies list, list.nodes
      ensures list.Valid() && (forall k :: 0 <= k < |list.nodes| ==> list.nodes[k] in old(list.nodes))
      ensures j <= |list.nodes| && message' == NodeAt(list.nodes, j) && prev' == NodeAt(list.nodes, j - 1)
      ensures |list.nodes| - j < |old(list.nodes)| - i
      ensures ResetInAt(list.Contents(), j) == ResetInAt(old(list.Contents()), i)
      ensures ResetTurns(list.Contents(), j) == ResetTurns(old(list.Contents()), i) - 1
    {
      hide LinkedList.Valid, LinkedList.Contents, ResetIn, KeepQos2, ResetInAt;
      ResetInTurn(list.Contents(), i);
      list.Links(i);
      message', j := message, i;
      if message.data.qos != 2 {
        message', j := Drop(prev, message, i);
      }
      prev' := message';
      if message' != null {
        list.Links(j);
        message' := message'.next;
        j := j + 1;
      }
    }

    /** The inbound half of message__reconnect_reset, on any list. */
    method ReconnectReset()
      requires list.Valid()
      modifies this`inQueueLen, list, list.nodes
      ensures list.Valid() && list.Contents() == ResetIn(old(list.Contents()))
      ensures inQueueLen == ResetTurns(old(list.Contents()), 0)
    {
      hide LinkedList.Valid, LinkedList.Contents, ResetIn, KeepQos2, ResetInAt, ResetTurns;
      ghost var q := list.Contents();
      var prev: Node?<Arrival>, message := null, list.head;
      inQueueLen := 0;
      ghost var i: nat, mine := 0, set n | n in list.nodes;
      list.Head();
      ResetInStart(q);
      while message != null
        invariant list.Valid() && i <= |list.nodes|
        invariant forall k :: 0 <= k < |list.nodes| ==> list.nodes[k] in mine
        invariant message == NodeAt(list.nodes, i) && prev == NodeAt(list.nodes, i - 1)
        invariant ResetInAt(list.Contents(), i) == ResetIn(q)
        invariant inQueueLen + ResetTurns(list.Contents(), i) == ResetTurns(q, 0)
        decreases |list.nodes| - i
      {
        inQueueLen := inQueueLen + 1;
        prev, message, i := ResetTurn(prev, message, i);
      }
      ResetInEnd(list.Contents());
      list.SetLast(prev);
    }

    /** A reconnect of a client whose held messages all have QoS 2. */
    method Reconnected()
      requires Valid()
      modifies this`inQueueLen, list, list.nodes
      ensures Valid() && Value() == Step(old(Value()), Reconnect)
    {
      hide LinkedList.Valid, LinkedList.Contents, ResetIn;
      ResetKeepsQos2(list.Contents());
      ReconnectReset();
    }
  }

  lemma ResetInStart(q: seq<Arrival>)
    ensures ResetInAt(q, 0) == ResetIn(q)
  {
  }

  lemma ResetInEnd(q: seq<Arrival>)
    ensures ResetInAt(q, |q|) == q && ResetTurns(q, |q|) == 0
  {
  }
}
