/** The outbound queue of struct mosquitto as the C code keeps it: a linked list with a tail pointer, a
  * length counter and an in-flight counter, changed in place by messages_mosq.c and its callers. */
module Client {
  import opened Bytes
  import opened PacketIds
  import opened LinkedLists
  import opened ClientSpec
  import Topics
  import Utf8

  const MQTT_MAX_PAYLOAD := 268435455

  class Mosquitto {
    const out: LinkedList<Message>   // out_messages, out_messages_last
    var outQueueLen: int
    var inflightMessages: int
    var maxInflightMessages: nat
    var lastMid: int
    var draws: nat                   // how often an identifier was drawn
    var wire: seq<Sent>              // packets handed to packet__queue, successful or not
    var published: seq<int>          // on_publish callbacks

    ghost predicate Valid()
      reads this, out, out.nodes
    {
      out.Valid() && outQueueLen == |out.nodes| && IsU16(lastMid)
    }

    ghost function State(): ClientSpec.Client
      reads this, out, out.nodes
      requires Valid()
    {
      ClientSpec.Client(Engine(out.Contents(), inflightMessages, maxInflightMessages), lastMid, draws)
    }

    constructor (max: nat)
      ensures Valid() && State() == Init(max, 0) && wire == [] && published == [] && fresh(out)
    {
      out := new LinkedList<Message>();
      outQueueLen, inflightMessages, maxInflightMessages := 0, 0, max;
      lastMid, draws, wire, published := 0, 0, [], [];
    }

    /** mosquitto__mid_generate. */
    method MidGenerate() returns (mid: int)
      requires Valid()
      modifies this`lastMid, this`draws
      ensures Valid() && mid == lastMid == NextMid(old(lastMid)) && draws == old(draws) + 1
      ensures State() == Step(old(State()), Draw).0
    {
      hide LinkedList.Valid, LinkedList.Contents;
      lastMid := (lastMid + 1) % 0x1_0000;
      if lastMid == 0 {
        lastMid := (lastMid + 1) % 0x1_0000;
      }
      draws := draws + 1;
      mid := lastMid;
    }

    /** send__publish; `ok` says whether the network layer takes the packet. */
    method SendPublish(pub: Pub, dup: bool, ok: bool) returns (rc: Rc)
      modifies this`wire
      ensures wire == old(wire) + [SentPublish(pub, dup)]
      ensures rc == if ok then Success else NoConn
    {
      wire := wire + [SentPublish(pub, dup)];
      rc := if ok then Success else NoConn;
    }

    /** message__queue for the outbound direction; `started` is its 0 result. */
    method Queue(n: Node<Message>) returns (started: bool)
      requires Valid() && n !in out.nodes && n.data.pub.qos > 0
      modifies this`outQueueLen, this`inflightMessages, out, out.nodes, n
      ensures Valid() && out.nodes == old(out.nodes) + [n]
      ensures out.Contents() == old(out.Contents()) + [n.data] && n.data == old(n.data)
      ensures started == HasRoom(old(inflightMessages), maxInflightMessages)
      ensures inflightMessages == old(inflightMessages) + if started then 1 else 0
    {
      hide LinkedList.Linked, LinkedList.Contents, NodeAt, Values;
      outQueueLen := outQueueLen + 1;
      out.Append(n);
      if maxInflightMessages == 0 || inflightMessages < maxInflightMessages {
        inflightMessages := inflightMessages + 1;
        started := true;
      } else {
        started := false;
      }
    }

    /** The part of mosquitto_publish that stores and starts a QoS 1 or 2 message. */
    method PublishQueued(pub: Pub, ok: bool) returns (rc: Rc)
      requires Valid() && pub.qos > 0
      modifies this`outQueueLen, this`inflightMessages, this`wire, out, out.nodes
      ensures Valid()
      ensures var r := Enqueue(old(State().engine), pub);
              State() == old(State()).(engine := r.0) && wire == old(wire) + r.1
      ensures rc == if ok || !HasRoom(old(inflightMessages), maxInflightMessages) then Success else NoConn
    {
      hide LinkedList.Linked, LinkedList.Contents, Values, NodeAt;
      var message := new Node(Message(pub, Invalid, false));
      var started := Queue(message);
      if started {
        out.Write(message, |out.nodes| - 1, message.data.(state := FirstSent(pub.qos)));
        rc := SendPublish(pub, false, ok);
      } else {
        rc := Success;
        assert wire == old(wire) + [];
      }
    }

    /** mosquitto_publish.  `ok` says whether the network layer takes the packet. */
    method Publish(topic: seq<byte>, payload: seq<byte>, qos: int, retain: bool, ok: bool) returns (rc: Rc)
      requires Valid() && 0 !in topic
      modifies this, out, out.nodes
      ensures Valid() && published == old(published)
      ensures !Accepted(topic, payload, qos) ==> rc != Success && State() == old(State()) && wire == old(wire)
      ensures Accepted(topic, payload, qos) && qos == 0 ==>
                && State() == Step(old(State()), Draw).0
                && wire == old(wire) + [SentPublish(Pub(draws, lastMid, 0, topic, payload, retain), false)]
                && rc == if ok then Success else NoConn
      ensures Accepted(topic, payload, qos) && qos > 0 ==>
                var r := Step(old(State()), ClientSpec.Publish(qos, topic, payload, retain));
                && State() == r.0 && wire == old(wire) + r.1
                && rc == if ok || r.1 == [] then Success else NoConn
    {
      hide LinkedList.Valid, LinkedList.Contents, Utf8.WellFormed, Topics.NoWildcard;
      rc := CheckArguments(topic, payload, qos);
      if rc != Success {
        return;
      }
      var mid := MidGenerate();
      var pub := Pub(draws, mid, qos, topic, payload, retain);
      if qos == 0 {
        rc := SendPublish(pub, false, ok);
      } else {
        rc := PublishQueued(pub, ok);
      }
    }

    /** The search loop of message__remove and message__out_update. */
    method Lookup(mid: int) returns (prev: Node?<Message>, cur: Node?<Message>, ghost k: nat)
      requires Valid()
      ensures k == Find(out.Contents(), mid)
      ensures var found := Find(out.Contents(), mid);
              cur == NodeAt(out.nodes, found) && prev == NodeAt(out.nodes, found - 1)
    {
      hide LinkedList.Linked, LinkedList.Contents;
      out.Head();
      prev, cur, k := null, out.head, 0;
      while cur != null
        invariant 0 <= k <= |out.nodes| && cur == NodeAt(out.nodes, k) && prev == NodeAt(out.nodes, k - 1)
        invariant forall i :: 0 <= i < k ==> out.Contents()[i].pub.mid != mid
        decreases |out.nodes| - k
      {
        out.Links(k);
        if cur.data.pub.mid == mid {
          break;
        }
        prev := cur;
        cur := cur.next;
        k := k + 1;
      }
      FindIs(out.Contents(), mid, k);
    }

    /** Put the waiting message in `cur`, the `i`th node, in flight and send it. */
    method StartWaiting(cur: Node<Message>, ghost i: nat, ok: bool) returns (rc: Rc)
      requires Valid() && i < |out.nodes| && cur == out.nodes[i]
      modifies this`inflightMessages, this`wire, out.nodes
      ensures Valid() && inflightMessages == old(inflightMessages) + 1
      ensures var m := old(cur.data).(state := FirstSent(old(cur.data).pub.qos));
              out.Contents() == old(out.Contents())[i := m] && wire == old(wire) + [SentPublish(m.pub, m.dup)]
      ensures rc == if ok then Success else NoConn
    {
      hide LinkedList.Valid, LinkedList.Contents;
      inflightMessages := inflightMessages + 1;
      var m := cur.data.(state := FirstSent(cur.data.pub.qos));
      out.Write(cur, i, m);
      rc := SendPublish(m.pub, m.dup, ok);
    }

    /** The promotion loop of message__remove. */
    method PromoteWaiting(sends: nat) returns (rc: Rc)
      requires Valid()
      modifies this`inflightMessages, this`wire, out.nodes
      ensures Valid()
      ensures var p := Promote(old(out.Contents()), old(inflightMessages), maxInflightMessages, sends);
              && out.Contents() == p.out && inflightMessages == p.inflight && wire == old(wire) + p.sent
              && rc == if p.ok then Success else NoConn
    {
      hide LinkedList.Valid, LinkedList.Contents, Promote, PromoteAt;
      var cur, left := out.head, sends;
      ghost var i, sent: seq<Sent> := 0, [];
      ghost var p := Promote(out.Contents(), inflightMessages, maxInflightMessages, sends);
      out.Head();
      PromoteAtStart(out.Contents(), inflightMessages, maxInflightMessages, sends);
      while cur != null
        invariant Valid() && i <= |out.nodes| && cur == NodeAt(out.nodes, i) && wire == old(wire) + sent
        invariant p == PromoteAt(out.Contents(), i, inflightMessages, maxInflightMessages, left, sent)
        decreases |out.nodes| - i
      {
        out.Links(i);
        PromoteTurn(out.Contents(), i, inflightMessages, maxInflightMessages, left, sent);
        if maxInflightMessages == 0 || inflightMessages < maxInflightMessages {
          if cur.data.pub.qos > 0 && cur.data.state == Invalid {
            sent := sent + [SentPublish(cur.data.pub, cur.data.dup)];
            rc := StartWaiting(cur, i, left > 0);
            if rc != Success {
              return rc;
            }
            left := left - 1;
          }
        } else {
          return Success;
        }
        out.Links(i);
        cur := cur.next;
        i := i + 1;
      }
      PromoteAtEnd(out.Contents(), inflightMessages, maxInflightMessages, left, sent);
      return Success;
    }

    /** Unlink `cur`, the `k`th node, and take it off both counters. */
    method Unlink(prev: Node?<Message>, cur: Node<Message>, ghost k: nat)
      requires Valid() && k < |out.nodes| && cur == out.nodes[k] && prev == NodeAt(out.nodes, k - 1)
      modifies this`outQueueLen, this`inflightMessages, out, out.nodes
      ensures Valid() && (forall n :: n in out.nodes ==> n in old(out.nodes)) && k < |old(out.Contents())|
      ensures var q := old(out.Contents());
              && out.Contents() == q[..k] + q[k + 1..]
              && inflightMessages == old(inflightMessages) - if q[k].pub.qos > 0 then 1 else 0
    {
      hide LinkedList.Valid, LinkedList.Linked, LinkedList.Contents;
      out.Links(k);
      out.Unlink(prev, cur, k);
      outQueueLen := outQueueLen - 1;
      if cur.data.pub.qos > 0 {
        inflightMessages := inflightMessages - 1;
      }
    }

    /** The search and unlink part of message__remove. */
    method TakeOut(mid: int) returns (found: bool)
      requires Valid()
      modifies this`outQueueLen, this`inflightMessages, out, out.nodes
      ensures Valid() && (forall n :: n in out.nodes ==> n in old(out.nodes))
      ensures found == (Find(old(out.Contents()), mid) < |old(out.nodes)|)
      ensures var q, k := old(out.Contents()), Find(old(out.Contents()), mid);
              if !found then out.Contents() == q && inflightMessages == old(inflightMessages)
              else
                && out.Contents() == q[..k] + q[k + 1..]
                && inflightMessages == old(inflightMessages) - if q[k].pub.qos > 0 then 1 else 0
    {
      hide LinkedList.Valid, LinkedList.Contents, Values, Find;
      var prev, cur;
      ghost var k;
      prev, cur, k := Lookup(mid);
      if cur == null {
        return false;
      }
      Unlink(prev, cur, k);
      return true;
    }

    /** message__remove for the outbound direction.  `sends` counts the sends that succeed before one fails. */
    method Remove(mid: int, sends: nat) returns (rc: Rc)
      requires Valid()
      modifies this`outQueueLen, this`inflightMessages, this`wire, out, out.nodes
      ensures Valid()
      ensures var p := ClientSpec.Remove(old(State().engine), mid, sends);
              && State() == old(State()).(engine := old(State().engine).(out := p.out, inflight := p.inflight))
              && wire == old(wire) + p.sent
              && rc == if Find(old(out.Contents()), mid) == |old(out.nodes)| then NotFound
                       else if p.ok then Success else NoConn
    {
      hide LinkedList.Valid, LinkedList.Contents, Promote, Find;
      var found := TakeOut(mid);
      if found {
        assert forall i :: 0 <= i < |out.nodes| ==> out.nodes[i] in old(out.nodes);
        rc := PromoteWaiting(sends);
      } else {
        assert wire == old(wire) + [];
        rc := NotFound;
      }
    }

    /** message__out_update. */
    method OutUpdate(mid: int, state: ClientSpec.State) returns (rc: Rc)
      requires Valid()
      modifies out.nodes
      ensures Valid() && out.Contents() == Update(old(out.Contents()), mid, state)
      ensures rc == if Find(old(out.Contents()), mid) == |out.nodes| then NotFound else Success
    {
      hide LinkedList.Valid, LinkedList.Contents;
      var prev, cur;
      ghost var k;
      prev, cur, k := Lookup(mid);
      if cur == null {
        return NotFound;
      }
      out.Links(k);
      out.Write(cur, k, cur.data.(state := state));
      return Success;
    }

    /** The state change of message__reconnect_reset for a message inside the window. */
    method ResetOne(message: Node<Message>, ghost i: nat)
      requires out.Valid() && i < |out.nodes| && message == out.nodes[i]
      modifies message
      ensures out.Valid() && message.data.state == ResetState(old(message.data))
      ensures out.Contents() == old(out.Contents())[i := old(message.data).(state := ResetState(old(message.data)))]
    {
      hide LinkedList.Valid, LinkedList.Contents;
      out.Links(i);
      if message.data.pub.qos == 1 {
        out.Write(message, i, message.data.(state := PublishQos1));
      } else if message.data.pub.qos == 2 {
        if message.data.state == WaitForPubrec {
          out.Write(message, i, message.data.(state := PublishQos2));
        } else if message.data.state == WaitForPubcomp {
          out.Write(message, i, message.data.(state := ResendPubrel));
        }
      }
    }

    /** One turn of the loop of message__reconnect_reset over the outbound queue. */
    method ResetNode(message: Node<Message>, ghost i: nat)
      requires out.Valid() && i < |out.nodes| && message == out.nodes[i]
      modifies this`outQueueLen, this`inflightMessages, message
      ensures out.Valid() && outQueueLen == old(outQueueLen) + 1 && i < |old(out.Contents())|
      ensures var q := old(out.Contents());
              ResetAt(q, i, old(inflightMessages), maxInflightMessages) ==
              ResetAt(out.Contents(), i + 1, inflightMessages, maxInflightMessages)
    {
      hide LinkedList.Valid, LinkedList.Contents, ResetAt, ResetState;
      out.Links(i);
      ResetTurn(out.Contents(), i, inflightMessages, maxInflightMessages);
      outQueueLen := outQueueLen + 1;
      if maxInflightMessages == 0 || inflightMessages < maxInflightMessages {
        if message.data.pub.qos > 0 {
          inflightMessages := inflightMessages + 1;
        }
        ResetOne(message, i);
      } else {
        out.Write(message, i, message.data.(state := Invalid));
      }
    }

    /** The outbound half of message__reconnect_reset. */
    method ReconnectReset()
      requires Valid()
      modifies this`outQueueLen, this`inflightMessages, out`last, out.nodes
      ensures Valid() && State() == Step(old(State()), Reconnect).0
    {
      hide LinkedList.Valid, LinkedList.Contents, ResetFrom, ResetAt, ResetState;
      inflightMessages, outQueueLen := 0, 0;
      var prev: Node?<Message>, message := null, out.head;
      ghost var i, r := 0, ResetFrom(out.Contents(), 0, maxInflightMessages);
      out.Head();
      ResetAtStart(out.Contents(), 0, maxInflightMessages);
      while message != null
        invariant out.Valid() && i <= |out.nodes| && outQueueLen == i
        invariant message == NodeAt(out.nodes, i) && prev == NodeAt(out.nodes, i - 1)
        invariant r == ResetAt(out.Contents(), i, inflightMessages, maxInflightMessages)
        decreases |out.nodes| - i
      {
        ResetNode(message, i);
        out.Links(i);
        prev := message;
        message := message.next;
        i := i + 1;
      }
      out.SetLast(prev);
      ResetAtEnd(out.Contents(), inflightMessages, maxInflightMessages);
    }

    /** The switch of message__retry_check_actual. */
    method ResendOne(messages: Node<Message>, ghost i: nat)
      requires out.Valid() && i < |out.nodes| && messages == out.nodes[i]
      modifies this`wire, messages
      ensures out.Valid() && out.Contents() == old(out.Contents())[i := Retried(old(messages.data))]
      ensures wire == old(wire) + Resend(old(messages.data))
    {
      hide LinkedList.Valid, LinkedList.Contents;
      out.Links(i);
      var m := messages.data;
      match m.state {
        case PublishQos1 | PublishQos2 =>
          out.Write(messages, i, m.(dup := true));
          wire := wire + [SentPublish(m.pub, true)];
        case WaitForPubrel =>
          out.Write(messages, i, m.(dup := true));
          wire := wire + [SentPubrec(m.pub.mid)];
        case ResendPubrel | WaitForPubcomp =>
          out.Write(messages, i, m.(dup := true));
          wire := wire + [SentPubrel(m.pub.mid)];
        case _ =>
          assert wire == old(wire) + [];
      }
    }

    /** message__retry_check, called on a CONNACK that accepts the connection. */
    method RetryCheck()
      requires Valid()
      modifies this`wire, out.nodes
      ensures Valid() && State() == Step(old(State()), Connack).0
      ensures wire == old(wire) + Step(old(State()), Connack).1
    {
      hide LinkedList.Valid, LinkedList.Contents, Retry, RetryAt, Resend, Retried;
      var messages := out.head;
      ghost var i, sent: seq<Sent>, r := 0, [], Retry(out.Contents());
      out.Head();
      RetryAtStart(out.Contents());
      while messages != null
        invariant out.Valid() && i <= |out.nodes| && messages == NodeAt(out.nodes, i) && wire == old(wire) + sent
        invariant r == RetryAt(out.Contents(), i, sent)
        decreases |out.nodes| - i
      {
        out.Links(i);
        RetryTurn(out.Contents(), i, sent);
        sent := sent + Resend(messages.data);
        ResendOne(messages, i);
        out.Links(i);
        messages := messages.next;
        i := i + 1;
      }
      RetryAtEnd(out.Contents(), sent);
    }

    /** handle__pubrec: an unknown identifier is answered too. */
    method HandlePubrec(mid: int)
      requires Valid()
      modifies this`wire, out.nodes
      ensures Valid() && State() == Step(old(State()), Pubrec(mid)).0
      ensures wire == old(wire) + Step(old(State()), Pubrec(mid)).1
    {
      hide LinkedList.Valid, LinkedList.Contents, Update;
      var rc := OutUpdate(mid, WaitForPubcomp);
      wire := wire + [SentPubrel(mid)];
    }

    /** handle__pubackcomp: the application is told about a removal whose promotions were all sent. */
    method HandlePubackcomp(mid: int, qos: int, sends: nat)
      requires Valid()
      modifies this`outQueueLen, this`inflightMessages, this`wire, this`published, out, out.nodes
      ensures Valid() && State() == Step(old(State()), Ack(mid, qos, sends)).0
      ensures wire == old(wire) + Step(old(State()), Ack(mid, qos, sends)).1
      ensures var e := old(State().engine);
              published == old(published) +
                if Find(e.out, mid) < |e.out| && ClientSpec.Remove(e, mid, sends).ok then [mid] else []
    {
      hide LinkedList.Valid, LinkedList.Contents, Promote;
      var rc := Remove(mid, sends);
      if rc == Success {
        published := published + [mid];
      } else {
        assert published == old(published) + [];
      }
    }
  }

  /** The arguments mosquitto_publish accepts. */
  ghost predicate Accepted(topic: seq<byte>, payload: seq<byte>, qos: int) {
    && 0 <= qos <= 2
    && topic != [] && |topic| <= 65535 && Utf8.WellFormed(topic) && Topics.NoWildcard(topic)
    && |payload| <= MQTT_MAX_PAYLOAD
  }

  /** The argument checks of mosquitto_publish, in its order. */
  method CheckArguments(topic: seq<byte>, payload: seq<byte>, qos: int) returns (rc: Rc)
    requires 0 !in topic
    ensures rc == Success <==> Accepted(topic, payload, qos)
    ensures rc == Malformed <==> 0 <= qos <= 2 && topic != [] && (|topic| > 65536 || !Utf8.WellFormed(topic))
    ensures rc == PayloadSize ==> |payload| > MQTT_MAX_PAYLOAD
  {
    hide Utf8.WellFormed;
    if qos < 0 || qos > 2 {
      return Inval;
    }
    if topic == [] {
      return Inval;
    }
    rc := Utf8.ValidateUtf8(topic + [0], |topic|);
    assert (topic + [0])[..|topic|] == topic;
    if rc != Success {
      return Malformed;
    }
    if |payload| > MQTT_MAX_PAYLOAD {
      return PayloadSize;
    }
    rc := Topics.PubTopicCheck(topic);
  }
}
