/** The outbound half of the client's QoS 1 and 2 engine as functions on values:
  * what each operation of messages_mosq.c does to the queue, the in-flight counter and the wire. */
module ClientSpec {
  import opened Bytes
  import opened PacketIds

  /** mosquitto_msg_state, as far as the client's queues use it. */
  datatype State =
    | Invalid | PublishQos1 | WaitForPuback | PublishQos2 | WaitForPubrec
    | ResendPubrel | WaitForPubrel | WaitForPubcomp

  /** What the application handed over.  `serial` numbers the identifier draws of the client, so it
    * tells publications apart; the C struct has no such field. */
  datatype Pub = Pub(serial: nat, mid: int, qos: int, topic: seq<byte>, payload: seq<byte>, retain: bool)

  datatype Message = Message(pub: Pub, state: State, dup: bool)

  /** Packets handed to the network layer. */
  datatype Sent =
    | SentPublish(pub: Pub, dup: bool)
    | SentPubrel(mid: int)
    | SentPubrec(mid: int)
    | SentPubcomp(mid: int)
    | SentPuback(mid: int)

  datatype Engine = Engine(out: seq<Message>, inflight: int, max: nat)

  predicate HasRoom(inflight: int, max: nat) {
    max == 0 || inflight < max
  }

  function FirstSent(qos: int): State {
    if qos == 1 then WaitForPuback else WaitForPubrec
  }

  /** mosquitto_publish with QoS 1 or 2, after its argument checks. */
  function Enqueue(e: Engine, pub: Pub): (Engine, seq<Sent>) {
    if HasRoom(e.inflight, e.max) then
      (e.(out := e.out + [Message(pub, FirstSent(pub.qos), false)], inflight := e.inflight + 1),
       [SentPublish(pub, false)])
    else
      (e.(out := e.out + [Message(pub, Invalid, false)]), [])
  }

  /** Index of the first message with identifier `mid`, or |q|. */
  function Find(q: seq<Message>, mid: int): (k: nat)
    ensures k <= |q|
    ensures forall i :: 0 <= i < k ==> q[i].pub.mid != mid
    ensures k < |q| ==> q[k].pub.mid == mid
  {
    if q == [] || q[0].pub.mid == mid then 0 else 1 + Find(q[1..], mid)
  }

  /** Outcome of the promotion loop: the queue, the counter, what was sent, and whether no send failed. */
  datatype Promotion = Promotion(out: seq<Message>, inflight: int, sent: seq<Sent>, ok: bool)

  /** The promotion loop of message__remove; the send after `sends` successful ones fails and ends it. */
  function Promote(q: seq<Message>, inflight: int, max: nat, sends: nat): Promotion {
    if q == [] || !HasRoom(inflight, max) then Promotion(q, inflight, [], true)
    else if q[0].pub.qos > 0 && q[0].state == Invalid then
      var m := q[0].(state := FirstSent(q[0].pub.qos));
      var sent := SentPublish(m.pub, m.dup);
      if sends == 0 then Promotion([m] + q[1..], inflight + 1, [sent], false)
      else Ahead([m], [sent], Promote(q[1..], inflight + 1, max, sends - 1))
    else
      Ahead([q[0]], [], Promote(q[1..], inflight, max, sends))
  }

  function Ahead(q: seq<Message>, sent: seq<Sent>, p: Promotion): Promotion {
    Promotion(q + p.out, p.inflight, sent + p.sent, p.ok)
  }

  /** The outcome of the promotion loop from position `i` on, with `sent` sent so far. */
  function PromoteAt(q: seq<Message>, i: nat, inflight: int, max: nat, sends: nat, sent: seq<Sent>): Promotion
    requires i <= |q|
  {
    Ahead(q[..i], sent, Promote(q[i..], inflight, max, sends))
  }

  lemma PromoteAtStart(q: seq<Message>, inflight: int, max: nat, sends: nat)
    ensures PromoteAt(q, 0, inflight, max, sends, []) == Promote(q, inflight, max, sends)
  {
    assert q[0..] == q;
  }

  lemma PromoteAtEnd(q: seq<Message>, inflight: int, max: nat, sends: nat, sent: seq<Sent>)
    ensures PromoteAt(q, |q|, inflight, max, sends, sent) == Promotion(q, inflight, sent, true)
  {
  }

  /** One turn of the loop. */
  lemma PromoteTurn(q: seq<Message>, i: nat, inflight: int, max: nat, sends: nat, sent: seq<Sent>)
    requires i < |q|
    ensures var p := PromoteAt(q, i, inflight, max, sends, sent);
            if !HasRoom(inflight, max) then p == Promotion(q, inflight, sent, true)
            else if q[i].pub.qos > 0 && q[i].state == Invalid then
              var m := q[i].(state := FirstSent(q[i].pub.qos));
              var more := sent + [SentPublish(m.pub, m.dup)];
              if sends == 0 then p == Promotion(q[i := m], inflight + 1, more, false)
              else p == PromoteAt(q[i := m], i + 1, inflight + 1, max, sends - 1, more)
            else p == PromoteAt(q, i + 1, inflight, max, sends, sent)
  {
    assert q[i..][0] == q[i] && q[i..][1..] == q[i + 1..];
    var m := q[i].(state := FirstSent(q[i].pub.qos));
    assert q[i := m][..i + 1] == q[..i] + [m] && q[i := m][i + 1..] == q[i + 1..];
    assert q[..i + 1] == q[..i] + [q[i]];
    assert q == q[..i] + q[i..];
    assert q[i := m] == q[..i] + ([m] + q[i + 1..]);
  }

  lemma {:induction false} FindIs(q: seq<Message>, mid: int, k: nat)
    requires k <= |q| && (forall i :: 0 <= i < k ==> q[i].pub.mid != mid)
    requires k < |q| ==> q[k].pub.mid == mid
    ensures Find(q, mid) == k
  {
    if k > 0 {
      FindIs(q[1..], mid, k - 1);
    }
  }

  /** message__remove for the outbound queue. */
  function Remove(e: Engine, mid: int, sends: nat): Promotion {
    var k := Find(e.out, mid);
    if k == |e.out| then Promotion(e.out, e.inflight, [], true)
    else
      Promote(e.out[..k] + e.out[k + 1..], if e.out[k].pub.qos > 0 then e.inflight - 1 else e.inflight, e.max, sends)
  }

  /** message__out_update. */
  function Update(q: seq<Message>, mid: int, state: State): seq<Message> {
    var k := Find(q, mid);
    if k == |q| then q else q[k := q[k].(state := state)]
  }

  /** The state message__reconnect_reset gives a message that is inside the window. */
  function ResetState(m: Message): State {
    if m.pub.qos == 1 then PublishQos1
    else if m.pub.qos == 2 && m.state == WaitForPubrec then PublishQos2
    else if m.pub.qos == 2 && m.state == WaitForPubcomp then ResendPubrel
    else m.state
  }

  /** The outbound loop of message__reconnect_reset, from counter value `inflight` on. */
  function ResetFrom(q: seq<Message>, inflight: int, max: nat): (r: (seq<Message>, int))
    ensures |r.0| == |q|
  {
    if q == [] then ([], inflight)
    else if HasRoom(inflight, max) then
      var r := ResetFrom(q[1..], if q[0].pub.qos > 0 then inflight + 1 else inflight, max);
      ([q[0].(state := ResetState(q[0]))] + r.0, r.1)
    else
      var r := ResetFrom(q[1..], inflight, max);
      ([q[0].(state := Invalid)] + r.0, r.1)
  }

  function Reset(e: Engine): (r: Engine)
    ensures |r.out| == |e.out|
  {
    var r := ResetFrom(e.out, 0, e.max);
    e.(out := r.0, inflight := r.1)
  }

  /** The outcome of the reset loop from position `i` on. */
  function ResetAt(q: seq<Message>, i: nat, inflight: int, max: nat): (seq<Message>, int)
    requires i <= |q|
  {
    var r := ResetFrom(q[i..], inflight, max);
    (q[..i] + r.0, r.1)
  }

  lemma ResetAtStart(q: seq<Message>, inflight: int, max: nat)
    ensures ResetAt(q, 0, inflight, max) == ResetFrom(q, inflight, max)
  {
    assert q[0..] == q && q[..0] + ResetFrom(q, inflight, max).0 == ResetFrom(q, inflight, max).0;
  }

  lemma ResetAtEnd(q: seq<Message>, inflight: int, max: nat)
    ensures ResetAt(q, |q|, inflight, max) == (q, inflight)
  {
    assert q[..|q|] + [] == q;
  }

  lemma ResetTurn(q: seq<Message>, i: nat, inflight: int, max: nat)
    requires i < |q|
    ensures var room := HasRoom(inflight, max);
            ResetAt(q, i, inflight, max) ==
            ResetAt(q[i := q[i].(state := if room then ResetState(q[i]) else Invalid)], i + 1,
                    if room && q[i].pub.qos > 0 then inflight + 1 else inflight, max)
    ensures q[i := q[i]] == q
  {
    var m := q[i].(state := if HasRoom(inflight, max) then ResetState(q[i]) else Invalid);
    assert q[i..][0] == q[i] && q[i..][1..] == q[i + 1..];
    assert q[i := m][..i + 1] == q[..i] + [m] && q[i := m][i + 1..] == q[i + 1..];
    var r := ResetFrom(q[i + 1..], if HasRoom(inflight, max) && q[i].pub.qos > 0 then inflight + 1 else inflight, max);
    assert q[..i] + ([m] + r.0) == (q[..i] + [m]) + r.0;
  }

  /** What message__retry_check_actual sends for one message. */
  function Resend(m: Message): seq<Sent> {
    match m.state
    case PublishQos1 => [SentPublish(m.pub, true)]
    case PublishQos2 => [SentPublish(m.pub, true)]
    case WaitForPubrel => [SentPubrec(m.pub.mid)]
    case ResendPubrel => [SentPubrel(m.pub.mid)]
    case WaitForPubcomp => [SentPubrel(m.pub.mid)]
    case _ => []
  }

  function Retried(m: Message): Message {
    if Resend(m) == [] then m else m.(dup := true)
  }

  /** message__retry_check_actual: the queue afterwards and what was sent. */
  function Retry(q: seq<Message>): (r: (seq<Message>, seq<Sent>))
    ensures |r.0| == |q|
    ensures forall i :: 0 <= i < |q| ==> r.0[i] == Retried(q[i])
  {
    if q == [] then ([], [])
    else
      var r := Retry(q[1..]);
      ([Retried(q[0])] + r.0, Resend(q[0]) + r.1)
  }

  /** The outcome of the retry loop from position `i` on, with `sent` sent so far. */
  function RetryAt(q: seq<Message>, i: nat, sent: seq<Sent>): (seq<Message>, seq<Sent>)
    requires i <= |q|
  {
    var r := Retry(q[i..]);
    (q[..i] + r.0, sent + r.1)
  }

  lemma RetryAtStart(q: seq<Message>)
    ensures RetryAt(q, 0, []) == Retry(q)
  {
    assert q[0..] == q && q[..0] + Retry(q).0 == Retry(q).0 && [] + Retry(q).1 == Retry(q).1;
  }

  lemma RetryAtEnd(q: seq<Message>, sent: seq<Sent>)
    ensures RetryAt(q, |q|, sent) == (q, sent)
  {
    assert q[..|q|] + [] == q && sent + [] == sent;
  }

  lemma RetryTurn(q: seq<Message>, i: nat, sent: seq<Sent>)
    requires i < |q|
    ensures RetryAt(q, i, sent) == RetryAt(q[i := Retried(q[i])], i + 1, sent + Resend(q[i]))
    ensures q[i := q[i]] == q && sent + [] == sent
  {
    var m := Retried(q[i]);
    assert q[i..][0] == q[i] && q[i..][1..] == q[i + 1..];
    assert q[i := m][..i + 1] == q[..i] + [m] && q[i := m][i + 1..] == q[i + 1..];
    var r := Retry(q[i + 1..]);
    assert q[..i] + ([m] + r.0) == (q[..i] + [m]) + r.0;
    assert sent + (Resend(q[i]) + r.1) == (sent + Resend(q[i])) + r.1;
  }

  // ----- one step of the client -----

  datatype Event =
    | Publish(qos: int, topic: seq<byte>, payload: seq<byte>, retain: bool)  // accepted, QoS 1 or 2
    | Draw                                  // an identifier drawn for anything else
    | Ack(mid: int, qos: int, sends: nat)   // PUBACK (qos 1) or PUBCOMP (qos 2)
    | Pubrec(mid: int)
    | Reconnect
    | Connack

  datatype Client = Client(engine: Engine, lastMid: int, draws: nat)

  /** The publication that the next accepted call makes. */
  function NextPub(c: Client, ev: Event): Pub
    requires ev.Publish? && IsU16(c.lastMid)
  {
    Pub(c.draws + 1, NextMid(c.lastMid), ev.qos, ev.topic, ev.payload, ev.retain)
  }

  function Step(c: Client, ev: Event): (r: (Client, seq<Sent>))
    requires IsU16(c.lastMid)
    ensures IsU16(r.0.lastMid)
  {
    match ev
    case Publish(_, _, _, _) =>
      var r := Enqueue(c.engine, NextPub(c, ev));
      (Client(r.0, NextMid(c.lastMid), c.draws + 1), r.1)
    case Draw => (Client(c.engine, NextMid(c.lastMid), c.draws + 1), [])
    case Ack(mid, _, sends) =>
      var p := Remove(c.engine, mid, sends);
      (c.(engine := c.engine.(out := p.out, inflight := p.inflight)), p.sent)
    case Pubrec(mid) =>
      (c.(engine := c.engine.(out := Update(c.engine.out, mid, WaitForPubcomp))), [SentPubrel(mid)])
    case Reconnect => (c.(engine := Reset(c.engine)), [])
    case Connack =>
      var r := Retry(c.engine.out);
      (c.(engine := c.engine.(out := r.0)), r.1)
  }

  function Init(max: nat, firstMid: int): Client {
    Client(Engine([], 0, max), firstMid, 0)
  }

  function Run(c: Client, evs: seq<Event>): (r: (Client, seq<Sent>))
    requires IsU16(c.lastMid)
    ensures IsU16(r.0.lastMid)
    decreases |evs|
  {
    if evs == [] then (c, [])
    else
      var s := Step(c, evs[0]);
      var r := Run(s.0, evs[1..]);
      (r.0, s.1 + r.1)
  }
}
