/** The packets of the QoS handshakes that the broker sends: after a takeover, in a write, and for the
  * waiting messages that are put in flight. */
module BrokerAnswers {
  import opened Stores
  import opened BrokerSpec
  import opened BrokerProofs
  import opened BrokerOrder
  import opened BrokerSequence
  import opened BrokerResume
  import opened BrokerReceived
  import opened BrokerEcho

  // ----- one message in a write -----

  /** The packet that takes the handshake on, by the state of the message (section 4.3 of MQTT 3.1.1). */
  function Packet(m: Msg): Sent
    requires Speaks(m.state)
  {
    if m.state == SendPubrec then SentPubrec(m.mid)
    else if m.state == ResendPubrel then SentPubrel(m.mid)
    else if m.state == ResendPubcomp then SentPubcomp(m.mid)
    else SentPublish(m)
  }

  predicate Speaks(state: State) {
    state in {PublishQos0, PublishQos1, PublishQos2, SendPubrec, ResendPubrel, ResendPubcomp}
  }

  /** The message once that packet is sent: it waits for the answer to it. */
  function Spoken(m: Msg): Msg
    requires Speaks(m.state)
  {
    match m.state
    case PublishQos1 => m.(dup := true, state := WaitForPuback)
    case PublishQos2 => m.(dup := true, state := WaitForPubrec)
    case ResendPubrel => m.(state := WaitForPubcomp)
    case PublishQos0 => m
    case _ => m.(state := WaitForPubrel)
  }

  lemma DueIs(m: Msg)
    ensures Due(m) == if Speaks(m.state) then [Packet(m)] else []
    ensures Speaks(m.state) ==> AfterSend(m) == Spoken(m)
  {
  }

  lemma {:induction false} DueSplits(q: seq<Msg>, p: nat)
    requires p < |q|
    ensures DueAll(q) == DueAll(q[..p]) + Due(q[p]) + DueAll(q[p + 1..])
  {
    hide Due;
    if p == 0 {
      assert q[..0] == [];
    } else {
      DueSplits(q[1..], p - 1);
      assert q[..p][0] == q[0] && q[..p][1..] == q[1..][..p - 1] && q[1..][p..] == q[p + 1..];
      assert Due(q[0]) + (DueAll(q[1..][..p - 1]) + Due(q[p]) + DueAll(q[p + 1..])) ==
             DueAll(q[..p]) + Due(q[p]) + DueAll(q[p + 1..]);
    }
  }

  /** A write that gets to a message sends exactly its packet in its turn, and leaves it waiting for the
    * answer; a QoS 0 message is done with. */
  lemma WriteSpeaks(l: Limits, s: Session, sends: nat, p: nat)
    requires s.online && p < |s.inflight| && Speaks(s.inflight[p].state) && Reached(s.inflight, p, sends)
    ensures var o, m, k := Step(l, s, Writing(sends)), s.inflight[p], |DueAll(s.inflight[..p])|;
            && k < |o.sent| && o.sent[k] == Packet(m)
            && (m.state != PublishQos0 ==> Spoken(m) in o.session.inflight)
  {
    hide WriteInflight, WriteRefill, Due, AfterSend, MinusAll;
    var q, m, k := s.inflight, s.inflight[p], |DueAll(s.inflight[..p])|;
    var w := WriteInflight(q, sends);
    WriteSendsFront(q, sends);
    DueSplits(q, p);
    DueIs(m);
    assert DueAll(q)[k] == Packet(m);
    if m.state != PublishQos0 {
      WrittenAt(q, sends, p);
      if w.ok {
        InWriteRefill(l, w.inflight, s.queued, |q|, w.sends, Spoken(m));
      }
    }
  }

  /** A message that has nothing to say, or that the write does not get to, stays as it is. */
  lemma WriteSilent(l: Limits, s: Session, sends: nat, p: nat)
    requires s.online && p < |s.inflight| && !(Speaks(s.inflight[p].state) && Reached(s.inflight, p, sends))
    ensures s.inflight[p] in Step(l, s, Writing(sends)).session.inflight
  {
    hide WriteInflight, WriteRefill, Due, MinusAll, Reached;
    var q, m := s.inflight, s.inflight[p];
    var w := WriteInflight(q, sends);
    DueIs(m);
    WrittenStays(q, sends, p);
    if w.ok {
      InWriteRefill(l, w.inflight, s.queued, |q|, w.sends, m);
    }
  }

  lemma {:induction false} WrittenStays(q: seq<Msg>, sends: nat, p: nat)
    requires p < |q| && (Due(q[p]) == [] || !Reached(q, p, sends))
    ensures q[p] in WriteInflight(q, sends).inflight
    decreases |q|
  {
    hide AfterSend;
    if p == 0 {
      assert q[..0] == [];
    } else if Due(q[0]) == [] || sends > 0 {
      assert q[..p][0] == q[0] && q[..p][1..] == q[1..][..p - 1];
      DuePublishes(q[0], 0);
      WrittenStays(q[1..], if Due(q[0]) == [] then sends else sends - 1, p - 1);
    }
  }

  /** After a write in which no send fails, nothing in its first loop has anything to say. */
  lemma {:induction false} WriteSettles(q: seq<Msg>, sends: nat)
    requires WriteInflight(q, sends).ok
    ensures DueAll(WriteInflight(q, sends).inflight) == []
    decreases |q|
  {
    hide AfterSend, Due;
    if q != [] {
      var left := if Due(q[0]) == [] then sends else sends - 1;
      var w, v := WriteInflight(q, sends), WriteInflight(q[1..], left);
      WriteSettles(q[1..], left);
      SpokenSilent(q[0]);
      if Due(q[0]) != [] && q[0].state == PublishQos0 {
        assert w.inflight == v.inflight;
      } else {
        var n := if Due(q[0]) == [] then q[0] else AfterSend(q[0]);
        assert w.inflight == [n] + v.inflight && w.inflight[1..] == v.inflight;
      }
    }
  }

  lemma SpokenSilent(m: Msg)
    ensures m.state != PublishQos0 && Due(m) != [] ==> Due(AfterSend(m)) == []
  {
  }

  // ----- after a takeover -----

  /** What a message that was in flight makes the broker send when the client is back: an outbound one its
    * PUBREL if the PUBREC had come and the PUBREL was sent, and otherwise PUBLISH; an inbound one what its
    * state asks for. */
  function Resent(m: Msg): seq<Sent> {
    if m.dir == Out then
      if m.qos == 2 && m.state == WaitForPubcomp then [SentPubrel(m.mid)]
      else
        [SentPublish(m.(state := if m.qos == 0 then PublishQos0 else if m.qos == 1 then PublishQos1 else PublishQos2))]
    else if Speaks(m.state) then [Packet(m)]
    else []
  }

  function ResentAll(q: seq<Msg>): seq<Sent> {
    if q == [] then [] else Resent(q[0]) + ResentAll(q[1..])
  }

  lemma ResetDue(m: Msg)
    requires 0 <= m.qos <= 2
    ensures Due(ResetOne(m)) == Resent(m)
  {
    DueIs(ResetOne(m));
  }

  lemma {:induction false} ResetDueAll(q: seq<Msg>)
    requires Proper(q)
    ensures DueAll(ResetInflight(q)) == ResentAll(q)
  {
    hide Due, Resent, ResetOne;
    if q != [] {
      assert ResetInflight(q)[1..] == ResetInflight(q[1..]);
      ResetDue(q[0]);
      ResetDueAll(q[1..]);
    }
  }

  lemma {:induction false} DueAllJoin(a: seq<Msg>, b: seq<Msg>)
    ensures DueAll(a + b) == DueAll(a) + DueAll(b)
  {
    hide Due;
    if a == [] {
      assert a + b == b;
    } else {
      assert (a + b)[1..] == a[1..] + b;
      DueAllJoin(a[1..], b);
    }
  }

  /** Sections 4.4 and 4.6: after a takeover, with enough sends, the next write begins with the packets for the
    * messages that were in flight: for each of them the right one, in their order. */
  lemma OrderedResend(l: Limits, s: Session, sends: nat)
    requires Proper(s.inflight) && sends >= |ResentAll(s.inflight)|
    ensures var sent := Step(l, Step(l, s, Back).session, Writing(sends)).sent;
            ResentAll(s.inflight) <= sent
  {
    hide WriteInflight, WriteRefill, ResetFlight, ResetQueue, MinusAll, Total, Add;
    var t, f := TakeOver(l, s), ResetInflight(s.inflight);
    BackStep(l, s);
    ResetDueAll(s.inflight);
    if s.inflight != [] {
      ResetFlightIs(s.inflight, NONE);
      ResetQueueFront(l, f, s.queued, 0, Add(NONE, Total(s.inflight)));
      var more := t.inflight[|f|..];
      assert t.inflight == f + more;
      DueAllJoin(f, more);
      WriteSendsFront(t.inflight, sends);
      assert ResentAll(s.inflight) <= WriteInflight(t.inflight, sends).sent;
    }
  }

  // ----- a PUBREC or PUBCOMP that is owed -----

  /** The inbound message `x` is in flight in this state. */
  predicate InState(s: Session, x: nat, mid: int, state: State) {
    exists m :: m in s.inflight && Source(m, x, mid) && m.state == state
  }

  /** An inbound message whose answer is owed gets it, once, from the first write that gets to it, and then
    * waits for PUBREL; until then it is owed, unless the message is taken. */
  lemma StepOwes(l: Limits, s: Session, e: Event, x: nat, mid: int, state: State)
    requires Numbered(s) && InState(s, x, mid, state) && state in {SendPubrec, ResendPubcomp}
    ensures var o := Step(l, s, e);
            if Takes(e, mid) then Absent(o.session, x)
            else if Reaches(s, e, x) then
              && InState(o.session, x, mid, WaitForPubrel)
              && exists p :: 0 <= p < |s.inflight| && s.inflight[p].serial == x
                             && |DueAll(s.inflight[..p])| < |o.sent|
                             && o.sent[|DueAll(s.inflight[..p])|] ==
                                if state == SendPubrec then SentPubrec(mid) else SentPubcomp(mid)
            else InState(o.session, x, mid, state)
  {
    hide Step, Numbered, Reached, DueAll;
    var m :| m in s.inflight && Source(m, x, mid) && m.state == state;
    var p :| 0 <= p < |s.inflight| && s.inflight[p] == m;
    NoneTwice(s);
    if Takes(e, mid) {
      TakenGone(l, s, e, m);
    } else {
      FlightStep(l, s, e, p);
      DueIs(m);
      assert Reaches(s, e, x) <==> e.Writing? && s.online && Reached(s.inflight, p, e.sends);
      if Reaches(s, e, x) {
        WriteSpeaks(l, s, e.sends, p);
        assert Source(Spoken(m), x, mid);
      }
    }
  }

  /** Once it waits for PUBREL it says nothing more, until the PUBREL comes. */
  lemma StepWaitsForPubrel(l: Limits, s: Session, e: Event, x: nat, mid: int)
    requires Numbered(s) && InState(s, x, mid, WaitForPubrel)
    ensures var t := Step(l, s, e).session;
            if Takes(e, mid) then Absent(t, x) else InState(t, x, mid, WaitForPubrel)
  {
    hide Step, Numbered, Reached, DueAll;
    var m :| m in s.inflight && Source(m, x, mid) && m.state == WaitForPubrel;
    var p :| 0 <= p < |s.inflight| && s.inflight[p] == m;
    if Takes(e, mid) {
      TakenGone(l, s, e, m);
    } else {
      FlightStep(l, s, e, p);
      NotDue(m);
    }
  }

  /** The PUBREC or PUBCOMP that is owed goes out with the first write that gets to the message, and over the
    * whole run after it the message waits for PUBREL, with nothing due, or is gone. */
  lemma {:induction false} OwedOnce(l: Limits, s: Session, es: seq<Event>, k: nat, x: nat, mid: int, state: State)
    requires Numbered(s) && InState(s, x, mid, state) && state in {SendPubrec, ResendPubcomp} && k <= |es|
    ensures var u := Past(l, s, es, k);
            var spoken := exists j :: 0 <= j < k && Reaches(Past(l, s, es, j), es[j], x);
            || Absent(u, x)
            || (if spoken then InState(u, x, mid, WaitForPubrel) else InState(u, x, mid, state))
    decreases k
  {
    hide Step, Numbered, InState, Absent, Reaches, Past;
    PastStart(l, s, es);
    if k > 0 {
      var i := k - 1;
      var u, e := Past(l, s, es, i), es[i];
      OwedOnce(l, s, es, i, x, mid, state);
      PastNumbered(l, s, es, i);
      PastNext(l, s, es, i);
      if Absent(u, x) {
        StepAbsent(l, u, e, x);
      } else if exists j :: 0 <= j < i && Reaches(Past(l, s, es, j), es[j], x) {
        StepWaitsForPubrel(l, u, e, x, mid);
      } else {
        StepOwes(l, u, e, x, mid, state);
      }
    }
  }

  // ----- waiting messages that are put in flight -----

  /** Messages as they are put in flight: outbound ones to be published, inbound ones answered. */
  function Started(q: seq<Msg>): (r: seq<Msg>)
    ensures |r| == |q|
  {
    seq(|q|, i requires 0 <= i < |q| => StartedOne(q[i]))
  }

  function StartedOne(m: Msg): Msg {
    if m.dir == In then m.(state := WaitForPubrel)
    else m.(state := if m.qos == 0 then PublishQos0 else if m.qos == 1 then PublishQos1 else PublishQos2)
  }

  /** The identifiers of the inbound ones, in order. */
  function InboundIds(q: seq<Msg>): seq<int> {
    if q == [] then [] else (if q[0].dir == In then [q[0].mid] else []) + InboundIds(q[1..])
  }

  /** How many of the waiting messages there are places for, `index` of them being taken. */
  predicate Fill(l: Limits, q: seq<Msg>, index: int, k: nat) {
    && k <= |q|
    && (forall i :: 0 <= i < k ==> Movable(l, q, index, i))
    && (k < |q| ==> !Movable(l, q, index, k))
  }

  /** There is a place for the `i`th one, and it is no stray. */
  predicate Movable(l: Limits, q: seq<Msg>, index: int, i: nat)
    requires i < |q|
  {
    (l.maxInflight == 0 || index + i < l.maxInflight) && (q[i].dir == Out || q[i].qos == 2)
  }

  /** The refill after an acknowledgement moves the waiting messages for which there are places, and no others,
    * and answers each inbound one among them by PUBREC, in order. */
  lemma {:induction false} RefillIs(l: Limits, f: seq<Msg>, q: seq<Msg>, index: int)
    requires forall i :: 0 <= i < |q| ==> 0 <= q[i].qos <= 2
    ensures var r := Refill(l, f, q, index);
            var k := |q| - |r.queued|;
            && k >= 0 && Fill(l, q, index, k)
            && r.queued == q[k..] && r.inflight == f + Started(q[..k]) && r.pubrecs == InboundIds(q[..k])
    decreases |q|
  {
    hide Fill, Started, InboundIds, StartedOne;
    if q == [] || !RoomAt(l, index) || (q[0].dir == In && q[0].qos != 2) {
      FillNone(l, f, q, index);
    } else {
      var m := StartedOne(q[0]);
      StartedIs(q[0]);
      RefillIs(l, f + [m], q[1..], index + 1);
      var k := |q[1..]| - |Refill(l, f + [m], q[1..], index + 1).queued|;
      FillMore(l, q, index, k);
      assert f + [m] + Started(q[1..][..k]) == f + ([m] + Started(q[1..][..k]));
    }
  }

  lemma SliceTail(q: seq<Msg>, k: nat)
    requires k < |q|
    ensures q[1..][k..] == q[k + 1..] && forall i :: 0 <= i < |q| - 1 ==> q[1..][i] == q[i + 1]
  {
  }

  lemma FillNone(l: Limits, f: seq<Msg>, q: seq<Msg>, index: int)
    requires q == [] || (l.maxInflight > 0 && index >= l.maxInflight) || (q[0].dir == In && q[0].qos != 2)
    ensures Fill(l, q, index, 0) && f + Started(q[..0]) == f && InboundIds(q[..0]) == [] && q[0..] == q
  {
  }

  lemma StartedIs(m: Msg)
    requires 0 <= m.qos <= 2
    ensures StartedOne(m) == m.(state := if m.dir == Out then PublishState(m.qos) else WaitForPubrel)
  {
  }

  lemma FillMore(l: Limits, q: seq<Msg>, index: int, k: nat)
    requires q != [] && Fill(l, q[1..], index + 1, k)
    requires (l.maxInflight == 0 || index < l.maxInflight) && !(q[0].dir == In && q[0].qos != 2)
    ensures Fill(l, q, index, k + 1) && q[1..][k..] == q[k + 1..]
    ensures Started(q[..k + 1]) == [StartedOne(q[0])] + Started(q[1..][..k])
    ensures InboundIds(q[..k + 1]) == (if q[0].dir == In then [q[0].mid] else []) + InboundIds(q[1..][..k])
  {
    hide Started, InboundIds, StartedOne;
    FillShift(l, q, index, k);
    StartedMore(q, k);
    SliceTail(q, k);
  }

  lemma FillShift(l: Limits, q: seq<Msg>, index: int, k: nat)
    requires q != [] && Fill(l, q[1..], index + 1, k)
    requires (l.maxInflight == 0 || index < l.maxInflight) && !(q[0].dir == In && q[0].qos != 2)
    ensures Fill(l, q, index, k + 1) && k < |q|
  {
    forall i | 0 < i < |q| ensures Movable(l, q, index, i) == Movable(l, q[1..], index + 1, i - 1) {
    }
  }

  predicate ArePubrecs(sent: seq<Sent>, ids: seq<int>) {
    |sent| == |ids| && forall i :: 0 <= i < |ids| ==> sent[i] == SentPubrec(ids[i])
  }

  /** What the second loop of the writer does: the same, with a PUBREC for each inbound message; if a PUBREC
    * cannot be sent it stops there, and the message is in flight with its PUBREC owed. */
  predicate Topping(l: Limits, f: seq<Msg>, q: seq<Msg>, index: int, sends: nat, r: Topped) {
    var k := |q| - |r.queued|;
    && k >= 0 && r.queued == q[k..]
    && if r.ok then
         && Fill(l, q, index, k) && r.inflight == f + Started(q[..k])
         && ArePubrecs(r.sent, InboundIds(q[..k])) && |r.sent| <= sends
       else
         && k > 0 && q[k - 1].dir == In
         && r.inflight == f + Started(q[..k - 1]) + [q[k - 1].(state := SendPubrec)]
         && ArePubrecs(r.sent, InboundIds(q[..k - 1])) && |r.sent| == sends
  }

  lemma {:induction false} WriteRefillIs(l: Limits, f: seq<Msg>, q: seq<Msg>, index: int, sends: nat)
    requires forall i :: 0 <= i < |q| ==> 0 <= q[i].qos <= 2
    ensures Topping(l, f, q, index, sends, WriteRefill(l, f, q, index, sends))
    decreases |q|
  {
    hide Topping, StartedOne;
    if q == [] || !RoomAt(l, index) || (q[0].dir == In && q[0].qos != 2) {
      ToppingEnds(l, f, q, index, sends);
    } else if q[0].dir == In && sends == 0 {
      ToppingFails(l, f, q, index);
    } else {
      StartedIs(q[0]);
      var m, left := StartedOne(q[0]), if q[0].dir == Out then sends else sends - 1;
      var v := WriteRefill(l, f + [m], q[1..], index + 1, left);
      WriteRefillIs(l, f + [m], q[1..], index + 1, left);
      ToppingMore(l, f, q, index, sends, v);
      assert [] + v.sent == v.sent;
    }
  }

  lemma ToppingEnds(l: Limits, f: seq<Msg>, q: seq<Msg>, index: int, sends: nat)
    requires q == [] || (l.maxInflight > 0 && index >= l.maxInflight) || (q[0].dir == In && q[0].qos != 2)
    ensures Topping(l, f, q, index, sends, Topped(f, q, [], true))
  {
    FillNone(l, f, q, index);
  }

  lemma ToppingFails(l: Limits, f: seq<Msg>, q: seq<Msg>, index: int)
    requires q != [] && q[0].dir == In
    ensures Topping(l, f, q, index, 0, Topped(f + [q[0].(state := SendPubrec)], q[1..], [], false))
  {
    assert f + Started(q[..0]) == f;
  }

  lemma ToppingMore(l: Limits, f: seq<Msg>, q: seq<Msg>, index: int, sends: nat, v: Topped)
    requires q != [] && (l.maxInflight == 0 || index < l.maxInflight) && (q[0].dir == Out || q[0].qos == 2)
    requires q[0].dir == Out || sends > 0
    requires Topping(l, f + [StartedOne(q[0])], q[1..], index + 1, if q[0].dir == Out then sends else sends - 1, v)
    ensures var now := if q[0].dir == In then [SentPubrec(q[0].mid)] else [];
            Topping(l, f, q, index, sends, v.(sent := now + v.sent))
  {
    hide Fill, Started, InboundIds, StartedOne;
    var k, m := |q| - 1 - |v.queued|, StartedOne(q[0]);
    var n := if v.ok then k else k - 1;
    StartedMore(q, n);
    SliceTail(q, k);
    assert f + [m] + Started(q[1..][..n]) == f + ([m] + Started(q[1..][..n]));
    if v.ok {
      FillMore(l, q, index, k);
    }
  }

  lemma StartedMore(q: seq<Msg>, k: nat)
    requires k < |q|
    ensures Started(q[..k + 1]) == [StartedOne(q[0])] + Started(q[1..][..k])
    ensures InboundIds(q[..k + 1]) == (if q[0].dir == In then [q[0].mid] else []) + InboundIds(q[1..][..k])
  {
    var r := q[..k + 1];
    assert r[0] == q[0] && r[1..] == q[1..][..k];
  }

  // ----- how far the queue is refilled -----

  lemma QueueProper(s: Session)
    requires Proper(s.queued)
    ensures forall i :: 0 <= i < |s.queued| ==> 0 <= s.queued[i].qos <= 2
  {
  }

  /** After PUBACK or PUBCOMP the places are counted from the messages left in flight. */
  lemma DeleteFills(l: Limits, s: Session, mid: int)
    requires Proper(s.queued)
    ensures var o := Step(l, s, Deleting(mid));
            var k := |s.queued| - |o.session.queued|;
            && k >= 0 && o.session.queued == s.queued[k..] && Fill(l, s.queued, |o.session.inflight| - k, k)
            && ArePubrecs(o.sent, InboundIds(s.queued[..k]))
  {
    hide Refill, Kept, Dropped, MinusAll, Fill, InboundIds, Started;
    var kept := Kept(s.inflight, mid, Out);
    QueueProper(s);
    RefillIs(l, kept, s.queued, |kept|);
  }

  /** After PUBREL they are counted from those that were in flight before, the message that is released
    * included: its place stays free. */
  lemma ReleaseFills(l: Limits, s: Session, mid: int)
    requires Proper(s.queued)
    ensures var o := Step(l, s, Releasing(mid));
            var k := |s.queued| - |o.session.queued|;
            && k >= 0 && o.session.queued == s.queued[k..] && Fill(l, s.queued, |s.inflight|, k)
            && ArePubrecs(o.sent, InboundIds(s.queued[..k]))
  {
    hide Refill, Kept, Dropped, MinusAll, Fill, InboundIds, Started;
    QueueProper(s);
    RefillIs(l, Kept(s.inflight, mid, In), s.queued, |s.inflight|);
  }

  /** A write in which no send fails counts them from those that were in flight before it, the messages of
    * QoS 0 that it is done with included. */
  lemma WriteFills(l: Limits, s: Session, sends: nat)
    requires s.online && Proper(s.queued) && sends >= |DueAll(s.inflight)| + |s.queued|
    ensures var t := Step(l, s, Writing(sends)).session;
            var k := |s.queued| - |t.queued|;
            k >= 0 && t.queued == s.queued[k..] && Fill(l, s.queued, |s.inflight|, k)
  {
    hide WriteInflight, WriteRefill, MinusAll, Fill, Topping;
    var w := WriteInflight(s.inflight, sends);
    var r := WriteRefill(l, w.inflight, s.queued, |s.inflight|, w.sends);
    QueueProper(s);
    WriteSendsFront(s.inflight, sends);
    WriteRefillIs(l, w.inflight, s.queued, |s.inflight|, w.sends);
    ToppingFull(l, w.inflight, s.queued, |s.inflight|, w.sends, r);
  }

  /** With a send for each waiting message none fails. */
  lemma ToppingFull(l: Limits, f: seq<Msg>, q: seq<Msg>, index: int, sends: nat, r: Topped)
    requires Topping(l, f, q, index, sends, r) && sends >= |q|
    ensures var k := |q| - |r.queued|; k >= 0 && r.queued == q[k..] && Fill(l, q, index, k)
  {
    hide Fill, Started;
    var k := |q| - |r.queued|;
    InboundShort(if r.ok then q[..k] else q[..k - 1]);
  }

  lemma {:induction false} InboundShort(q: seq<Msg>)
    ensures |InboundIds(q)| <= |q|
  {
    if q != [] {
      InboundShort(q[1..]);
    }
  }
}
