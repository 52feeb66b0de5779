/** Properties of every run of the client's outbound engine (sections 4.3, 4.4 and 4.6 of MQTT 3.1.1). */
module ClientProofs {
  import opened PacketIds
  import opened ClientSpec

  // ----- the in-flight window -----

  predicate Typed(m: Message) {
    || (m.pub.qos == 1 && m.state in {Invalid, PublishQos1, WaitForPuback})
    || (m.pub.qos == 2 && m.state in {Invalid, PublishQos2, WaitForPubrec, ResendPubrel, WaitForPubcomp})
  }

  function WindowSize(queued: nat, max: nat): nat {
    if max == 0 || queued < max then queued else max
  }

  /** The messages in flight are exactly the first ones of the queue, as many as the limit allows,
    * and the counter is their number. */
  predicate Window(e: Engine) {
    var w := WindowSize(|e.out|, e.max);
    && e.inflight == w
    && forall i :: 0 <= i < |e.out| ==> Typed(e.out[i]) && (e.out[i].state == Invalid <==> i >= w)
  }

  lemma EnqueueWindow(e: Engine, pub: Pub)
    requires Window(e) && pub.qos in {1, 2}
    ensures Window(Enqueue(e, pub).0)
  {
  }

  /** Past `lead` messages in flight, the promotion loop fills the one free place, if there is a message for it. */
  lemma {:induction false} PromoteLead(q: seq<Message>, lead: nat, inflight: int, max: nat, sends: nat)
    requires lead <= |q| && 0 <= inflight && HasRoom(inflight, max)
    requires forall i :: 0 <= i < lead ==> q[i].state != Invalid
    requires lead < |q| ==> max == inflight + 1 && q[lead].state == Invalid && q[lead].pub.qos > 0
    ensures var p := Promote(q, inflight, max, sends);
            if lead == |q| then p == Promotion(q, inflight, [], true)
            else p == Promotion(q[lead := q[lead].(state := FirstSent(q[lead].pub.qos))], inflight + 1,
                                [SentPublish(q[lead].pub, q[lead].dup)], sends > 0)
    decreases lead
  {
    if lead > 0 {
      PromoteLead(q[1..], lead - 1, inflight, max, sends);
      assert q == [q[0]] + q[1..];
    } else if q != [] {
      var m := q[0].(state := FirstSent(q[0].pub.qos));
      assert q[0 := m] == [m] + q[1..];
      var sent := SentPublish(q[0].pub, q[0].dup);
      assert [sent] + [] == [sent];
    }
  }

  function Without<T>(q: seq<T>, k: nat): (r: seq<T>)
    requires k < |q|
    ensures |r| == |q| - 1
    ensures forall i :: 0 <= i < k ==> r[i] == q[i]
    ensures forall i :: k <= i < |r| ==> r[i] == q[i + 1]
  {
    q[..k] + q[k + 1..]
  }

  /** Acknowledging a message in flight takes it out and starts the first waiting one, if any. */
  lemma RemoveInFlight(e: Engine, mid: int, sends: nat)
    requires Window(e) && Find(e.out, mid) < e.inflight
    ensures var p, q, w := Remove(e, mid, sends), Without(e.out, Find(e.out, mid)), e.inflight;
            if w == |e.out| then p == Promotion(q, w - 1, [], true)
            else p == Promotion(q[w - 1 := q[w - 1].(state := FirstSent(q[w - 1].pub.qos))], w,
                                [SentPublish(q[w - 1].pub, q[w - 1].dup)], sends > 0)
  {
    hide Promote;
    var k := Find(e.out, mid);
    assert Typed(e.out[k]);
    PromoteLead(Without(e.out, k), e.inflight - 1, e.inflight - 1, e.max, sends);
  }

  /** Removing a queued message keeps the window exactly when that message was in flight. */
  lemma RemoveKeepsWindowIff(e: Engine, mid: int, sends: nat)
    requires Window(e) && Find(e.out, mid) < |e.out|
    ensures var p := Remove(e, mid, sends);
            Window(e.(out := p.out, inflight := p.inflight)) <==> e.out[Find(e.out, mid)].state != Invalid
  {
    hide Promote;
    var k, w := Find(e.out, mid), e.inflight;
    var p := Remove(e, mid, sends);
    if k < w {
      RemoveInFlight(e, mid, sends);
    } else {
      assert Typed(e.out[k]);
      PromoteLead(Without(e.out, k), w, w - 1, e.max, sends);
      assert |p.out| == |e.out| - 1;
      if w < |p.out| {
        assert p.out[w].state != Invalid;
      }
    }
  }

  /** PUBREC keeps the window exactly when it names nothing queued or a QoS 2 message in flight. */
  lemma PubrecKeepsWindowIff(e: Engine, mid: int)
    requires Window(e)
    ensures var k := Find(e.out, mid);
            Window(e.(out := Update(e.out, mid, WaitForPubcomp))) <==>
            k == |e.out| || (e.out[k].state != Invalid && e.out[k].pub.qos == 2)
  {
    var k := Find(e.out, mid);
    if k < |e.out| {
      var e' := e.(out := Update(e.out, mid, WaitForPubcomp));
      assert e'.out[k].state == WaitForPubcomp;
      assert Typed(e.out[k]);
      assert Window(e') ==> Typed(e'.out[k]);
    }
  }

  /** Reconnecting keeps what is in flight in flight, and the rest waiting. */
  lemma {:induction false} ResetShape(q: seq<Message>, inflight: nat, max: nat)
    requires forall i :: 0 <= i < |q| ==> q[i].pub.qos > 0
    requires max == 0 || inflight <= max
    ensures var r := ResetFrom(q, inflight, max);
            var w := if max == 0 then |q| else WindowSize(inflight + |q|, max) - inflight;
            && r.1 == inflight + w
            && forall i :: 0 <= i < |q| ==> r.0[i] == q[i].(state := if i < w then ResetState(q[i]) else Invalid)
  {
    if q != [] {
      ResetShape(q[1..], if HasRoom(inflight, max) then inflight + 1 else inflight, max);
    }
  }

  lemma ResetInWindow(e: Engine)
    requires Window(e)
    ensures Window(Reset(e)) && Reset(e).inflight == e.inflight
    ensures forall i :: 0 <= i < |e.out| ==>
              Reset(e).out[i] == if i < e.inflight then e.out[i].(state := ResetState(e.out[i])) else e.out[i]
  {
    forall i | 0 <= i < |e.out| ensures e.out[i].pub.qos > 0 {
      assert Typed(e.out[i]);
    }
    ResetShape(e.out, 0, e.max);
    forall i | 0 <= i < |e.out| ensures Typed(Reset(e).out[i]) {
      assert Typed(e.out[i]);
    }
  }

  // ----- the queue as a sequence of publications -----

  function Pubs(q: seq<Message>): (s: seq<Pub>)
    ensures |s| == |q|
    ensures forall i :: 0 <= i < |q| ==> s[i] == q[i].pub
  {
    seq(|q|, i requires 0 <= i < |q| => q[i].pub)
  }

  /** Index of the first publication with identifier `mid`, or |s|. */
  function FindPub(s: seq<Pub>, mid: int): (k: nat)
    ensures k <= |s|
    ensures forall i :: 0 <= i < k ==> s[i].mid != mid
    ensures k < |s| ==> s[k].mid == mid
  {
    if s == [] || s[0].mid == mid then 0 else 1 + FindPub(s[1..], mid)
  }

  lemma {:induction false} FindPubIsFind(q: seq<Message>, mid: int)
    ensures FindPub(Pubs(q), mid) == Find(q, mid)
  {
    if q != [] {
      assert Pubs(q)[1..] == Pubs(q[1..]);
      FindPubIsFind(q[1..], mid);
    }
  }

  lemma PubsFirst(m: Message, q: seq<Message>)
    ensures Pubs([m] + q) == [m.pub] + Pubs(q)
  {
  }

  lemma {:induction false} PromotePubs(q: seq<Message>, inflight: int, max: nat, sends: nat)
    ensures Pubs(Promote(q, inflight, max, sends).out) == Pubs(q)
  {
    hide Pubs;
    if q != [] && HasRoom(inflight, max) {
      var starts, rest := q[0].pub.qos > 0 && q[0].state == Invalid, q[1..];
      var m := if starts then q[0].(state := FirstSent(q[0].pub.qos)) else q[0];
      assert q == [q[0]] + rest;
      PubsFirst(q[0], rest);
      if starts && sends == 0 {
        PubsFirst(m, rest);
      } else {
        var more, left := if starts then inflight + 1 else inflight, if starts then sends - 1 else sends;
        var r := Promote(rest, more, max, left).out;
        PromotePubs(rest, more, max, left);
        PubsFirst(m, r);
      }
    }
  }

  lemma {:induction false} ResetPubs(q: seq<Message>, inflight: int, max: nat)
    ensures Pubs(ResetFrom(q, inflight, max).0) == Pubs(q)
  {
    if q != [] {
      var n := if HasRoom(inflight, max) && q[0].pub.qos > 0 then inflight + 1 else inflight;
      ResetPubs(q[1..], n, max);
      var p, r := ResetFrom(q, inflight, max).0, ResetFrom(q[1..], n, max).0;
      assert p[1..] == r;
      assert forall i :: 0 <= i < |r| ==> Pubs(r)[i] == Pubs(q[1..])[i];
      assert forall i :: 1 <= i < |p| ==> p[i] == r[i - 1] && Pubs(q)[i] == Pubs(q[1..])[i - 1];
    }
  }

  /** The effect of an event on the queued publications, with no regard to states and windows. */
  function PubStep(s: seq<Pub>, c: Client, ev: Event): seq<Pub>
    requires IsU16(c.lastMid)
  {
    match ev
    case Publish(_, _, _, _) => s + [NextPub(c, ev)]
    case Ack(mid, _, _) => if FindPub(s, mid) == |s| then s else Without(s, FindPub(s, mid))
    case _ => s
  }

  lemma RemovePubs(e: Engine, mid: int, sends: nat)
    ensures var s, k := Pubs(e.out), FindPub(Pubs(e.out), mid);
            Pubs(Remove(e, mid, sends).out) == if k == |s| then s else Without(s, k)
  {
    hide Promote;
    FindPubIsFind(e.out, mid);
    hide Find, FindPub;
    var k := Find(e.out, mid);
    if k < |e.out| {
      var q := Without(e.out, k);
      PromotePubs(q, if e.out[k].pub.qos > 0 then e.inflight - 1 else e.inflight, e.max, sends);
      assert forall i :: 0 <= i < |q| ==> Pubs(q)[i] == Without(Pubs(e.out), k)[i];
    }
  }

  lemma StepPubs(c: Client, ev: Event)
    requires IsU16(c.lastMid)
    ensures Pubs(Step(c, ev).0.engine.out) == PubStep(Pubs(c.engine.out), c, ev)
  {
    hide Remove, ResetFrom;
    var e := c.engine;
    match ev
    case Publish(_, _, _, _) =>
    case Draw =>
    case Ack(mid, _, sends) => RemovePubs(e, mid, sends);
    case Pubrec(mid) =>
    case Reconnect => ResetPubs(e.out, 0, e.max);
    case Connack =>
  }

  // ----- identifiers of queued messages -----

  /** Every queued identifier comes from the generator, in draw order, within one lap of the counter. */
  ghost predicate Generated(s: seq<Pub>, first: int, lastMid: int, draws: nat)
    requires IsU16(first)
  {
    && lastMid == MidAfter(first, draws)
    && (forall i :: 0 <= i < |s| ==> 0 < s[i].serial <= draws && s[i].mid == MidAfter(first, s[i].serial))
    && (forall i, j :: 0 <= i < j < |s| ==> 0 < s[j].serial - s[i].serial < MIDS)
  }

  /** So all queued identifiers differ. */
  lemma MidsDiffer(s: seq<Pub>, first: int, lastMid: int, draws: nat)
    requires IsU16(first) && Generated(s, first, lastMid, draws)
    ensures forall i, j :: 0 <= i < j < |s| ==> s[i].mid != s[j].mid
  {
    forall i, j | 0 <= i < j < |s| ensures s[i].mid != s[j].mid {
      MidsRepeat(first, s[i].serial, s[j].serial);
    }
  }

  // ----- legal runs -----

  /** The oldest queued message is less than a lap of the identifier counter old. */
  predicate Recent(c: Client) {
    c.engine.out == [] || c.draws + 1 - c.engine.out[0].pub.serial < MIDS
  }

  /** `mid`, if it names a queued message, names one in flight with quality of service `qos`. */
  predicate Acknowledges(q: seq<Message>, mid: int, qos: int) {
    forall i :: 0 <= i < |q| && q[i].pub.mid == mid ==> q[i].state != Invalid && q[i].pub.qos == qos
  }

  predicate Legal(c: Client, ev: Event) {
    match ev
    case Publish(qos, _, _, _) => qos in {1, 2} && Recent(c)
    case Ack(mid, qos, _) => Acknowledges(c.engine.out, mid, qos)
    case Pubrec(mid) => Acknowledges(c.engine.out, mid, 2)
    case _ => true
  }

  predicate LegalRun(c: Client, evs: seq<Event>)
    requires IsU16(c.lastMid)
    decreases |evs|
  {
    evs == [] || (Legal(c, evs[0]) && LegalRun(Step(c, evs[0]).0, evs[1..]))
  }

  ghost predicate Inv(c: Client, first: int) {
    && IsU16(first) && IsU16(c.lastMid)
    && Window(c.engine)
    && Generated(Pubs(c.engine.out), first, c.lastMid, c.draws)
  }

  lemma StepWindow(c: Client, first: int, ev: Event)
    requires Inv(c, first) && Legal(c, ev)
    ensures Window(Step(c, ev).0.engine)
  {
    var e := c.engine;
    match ev
    case Publish(_, _, _, _) => EnqueueWindow(e, NextPub(c, ev));
    case Draw =>
    case Ack(mid, _, sends) =>
      if Find(e.out, mid) < |e.out| {
        RemoveKeepsWindowIff(e, mid, sends);
      }
    case Pubrec(mid) => PubrecKeepsWindowIff(e, mid);
    case Reconnect => ResetInWindow(e);
    case Connack =>
      var q := Retry(e.out).0;
      forall i | 0 <= i < |q| ensures Typed(q[i]) && q[i].state == e.out[i].state {
        assert Typed(e.out[i]);
      }
  }

  lemma StepGenerated(c: Client, first: int, ev: Event)
    requires Inv(c, first) && Legal(c, ev)
    ensures var c' := Step(c, ev).0; Generated(Pubs(c'.engine.out), first, c'.lastMid, c'.draws)
  {
    hide Generated, Window;
    var s := Pubs(c.engine.out);
    StepPubs(c, ev);
    if ev.Publish? {
      if s != [] {
        assert s[0] == c.engine.out[0].pub;
      }
      GeneratedAppend(s, first, c.lastMid, c.draws, NextPub(c, ev));
    } else if ev.Draw? {
      GeneratedAppend(s, first, c.lastMid, c.draws, Pub(c.draws + 1, NextMid(c.lastMid), 0, [], [], false));
    } else if ev.Ack? && FindPub(s, ev.mid) < |s| {
      GeneratedWithout(s, first, c.lastMid, c.draws, FindPub(s, ev.mid));
    }
  }

  lemma GeneratedAppend(s: seq<Pub>, first: int, lastMid: int, draws: nat, p: Pub)
    requires IsU16(first) && IsU16(lastMid) && Generated(s, first, lastMid, draws)
    requires p.serial == draws + 1 && p.mid == NextMid(lastMid)
    ensures Generated(s, first, p.mid, p.serial)
    ensures s == [] || p.serial - s[0].serial < MIDS ==> Generated(s + [p], first, p.mid, p.serial)
  {
    hide NextMid;
    assert MidAfter(first, p.serial) == NextMid(MidAfter(first, draws));
    forall i | 0 <= i < |s| ensures s[i].serial - s[0].serial >= 0 {
      if i > 0 {
        assert 0 < s[i].serial - s[0].serial;
      }
    }
  }

  lemma GeneratedWithout(s: seq<Pub>, first: int, lastMid: int, draws: nat, k: nat)
    requires IsU16(first) && Generated(s, first, lastMid, draws) && k < |s|
    ensures Generated(Without(s, k), first, lastMid, draws)
  {
  }

  lemma StepInv(c: Client, first: int, ev: Event)
    requires Inv(c, first) && Legal(c, ev)
    ensures Inv(Step(c, ev).0, first)
  {
    StepWindow(c, first, ev);
    StepGenerated(c, first, ev);
  }

  /** In every reachable state the messages in flight are exactly the first ones of the queue, the
    * counter is their number, and all queued identifiers differ. */
  lemma {:induction false} RunInv(c: Client, first: int, evs: seq<Event>)
    requires Inv(c, first) && LegalRun(c, evs)
    ensures Inv(Run(c, evs).0, first)
    decreases |evs|
  {
    if evs != [] {
      StepInv(c, first, evs[0]);
      RunInv(Step(c, evs[0]).0, first, evs[1..]);
    }
  }

  lemma WindowAlways(max: nat, first: int, evs: seq<Event>)
    requires IsU16(first) && LegalRun(Init(max, first), evs)
    ensures var e := Run(Init(max, first), evs).0.engine;
            && Window(e)
            && forall i, j :: 0 <= i < j < |e.out| ==> e.out[i].pub.mid != e.out[j].pub.mid
  {
    var c := Init(max, first);
    assert Pubs(c.engine.out) == [];
    RunInv(c, first, evs);
    var d := Run(c, evs).0;
    MidsDiffer(Pubs(d.engine.out), first, d.lastMid, d.draws);
    var e := d.engine;
    assert forall i :: 0 <= i < |e.out| ==> Pubs(e.out)[i].mid == e.out[i].pub.mid;
  }

  // ----- once PUBREC has been processed -----

  /** PUBREC has been processed for `m`. */
  predicate Released(m: Message) {
    m.state == WaitForPubcomp || m.state == ResendPubrel
  }

  predicate HasReleased(q: seq<Message>, pub: Pub) {
    exists i :: 0 <= i < |q| && q[i].pub == pub && Released(q[i])
  }

  predicate NoPublish(sent: seq<Sent>, mid: int) {
    forall i :: 0 <= i < |sent| && sent[i].SentPublish? ==> sent[i].pub.mid != mid
  }

  lemma {:induction false} RetrySends(q: seq<Message>, mid: int)
    requires forall i :: 0 <= i < |q| && q[i].pub.mid == mid ==> Released(q[i])
    ensures NoPublish(Retry(q).1, mid)
  {
    if q != [] {
      RetrySends(q[1..], mid);
    }
  }

  lemma RemoveAbsent(e: Engine, mid: int, sends: nat)
    requires Find(e.out, mid) == |e.out|
    ensures Remove(e, mid, sends) == Promotion(e.out, e.inflight, [], true)
  {
  }

  lemma ReleasedThroughRemove(e: Engine, mid: int, sends: nat, i: nat)
    requires Window(e) && i < |e.out| && Released(e.out[i]) && Find(e.out, mid) < e.inflight
    requires forall j, k :: 0 <= j < k < |e.out| ==> e.out[j].pub.mid != e.out[k].pub.mid
    requires e.out[i].pub.mid != mid
    ensures HasReleased(Remove(e, mid, sends).out, e.out[i].pub)
    ensures NoPublish(Remove(e, mid, sends).sent, e.out[i].pub.mid)
  {
    hide Remove;
    RemoveInFlight(e, mid, sends);
    var k := Find(e.out, mid);
    var q, p := Without(e.out, k), Remove(e, mid, sends);
    var j := if i < k then i else i - 1;
    assert i != k && q[j] == e.out[i] && j < e.inflight - 1;
    assert p.out[j] == q[j];
    if e.inflight < |e.out| {
      assert q[e.inflight - 1] == e.out[e.inflight];
    }
  }

  /** One step keeps a released message released and sends no PUBLISH for it, unless it acknowledges it. */
  lemma StepReleased(c: Client, first: int, ev: Event, pub: Pub)
    requires Inv(c, first) && Legal(c, ev) && HasReleased(c.engine.out, pub)
    requires ev.Ack? ==> ev.mid != pub.mid
    ensures HasReleased(Step(c, ev).0.engine.out, pub)
    ensures NoPublish(Step(c, ev).1, pub.mid)
  {
    hide Window, Generated, Remove, Reset, Retry, Update;
    var q := c.engine.out;
    var i :| 0 <= i < |q| && q[i].pub == pub && Released(q[i]);
    InFlightDistinct(c, first, i);
    match ev
    case Publish(_, _, _, _) => PublishReleased(c, first, ev, i);
    case Draw =>
    case Ack(mid, _, sends) =>
      if Find(q, mid) < |q| {
        ReleasedThroughRemove(c.engine, mid, sends, i);
      } else {
        RemoveAbsent(c.engine, mid, sends);
      }
    case Pubrec(mid) => UpdateReleased(q, mid, i);
    case Reconnect =>
      ResetInWindow(c.engine);
      assert Reset(c.engine).out[i].pub == pub;
    case Connack => RetryReleased(q, i);
  }

  lemma UpdateReleased(q: seq<Message>, mid: int, i: nat)
    requires i < |q| && Released(q[i])
    ensures HasReleased(Update(q, mid, WaitForPubcomp), q[i].pub)
  {
    assert Update(q, mid, WaitForPubcomp)[i].pub == q[i].pub;
  }

  lemma RetryReleased(q: seq<Message>, i: nat)
    requires i < |q| && Released(q[i])
    requires forall j, k :: 0 <= j < k < |q| ==> q[j].pub.mid != q[k].pub.mid
    ensures HasReleased(Retry(q).0, q[i].pub) && NoPublish(Retry(q).1, q[i].pub.mid)
  {
    RetrySends(q, q[i].pub.mid);
    assert Retry(q).0[i].pub == q[i].pub;
  }

  lemma InFlightDistinct(c: Client, first: int, i: nat)
    requires Inv(c, first) && i < |c.engine.out| && Released(c.engine.out[i])
    ensures i < c.engine.inflight && c.engine.out[i].pub.qos == 2
    ensures forall k :: 0 <= k < |c.engine.out| && c.engine.out[k].state != Invalid ==> k < c.engine.inflight
    ensures forall j, k :: 0 <= j < k < |c.engine.out| ==> c.engine.out[j].pub.mid != c.engine.out[k].pub.mid
  {
    var q := c.engine.out;
    MidsDiffer(Pubs(q), first, c.lastMid, c.draws);
    assert forall j :: 0 <= j < |q| ==> Pubs(q)[j].mid == q[j].pub.mid;
    assert Typed(q[i]);
  }

  lemma PublishReleased(c: Client, first: int, ev: Event, i: nat)
    requires Inv(c, first) && ev.Publish? && Legal(c, ev) && i < |c.engine.out| && Released(c.engine.out[i])
    ensures HasReleased(Step(c, ev).0.engine.out, c.engine.out[i].pub)
    ensures NoPublish(Step(c, ev).1, c.engine.out[i].pub.mid)
  {
    hide Window;
    var q, p := c.engine.out, NextPub(c, ev);
    var c' := Step(c, ev).0;
    StepGenerated(c, first, ev);
    StepPubs(c, ev);
    MidsDiffer(Pubs(c'.engine.out), first, c'.lastMid, c'.draws);
    assert Pubs(c'.engine.out)[i] == q[i].pub && Pubs(c'.engine.out)[|q|] == p;
    assert c'.engine.out[i] == q[i];
  }

  lemma NoPublishAppend(a: seq<Sent>, b: seq<Sent>, mid: int)
    requires NoPublish(a, mid) && NoPublish(b, mid)
    ensures NoPublish(a + b, mid)
  {
  }

  predicate NeverAcknowledged(evs: seq<Event>, mid: int) {
    forall i :: 0 <= i < |evs| && evs[i].Ack? ==> evs[i].mid != mid
  }

  lemma {:induction false} RunReleased(c: Client, first: int, evs: seq<Event>, pub: Pub)
    requires Inv(c, first) && LegalRun(c, evs) && HasReleased(c.engine.out, pub)
    requires NeverAcknowledged(evs, pub.mid)
    ensures HasReleased(Run(c, evs).0.engine.out, pub)
    ensures NoPublish(Run(c, evs).1, pub.mid)
    decreases |evs|
  {
    if evs != [] {
      StepReleased(c, first, evs[0], pub);
      StepInv(c, first, evs[0]);
      var d := Step(c, evs[0]).0;
      RunReleased(d, first, evs[1..], pub);
      NoPublishAppend(Step(c, evs[0]).1, Run(d, evs[1..]).1, pub.mid);
    }
  }

  lemma {:induction false} LegalRunSplits(c: Client, a: seq<Event>, b: seq<Event>)
    requires IsU16(c.lastMid) && LegalRun(c, a + b)
    ensures LegalRun(c, a) && LegalRun(Run(c, a).0, b)
    decreases |a|
  {
    if a == [] {
      assert a + b == b;
    } else {
      assert (a + b)[1..] == a[1..] + b;
      LegalRunSplits(Step(c, a[0]).0, a[1..], b);
    }
  }

  /** Section 4.3.3: after PUBREC for a QoS 2 message, through any reconnects and retries, the client
    * sends no PUBLISH with its identifier and keeps the message for PUBREL until it is acknowledged. */
  lemma NoPublishAfterPubrec(max: nat, first: int, before: seq<Event>, mid: int, after: seq<Event>)
    requires IsU16(first)
    requires LegalRun(Init(max, first), before + [Pubrec(mid)] + after)
    requires Find(Run(Init(max, first), before).0.engine.out, mid) < |Run(Init(max, first), before).0.engine.out|
    requires NeverAcknowledged(after, mid)
    ensures var q := Run(Init(max, first), before).0.engine.out;
            var d := Step(Run(Init(max, first), before).0, Pubrec(mid)).0;
            && Step(Run(Init(max, first), before).0, Pubrec(mid)).1 == [SentPubrel(mid)]
            && NoPublish(Run(d, after).1, mid)
            && HasReleased(Run(d, after).0.engine.out, q[Find(q, mid)].pub)
  {
    var c0 := Init(max, first);
    assert Pubs(c0.engine.out) == [];
    LegalRunSplits(c0, before + [Pubrec(mid)], after);
    LegalRunSplits(c0, before, [Pubrec(mid)]);
    RunInv(c0, first, before);
    var c := Run(c0, before).0;
    StepInv(c, first, Pubrec(mid));
    var d := Step(c, Pubrec(mid)).0;
    RunAppend(c0, before, [Pubrec(mid)]);
    assert Run(c, [Pubrec(mid)]).0 == d by {
      assert Run(d, []).0 == d;
    }
    var q := c.engine.out;
    var k := Find(q, mid);
    assert d.engine.out[k].pub == q[k].pub && Released(d.engine.out[k]);
    RunReleased(d, first, after, q[k].pub);
  }

  lemma {:induction false} RunAppend(c: Client, a: seq<Event>, b: seq<Event>)
    requires IsU16(c.lastMid)
    ensures Run(c, a + b).0 == Run(Run(c, a).0, b).0
    ensures Run(c, a + b).1 == Run(c, a).1 + Run(Run(c, a).0, b).1
    decreases |a|
  {
    hide Step;
    if a == [] {
      assert a + b == b;
    } else {
      assert (a + b)[1..] == a[1..] + b;
      RunAppend(Step(c, a[0]).0, a[1..], b);
    }
  }

  // ----- resending after a reconnect -----

  /** The packet section 4.4 asks for: PUBREL if PUBREC was seen, PUBLISH with DUP set otherwise. */
  function ResendOf(m: Message): Sent {
    if Released(m) then SentPubrel(m.pub.mid) else SentPublish(m.pub, true)
  }

  /** If the first `w` messages need one packet each and the others none, the retry sends those packets in order. */
  lemma {:induction false} RetryInOrder(q: seq<Message>, w: nat)
    requires w <= |q|
    requires forall i :: 0 <= i < w ==> |Resend(q[i])| == 1
    requires forall i :: w <= i < |q| ==> Resend(q[i]) == []
    ensures |Retry(q).1| == w
    ensures forall i :: 0 <= i < w ==> Retry(q).1[i] == Resend(q[i])[0]
    decreases |q|
  {
    if q != [] {
      RetryInOrder(q[1..], if w > 0 then w - 1 else 0);
      assert forall i :: 1 <= i < |q| ==> q[i] == q[1..][i - 1];
    }
  }

  predicate OnlyPublishes(evs: seq<Event>) {
    forall i :: 0 <= i < |evs| ==> evs[i].Publish? || evs[i].Draw?
  }

  /** Publishing only appends messages that a retry has nothing to send for. */
  lemma {:induction false} PublishesAppend(c: Client, evs: seq<Event>)
    requires IsU16(c.lastMid) && OnlyPublishes(evs)
    ensures var q := Run(c, evs).0.engine.out;
            && |c.engine.out| <= |q|
            && (forall i :: 0 <= i < |c.engine.out| ==> q[i] == c.engine.out[i])
            && (forall i :: |c.engine.out| <= i < |q| ==> Resend(q[i]) == [])
    decreases |evs|
  {
    if evs != [] {
      var d := Step(c, evs[0]).0;
      PublishesAppend(d, evs[1..]);
      var q, p := Run(c, evs).0.engine.out, d.engine.out;
      assert forall i :: 0 <= i < |c.engine.out| ==> p[i] == c.engine.out[i];
      assert forall i :: |c.engine.out| <= i < |p| ==> Resend(p[i]) == [] && q[i] == p[i];
    }
  }

  /** Sections 4.4 and 4.6: after a reconnect, whatever is published before the CONNACK, the retry
    * sends exactly one packet per message that was in flight, in queue order. */
  lemma OrderedResend(c: Client, first: int, evs: seq<Event>)
    requires Inv(c, first) && OnlyPublishes(evs)
    ensures var d := Run(Step(c, Reconnect).0, evs).0;
            var sent := Step(d, Connack).1;
            && |sent| == c.engine.inflight
            && forall i :: 0 <= i < |sent| ==> sent[i] == ResendOf(c.engine.out[i])
  {
    hide Run, Retry;
    var e := c.engine;
    ResetInWindow(e);
    var c' := Step(c, Reconnect).0;
    PublishesAppend(c', evs);
    var d := Run(c', evs).0;
    var q, r := d.engine.out, c'.engine.out;
    forall i | 0 <= i < |e.out|
      ensures if i < e.inflight then Resend(q[i]) == [ResendOf(e.out[i])] else Resend(q[i]) == []
    {
      assert Typed(e.out[i]) && q[i] == r[i];
    }
    RetryInOrder(q, e.inflight);
  }

  // ----- nothing is lost -----

  /** Accepted publications in order, and the serial numbers of the completed ones. */
  datatype Ledger = Ledger(accepted: seq<Pub>, completed: set<nat>)

  function Outstanding(l: Ledger): seq<Pub> {
    Pending(l.accepted, l.completed)
  }

  function Pending(accepted: seq<Pub>, completed: set<nat>): seq<Pub> {
    if accepted == [] then []
    else (if accepted[0].serial in completed then [] else [accepted[0]]) + Pending(accepted[1..], completed)
  }

  /** An accepted call enters the ledger; an acknowledgement completes the oldest outstanding
    * publication with its identifier. */
  function LedgerStep(l: Ledger, c: Client, ev: Event): Ledger
    requires IsU16(c.lastMid)
  {
    match ev
    case Publish(_, _, _, _) => l.(accepted := l.accepted + [NextPub(c, ev)])
    case Ack(mid, _, _) =>
      var o := Outstanding(l);
      if FindPub(o, mid) == |o| then l else l.(completed := l.completed + {o[FindPub(o, mid)].serial})
    case _ => l
  }

  function LedgerRun(l: Ledger, c: Client, evs: seq<Event>): Ledger
    requires IsU16(c.lastMid)
    decreases |evs|
  {
    if evs == [] then l else LedgerRun(LedgerStep(l, c, evs[0]), Step(c, evs[0]).0, evs[1..])
  }

  ghost predicate Booked(l: Ledger, draws: nat) {
    && (forall i, j :: 0 <= i < j < |l.accepted| ==> l.accepted[i].serial < l.accepted[j].serial)
    && (forall i :: 0 <= i < |l.accepted| ==> l.accepted[i].serial <= draws)
    && (forall n :: n in l.completed ==> n <= draws)
  }

  lemma {:induction false} PendingAppend(a: seq<Pub>, p: Pub, done: set<nat>)
    requires p.serial !in done
    ensures Pending(a + [p], done) == Pending(a, done) + [p]
  {
    if a == [] {
      assert [p][1..] == [];
    } else {
      assert (a + [p])[1..] == a[1..] + [p];
      PendingAppend(a[1..], p, done);
    }
  }

  lemma PendingFirst(a: seq<Pub>, done: set<nat>)
    requires a != []
    ensures Pending(a, done) ==
            if a[0].serial in done then Pending(a[1..], done) else [a[0]] + Pending(a[1..], done)
  {
  }

  /** Completing the `k`th pending publication takes just that one out. */
  lemma {:induction false} PendingWithout(a: seq<Pub>, done: set<nat>, k: nat)
    requires k < |Pending(a, done)|
    requires forall i, j :: 0 <= i < j < |a| ==> a[i].serial < a[j].serial
    ensures Pending(a, done + {Pending(a, done)[k].serial}) == Without(Pending(a, done), k)
  {
    hide Pending, Without;
    PendingFrom(a, done);
    assert Pending(a, done)[k] in a;
    var n, rest := Pending(a, done)[k].serial, a[1..];
    var t := Pending(rest, done);
    PendingFirst(a, done);
    PendingFirst(a, done + {n});
    if a[0].serial in done {
      PendingWithout(rest, done, k);
    } else if k == 0 {
      PendingUnaffected(rest, done, n);
      WithoutFirst(a[0], t, 0);
    } else {
      PendingFrom(rest, done);
      assert t[k - 1] in rest;
      PendingWithout(rest, done, k - 1);
      WithoutFirst(a[0], t, k);
    }
  }

  lemma WithoutFirst(p: Pub, t: seq<Pub>, k: nat)
    requires k <= |t|
    ensures Without([p] + t, k) == if k == 0 then t else [p] + Without(t, k - 1)
  {
  }

  lemma {:induction false} PendingFrom(a: seq<Pub>, done: set<nat>)
    ensures forall p :: p in Pending(a, done) ==> p in a
  {
    if a != [] {
      PendingFrom(a[1..], done);
    }
  }

  lemma {:induction false} PendingUnaffected(a: seq<Pub>, done: set<nat>, n: nat)
    requires forall i :: 0 <= i < |a| ==> a[i].serial != n
    ensures Pending(a, done + {n}) == Pending(a, done)
  {
    if a != [] {
      PendingUnaffected(a[1..], done, n);
    }
  }

  lemma LedgerStepQueue(l: Ledger, c: Client, ev: Event)
    requires IsU16(c.lastMid) && Booked(l, c.draws) && Pubs(c.engine.out) == Outstanding(l)
    ensures Booked(LedgerStep(l, c, ev), Step(c, ev).0.draws)
    ensures Pubs(Step(c, ev).0.engine.out) == Outstanding(LedgerStep(l, c, ev))
  {
    StepPubs(c, ev);
    hide Step, Pending;
    if ev.Publish? {
      PendingAppend(l.accepted, NextPub(c, ev), l.completed);
    } else if ev.Ack? && FindPub(Outstanding(l), ev.mid) < |Outstanding(l)| {
      var k := FindPub(Outstanding(l), ev.mid);
      PendingWithout(l.accepted, l.completed, k);
      PendingFrom(l.accepted, l.completed);
      assert Outstanding(l)[k] in l.accepted;
    }
  }

  /** Through any run, legal or not, the queue holds the accepted publications that are not
    * completed yet, in the order they were accepted. */
  lemma {:induction false} NothingLost(l: Ledger, c: Client, evs: seq<Event>)
    requires IsU16(c.lastMid) && Booked(l, c.draws) && Pubs(c.engine.out) == Outstanding(l)
    ensures Pubs(Run(c, evs).0.engine.out) == Outstanding(LedgerRun(l, c, evs))
    decreases |evs|
  {
    if evs != [] {
      LedgerStepQueue(l, c, evs[0]);
      NothingLost(LedgerStep(l, c, evs[0]), Step(c, evs[0]).0, evs[1..]);
    }
  }
}
