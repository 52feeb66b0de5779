/** What the client puts on the wire for the publications of its application, over every legal run. */
module ClientWire {
  import opened PacketIds
  import opened ClientSpec
  import opened ClientProofs

  // ----- what was asked for -----

  /** The accepted calls of a run with the identifiers that they draw, `draws` having been drawn before. */
  function Calls(evs: seq<Event>, first: int, draws: nat): seq<Pub>
    requires IsU16(first)
  {
    if evs == [] then []
    else
      var next := if evs[0].Publish? || evs[0].Draw? then draws + 1 else draws;
      CallOf(evs[0], first, draws) + Calls(evs[1..], first, next)
  }

  function CallOf(ev: Event, first: int, draws: nat): seq<Pub>
    requires IsU16(first)
  {
    match ev
    case Publish(qos, topic, payload, retain) =>
      [Pub(draws + 1, MidAfter(first, draws + 1), qos, topic, payload, retain)]
    case _ => []
  }

  /** What a sequence of packets publishes for the first time. */
  function Firsts(sent: seq<Sent>): seq<Pub> {
    if sent == [] then [] else FirstOf(sent[0]) + Firsts(sent[1..])
  }

  function FirstOf(p: Sent): seq<Pub> {
    if p.SentPublish? && !p.dup then [p.pub] else []
  }

  lemma {:induction false} FirstsJoin(a: seq<Sent>, b: seq<Sent>)
    ensures Firsts(a + b) == Firsts(a) + Firsts(b)
  {
    hide FirstOf;
    if a == [] {
      assert a + b == b;
    } else {
      assert (a + b)[1..] == a[1..] + b;
      FirstsJoin(a[1..], b);
    }
  }

  lemma FirstsOne(p: Sent)
    ensures Firsts([p]) == FirstOf(p) && Firsts([]) == []
  {
    assert [p][1..] == [];
  }

  lemma {:induction false} NoFirsts(sent: seq<Sent>)
    requires forall i :: 0 <= i < |sent| ==> FirstOf(sent[i]) == []
    ensures Firsts(sent) == []
  {
    if sent != [] {
      NoFirsts(sent[1..]);
    }
  }

  lemma {:induction false} FirstIn(sent: seq<Sent>, p: Pub)
    ensures p in Firsts(sent) <==> SentPublish(p, false) in sent
  {
    if sent != [] {
      FirstIn(sent[1..], p);
      assert sent == [sent[0]] + sent[1..];
    }
  }

  /** The publications beyond the window. */
  function Waiting(e: Engine): seq<Pub> {
    Pubs(e.out[WindowSize(|e.out|, e.max)..])
  }

  /** Nothing beyond the window was ever sent. */
  predicate Unsent(e: Engine) {
    forall i :: WindowSize(|e.out|, e.max) <= i < |e.out| ==> !e.out[i].dup
  }

  // ----- one step -----

  /** A call sends its PUBLISH at once if fewer messages than the limit are queued, and nothing otherwise:
    * with the fields of the call, the next identifier, and DUP not set (section 3.3.1.1). */
  lemma CallSends(c: Client, first: int, ev: Event)
    requires Inv(c, first) && ev.Publish?
    ensures var n := c.draws + 1;
            Step(c, ev).1 ==
            if c.engine.max == 0 || |c.engine.out| < c.engine.max then
              [SentPublish(Pub(n, MidAfter(first, n), ev.qos, ev.topic, ev.payload, ev.retain), false)]
            else []
  {
    hide Pubs;
  }

  lemma PublishFirsts(c: Client, first: int, ev: Event)
    requires Inv(c, first) && Unsent(c.engine) && ev.Publish? && Legal(c, ev)
    ensures var r := Step(c, ev);
            && Firsts(r.1) + Waiting(r.0.engine) == Waiting(c.engine) + CallOf(ev, first, c.draws)
            && Unsent(r.0.engine)
  {
    var e, d, p := c.engine, Step(c, ev).0.engine, NextPub(c, ev);
    CallSends(c, first, ev);
    assert [p] == CallOf(ev, first, c.draws);
    FirstsOne(SentPublish(p, false));
    var w := WindowSize(|d.out|, d.max);
    if HasRoom(e.inflight, e.max) {
      assert d.out[w..] == [] && e.out[|e.out|..] == [];
    } else {
      assert d.out[w..] == e.out[w..] + [Message(p, Invalid, false)];
    }
  }

  lemma AckFirsts(c: Client, first: int, mid: int, qos: int, sends: nat)
    requires Inv(c, first) && Unsent(c.engine) && Legal(c, Ack(mid, qos, sends))
    ensures var r := Step(c, Ack(mid, qos, sends));
            Firsts(r.1) + Waiting(r.0.engine) == Waiting(c.engine) && Unsent(r.0.engine)
  {
    hide Remove, Generated, Waiting, Unsent, Typed;
    var e, r := c.engine, Step(c, Ack(mid, qos, sends));
    var k, w, d := Find(e.out, mid), e.inflight, r.0.engine;
    NoFirsts([]);
    if k == |e.out| {
      RemoveAbsent(e, mid, sends);
      assert [] + Waiting(e) == Waiting(e);
    } else {
      RemoveInFlight(e, mid, sends);
      OneLess(e, d, k);
      if w < |e.out| {
        WaitingFirst(e, Without(e.out, k), k);
        FirstsOne(SentPublish(e.out[w].pub, e.out[w].dup));
      }
    }
  }

  lemma WaitingFirst(e: Engine, q: seq<Message>, k: nat)
    requires Unsent(e) && k < WindowSize(|e.out|, e.max) < |e.out| && q == Without(e.out, k)
    ensures var w := WindowSize(|e.out|, e.max); q[w - 1] == e.out[w] && !e.out[w].dup
  {
  }

  /** A message in flight is gone: the first one beyond the window has come into it. */
  lemma OneLess(e: Engine, d: Engine, k: nat)
    requires Unsent(e) && k < WindowSize(|e.out|, e.max) && |d.out| == |e.out| - 1 && d.max == e.max
    requires forall i :: WindowSize(|e.out|, e.max) <= i < |d.out| ==> d.out[i] == e.out[i + 1]
    ensures Unsent(d)
    ensures var w := WindowSize(|e.out|, e.max);
            Waiting(e) == (if w < |e.out| then [e.out[w].pub] else []) + Waiting(d)
  {
    var w := WindowSize(|e.out|, e.max);
    if w < |e.out| {
      assert e.out[w..] == [e.out[w]] + e.out[w + 1..];
      assert d.out[w..] == e.out[w + 1..];
      PubsFirst(e.out[w], e.out[w + 1..]);
    } else {
      assert w == |e.out|;
      assert e.out[w..] == [];
      assert d.out[|d.out|..] == [];
      assert Waiting(d) == [] && Waiting(e) == [];
    }
  }

  /** The other steps start nothing. */
  lemma QuietFirsts(c: Client, first: int, ev: Event)
    requires Inv(c, first) && Unsent(c.engine) && Legal(c, ev) && !ev.Publish? && !ev.Ack?
    ensures var r := Step(c, ev);
            Firsts(r.1) == [] && Waiting(r.0.engine) == Waiting(c.engine) && Unsent(r.0.engine)
  {
    hide ResetFrom;
    var e, r := c.engine, Step(c, ev);
    var w := WindowSize(|e.out|, e.max);
    FirstsOne(SentPubrel(0));
    match ev
    case Draw =>
    case Pubrec(mid) =>
      FirstsOne(SentPubrel(mid));
      SameBeyond(e, r.0.engine);
    case Reconnect =>
      ResetInWindow(e);
      SameBeyond(e, r.0.engine);
    case Connack =>
      RetryNoFirsts(e.out);
      SameBeyond(e, r.0.engine);
  }

  lemma SameBeyond(e: Engine, d: Engine)
    requires Unsent(e) && |d.out| == |e.out| && d.max == e.max
    requires forall i :: WindowSize(|e.out|, e.max) <= i < |e.out| ==>
               d.out[i].pub == e.out[i].pub && d.out[i].dup == e.out[i].dup
    ensures Unsent(d) && Waiting(d) == Waiting(e)
  {
  }

  lemma {:induction false} RetryNoFirsts(q: seq<Message>)
    ensures Firsts(Retry(q).1) == []
  {
    if q == [] {
      NoFirsts([]);
    } else {
      RetryNoFirsts(q[1..]);
      NoFirsts(Resend(q[0]));
      FirstsJoin(Resend(q[0]), Retry(q[1..]).1);
    }
  }

  lemma StepFirsts(c: Client, first: int, ev: Event)
    requires Inv(c, first) && Unsent(c.engine) && Legal(c, ev)
    ensures var r := Step(c, ev);
            && Firsts(r.1) + Waiting(r.0.engine) == Waiting(c.engine) + CallOf(ev, first, c.draws)
            && Unsent(r.0.engine)
  {
    hide Step, Waiting, Unsent, Firsts, Inv;
    var w := Waiting(c.engine);
    assert w + [] == w && [] + w == w;
    if ev.Publish? {
      PublishFirsts(c, first, ev);
    } else if ev.Ack? {
      AckFirsts(c, first, ev.mid, ev.qos, ev.sends);
    } else {
      QuietFirsts(c, first, ev);
    }
  }

  lemma StepDraws(c: Client, ev: Event)
    requires IsU16(c.lastMid)
    ensures Step(c, ev).0.draws == if ev.Publish? || ev.Draw? then c.draws + 1 else c.draws
  {
    hide Remove, Reset, Retry, Enqueue;
  }

  // ----- every run -----

  /** Over every legal run: what was sent for the first time, then what is beyond the window, is what was
    * beyond it before, then what was called for, with the fields and in the order of the calls. */
  lemma {:induction false} RunFirsts(c: Client, first: int, evs: seq<Event>)
    requires Inv(c, first) && Unsent(c.engine) && LegalRun(c, evs)
    ensures var r := Run(c, evs);
            && Firsts(r.1) + Waiting(r.0.engine) == Waiting(c.engine) + Calls(evs, first, c.draws)
            && Unsent(r.0.engine)
    decreases |evs|
  {
    hide Step, Waiting, Unsent, Firsts, CallOf, Inv, Legal;
    if evs == [] {
      NoFirsts([]);
      InvU16(c, first);
      assert Waiting(c.engine) + [] == Waiting(c.engine);
    } else {
      InvU16(c, first);
      var s := Step(c, evs[0]);
      StepInv(c, first, evs[0]);
      StepFirsts(c, first, evs[0]);
      StepDraws(c, evs[0]);
      RunFirsts(s.0, first, evs[1..]);
      var r := Run(s.0, evs[1..]);
      FirstsJoin(s.1, r.1);
      Regroup(Firsts(s.1), Firsts(r.1), Waiting(r.0.engine), Waiting(s.0.engine), Waiting(c.engine),
              CallOf(evs[0], first, c.draws), Calls(evs[1..], first, s.0.draws));
    }
  }

  lemma InvU16(c: Client, first: int)
    requires Inv(c, first)
    ensures IsU16(c.lastMid) && IsU16(first)
  {
  }

  lemma Regroup<T>(a: seq<T>, b: seq<T>, w: seq<T>, v: seq<T>, u: seq<T>, x: seq<T>, y: seq<T>)
    requires b + w == v + y && a + v == u + x
    ensures (a + b) + w == u + (x + y)
  {
    assert (a + b) + w == a + (b + w) == (a + v) + y == u + (x + y);
  }

  // ----- repetitions -----

  /** All that is in flight is among `f`. */
  predicate Started(e: Engine, f: seq<Pub>) {
    forall i :: 0 <= i < |e.out| && i < WindowSize(|e.out|, e.max) ==> e.out[i].pub in f
  }

  /** Every PUBLISH with DUP set is for one of `f`. */
  predicate Repeats(sent: seq<Sent>, f: seq<Pub>) {
    forall i :: 0 <= i < |sent| && sent[i].SentPublish? && sent[i].dup ==> sent[i].pub in f
  }

  lemma {:induction false} RetryRepeats(q: seq<Message>, f: seq<Pub>)
    requires forall i :: 0 <= i < |q| && q[i].state != Invalid ==> q[i].pub in f
    ensures Repeats(Retry(q).1, f)
  {
    if q != [] {
      RetryRepeats(q[1..], f);
    }
  }

  lemma StartedMore(e: Engine, d: Engine, f: seq<Pub>, g: seq<Pub>)
    requires Started(e, f) && d.max == e.max && |d.out| == |e.out|
    requires forall i :: 0 <= i < |e.out| ==> d.out[i].pub == e.out[i].pub
    ensures Started(d, f + g)
  {
  }

  lemma StepRepeats(c: Client, first: int, ev: Event, f: seq<Pub>)
    requires Inv(c, first) && Unsent(c.engine) && Legal(c, ev) && Started(c.engine, f)
    ensures var r := Step(c, ev); Started(r.0.engine, f + Firsts(r.1)) && Repeats(r.1, f)
  {
    hide Generated, Remove, ResetFrom, Firsts, Unsent, Started;
    var e, r := c.engine, Step(c, ev);
    var g := Firsts(r.1);
    match ev
    case Publish(_, _, _, _) => PublishRepeats(c, first, ev, f);
    case Draw => StartedMore(e, e, f, g);
    case Ack(mid, qos, sends) => AckRepeats(c, first, mid, qos, sends, f);
    case Pubrec(mid) => StartedMore(e, r.0.engine, f, g);
    case Reconnect =>
      ResetInWindow(e);
      StartedMore(e, r.0.engine, f, g);
    case Connack =>
      FlightStarted(e, f);
      RetryRepeats(e.out, f);
      StartedMore(e, r.0.engine, f, g);
  }

  lemma FlightStarted(e: Engine, f: seq<Pub>)
    requires Window(e) && Started(e, f)
    ensures forall i :: 0 <= i < |e.out| && e.out[i].state != Invalid ==> e.out[i].pub in f
  {
    hide Typed;
  }

  lemma PublishRepeats(c: Client, first: int, ev: Event, f: seq<Pub>)
    requires Inv(c, first) && ev.Publish? && Legal(c, ev) && Started(c.engine, f)
    ensures var r := Step(c, ev); Started(r.0.engine, f + Firsts(r.1)) && Repeats(r.1, f)
  {
    hide Generated, Typed;
    FirstsOne(SentPublish(NextPub(c, ev), false));
  }

  lemma AckRepeats(c: Client, first: int, mid: int, qos: int, sends: nat, f: seq<Pub>)
    requires Inv(c, first) && Unsent(c.engine) && Legal(c, Ack(mid, qos, sends)) && Started(c.engine, f)
    ensures var r := Step(c, Ack(mid, qos, sends)); Started(r.0.engine, f + Firsts(r.1)) && Repeats(r.1, f)
  {
    hide Remove, Generated, Typed, Firsts, Waiting;
    var e, r := c.engine, Step(c, Ack(mid, qos, sends));
    var k, w, d := Find(e.out, mid), e.inflight, r.0.engine;
    if k == |e.out| {
      RemoveAbsent(e, mid, sends);
    } else {
      RemoveInFlight(e, mid, sends);
      if w < |e.out| {
        WaitingFirst(e, Without(e.out, k), k);
        FirstsOne(SentPublish(e.out[w].pub, false));
        assert Firsts(r.1) == [e.out[w].pub];
      }
      forall i | 0 <= i < |d.out| && i < WindowSize(|d.out|, d.max) ensures d.out[i].pub in f + Firsts(r.1) {
        if i < w - 1 {
          assert d.out[i] == e.out[if i < k then i else i + 1];
        } else {
          assert d.out[i].pub == e.out[w].pub;
        }
      }
    }
  }

  /** Every PUBLISH with DUP set is for one of `f`, or repeats an earlier one. */
  predicate RepeatsEarlier(sent: seq<Sent>, f: seq<Pub>) {
    forall i :: 0 <= i < |sent| && sent[i].SentPublish? && sent[i].dup ==>
      sent[i].pub in f || SentPublish(sent[i].pub, false) in sent[..i]
  }

  lemma JoinRepeats(now: seq<Sent>, later: seq<Sent>, f: seq<Pub>)
    requires Repeats(now, f) && RepeatsEarlier(later, f + Firsts(now))
    ensures RepeatsEarlier(now + later, f)
  {
    hide Firsts;
    var sent := now + later;
    forall i | 0 <= i < |sent| && sent[i].SentPublish? && sent[i].dup
      ensures sent[i].pub in f || SentPublish(sent[i].pub, false) in sent[..i]
    {
      if i >= |now| {
        var j := i - |now|;
        var p := SentPublish(later[j].pub, false);
        assert sent[i] == later[j] && sent[..i] == now + later[..j];
        FirstIn(now, later[j].pub);
        assert later[j].pub in f + Firsts(now) || p in later[..j];
      }
    }
  }

  /** Over every legal run: a PUBLISH with DUP set repeats one that was sent before without it. */
  lemma {:induction false} RunRepeats(c: Client, first: int, evs: seq<Event>, f: seq<Pub>)
    requires Inv(c, first) && Unsent(c.engine) && LegalRun(c, evs) && Started(c.engine, f)
    ensures RepeatsEarlier(Run(c, evs).1, f)
    decreases |evs|
  {
    hide Step, Unsent, Firsts, Inv, Legal, Started, Repeats;
    if evs != [] {
      InvU16(c, first);
      var s := Step(c, evs[0]);
      StepInv(c, first, evs[0]);
      StepFirsts(c, first, evs[0]);
      StepRepeats(c, first, evs[0], f);
      RunRepeats(s.0, first, evs[1..], f + Firsts(s.1));
      JoinRepeats(s.1, Run(s.0, evs[1..]).1, f);
    }
  }

  /** Serial numbers above `draws`, rising, with the identifiers that belong to them. */
  predicate Numbered(s: seq<Pub>, first: int, draws: nat)
    requires IsU16(first)
  {
    && (forall i :: 0 <= i < |s| ==> s[i].serial > draws && s[i].mid == MidAfter(first, s[i].serial))
    && (forall i, j :: 0 <= i < j < |s| ==> s[i].serial < s[j].serial)
  }

  lemma {:induction false} CallsRise(evs: seq<Event>, first: int, draws: nat)
    requires IsU16(first)
    ensures Numbered(Calls(evs, first, draws), first, draws)
  {
    hide MidAfter, Numbered;
    NoneNumbered(first, draws);
    if evs != [] {
      var next := if evs[0].Publish? || evs[0].Draw? then draws + 1 else draws;
      var rest := Calls(evs[1..], first, next);
      CallsRise(evs[1..], first, next);
      NumberedMore(CallOf(evs[0], first, draws), rest, first, draws, next);
    }
  }

  lemma NoneNumbered(first: int, draws: nat)
    requires IsU16(first)
    ensures Numbered([], first, draws)
  {
  }

  lemma NumberedMore(s: seq<Pub>, rest: seq<Pub>, first: int, draws: nat, next: nat)
    requires IsU16(first) && draws <= next && Numbered(rest, first, next) && |s| <= 1
    requires s != [] ==> s[0].serial == next > draws && s[0].mid == MidAfter(first, next)
    ensures Numbered(s + rest, first, draws)
  {
    hide MidAfter;
  }

  /** From the start, over every legal run: every accepted publication is sent once without DUP, with the
    * fields of the call and the identifier drawn for it, in the order of the calls, as soon as the window
    * admits it and not before; every other PUBLISH repeats one of these with DUP set. */
  lemma WireAlways(max: nat, first: int, evs: seq<Event>)
    requires IsU16(first) && LegalRun(Init(max, first), evs)
    ensures var r, calls := Run(Init(max, first), evs), Calls(evs, first, 0);
            var queued := |r.0.engine.out|;
            var n := |calls| - (if max == 0 || queued <= max then 0 else queued - max);
            && 0 <= n && Firsts(r.1) == calls[..n]
            && (forall i, j :: 0 <= i < j < |calls| ==> calls[i].serial < calls[j].serial)
            && RepeatsEarlier(r.1, [])
  {
    hide LegalRun, Firsts, Calls, Step, Run, Waiting, Unsent, Started, Inv, RepeatsEarlier, Numbered;
    var c := Init(max, first);
    InitInv(max, first);
    WaitingCount(Run(c, evs).0.engine);
    RunFirsts(c, first, evs);
    RunRepeats(c, first, evs, []);
    CallsRise(evs, first, 0);
    RunMax(c, evs);
    var r, calls := Run(c, evs), Calls(evs, first, 0);
    FrontAndRest(Firsts(r.1), Waiting(r.0.engine), calls);
    NumberedRises(calls, first, 0);
  }

  lemma FrontAndRest(f: seq<Pub>, w: seq<Pub>, calls: seq<Pub>)
    requires f + w == [] + calls
    ensures |f| == |calls| - |w| && f == calls[..|f|]
  {
    assert calls == f + w;
  }

  lemma NumberedRises(s: seq<Pub>, first: int, draws: nat)
    requires IsU16(first) && Numbered(s, first, draws)
    ensures forall i, j :: 0 <= i < j < |s| ==> s[i].serial < s[j].serial
  {
  }

  lemma WaitingCount(e: Engine)
    ensures |Waiting(e)| == if e.max == 0 || |e.out| <= e.max then 0 else |e.out| - e.max
  {
  }

  lemma InitInv(max: nat, first: int)
    requires IsU16(first)
    ensures Inv(Init(max, first), first) && Unsent(Init(max, first).engine) && Started(Init(max, first).engine, [])
    ensures Waiting(Init(max, first).engine) == []
  {
    assert Pubs([]) == [];
  }

  lemma {:induction false} RunMax(c: Client, evs: seq<Event>)
    requires IsU16(c.lastMid)
    ensures Run(c, evs).0.engine.max == c.engine.max
    decreases |evs|
  {
    hide Remove, ResetFrom, Retry, Update, Step;
    if evs != [] {
      StepMax(c, evs[0]);
      RunMax(Step(c, evs[0]).0, evs[1..]);
    }
  }

  lemma StepMax(c: Client, ev: Event)
    requires IsU16(c.lastMid)
    ensures Step(c, ev).0.engine.max == c.engine.max
  {
    hide Remove, ResetFrom, Retry, Update;
  }

  // ----- no repetition without a reconnect -----

  /** Nothing is marked to be published again. */
  predicate Calm(e: Engine) {
    forall i :: 0 <= i < |e.out| ==> e.out[i].state != PublishQos1 && e.out[i].state != PublishQos2
  }

  lemma {:induction false} RetryCalm(q: seq<Message>)
    requires forall i :: 0 <= i < |q| ==> q[i].state != PublishQos1 && q[i].state != PublishQos2
    ensures Repeats(Retry(q).1, [])
  {
    if q != [] {
      RetryCalm(q[1..]);
    }
  }

  lemma StepCalm(c: Client, first: int, ev: Event)
    requires Inv(c, first) && Unsent(c.engine) && Legal(c, ev) && Calm(c.engine) && !ev.Reconnect?
    ensures Calm(Step(c, ev).0.engine) && Repeats(Step(c, ev).1, [])
  {
    hide Inv, Remove, Window, Legal, Unsent;
    match ev
    case Publish(_, _, _, _) =>
    case Draw =>
    case Ack(mid, qos, sends) => AckCalm(c, first, mid, qos, sends);
    case Pubrec(mid) =>
    case Connack => RetryCalm(c.engine.out);
  }

  lemma AckCalm(c: Client, first: int, mid: int, qos: int, sends: nat)
    requires Inv(c, first) && Unsent(c.engine) && Legal(c, Ack(mid, qos, sends)) && Calm(c.engine)
    ensures var r := Step(c, Ack(mid, qos, sends)); Calm(r.0.engine) && Repeats(r.1, [])
  {
    hide Generated, Remove, Typed, Pubs, Unsent;
    var e := c.engine;
    var k, w := Find(e.out, mid), e.inflight;
    if k == |e.out| {
      RemoveAbsent(e, mid, sends);
    } else {
      RemoveInFlight(e, mid, sends);
      var q := Without(e.out, k);
      assert forall i :: 0 <= i < |q| ==> q[i] == e.out[if i < k then i else i + 1];
      if w < |e.out| {
        WaitingFirst(e, q, k);
      }
    }
  }

  /** As long as the connection lasts, nothing is published twice. */
  lemma {:induction false} RunCalm(c: Client, first: int, evs: seq<Event>)
    requires Inv(c, first) && Unsent(c.engine) && LegalRun(c, evs) && Calm(c.engine)
    requires forall i :: 0 <= i < |evs| ==> !evs[i].Reconnect?
    ensures Repeats(Run(c, evs).1, [])
    decreases |evs|
  {
    hide Step, Unsent, Inv, Legal, Calm;
    if evs != [] {
      InvU16(c, first);
      StepInv(c, first, evs[0]);
      StepFirsts(c, first, evs[0]);
      StepCalm(c, first, evs[0]);
      RunCalm(Step(c, evs[0]).0, first, evs[1..]);
    }
  }

  // ----- only PUBREC releases -----

  lemma OnlyPubrecReleases(c: Client, first: int, ev: Event, pub: Pub)
    requires Inv(c, first) && Legal(c, ev) && HasReleased(Step(c, ev).0.engine.out, pub)
    ensures HasReleased(c.engine.out, pub) || ev == Pubrec(pub.mid)
  {
    hide Inv, Remove, ResetFrom, Legal;
    var e, d := c.engine, Step(c, ev).0.engine;
    var i :| 0 <= i < |d.out| && d.out[i].pub == pub && Released(d.out[i]);
    match ev
    case Ack(mid, qos, sends) => AckReleases(c, first, mid, qos, sends, pub);
    case Reconnect => ReconnectReleases(c, first, pub);
    case Publish(_, _, _, _) => assert i < |e.out| && e.out[i] == d.out[i];
    case Draw =>
    case Pubrec(mid) => assert e.out[i].pub == pub;
    case Connack => assert e.out[i].pub == pub && Released(e.out[i]);
  }

  lemma AckReleases(c: Client, first: int, mid: int, qos: int, sends: nat, pub: Pub)
    requires Inv(c, first) && Legal(c, Ack(mid, qos, sends))
    ensures HasReleased(Step(c, Ack(mid, qos, sends)).0.engine.out, pub) ==> HasReleased(c.engine.out, pub)
  {
    hide Generated, Remove, Typed, Pubs;
    var e, d := c.engine, Step(c, Ack(mid, qos, sends)).0.engine;
    var k := Find(e.out, mid);
    if k == |e.out| {
      RemoveAbsent(e, mid, sends);
    } else {
      RemoveInFlight(e, mid, sends);
      if i :| 0 <= i < |d.out| && d.out[i].pub == pub && Released(d.out[i]) {
        assert d.out[i] == Without(e.out, k)[i] == e.out[if i < k then i else i + 1];
      }
    }
  }

  lemma ReconnectReleases(c: Client, first: int, pub: Pub)
    requires Inv(c, first) && HasReleased(Step(c, Reconnect).0.engine.out, pub)
    ensures HasReleased(c.engine.out, pub)
  {
    hide Generated, ResetFrom, Typed, Pubs;
    var e, d := c.engine, Reset(c.engine);
    var i :| 0 <= i < |d.out| && d.out[i].pub == pub && Released(d.out[i]);
    ResetInWindow(e);
    assert Released(e.out[i]) && e.out[i].pub == pub;
  }

  /** The client answers by PUBREL only what the server has confirmed by PUBREC: a message is released only
    * if a PUBREC with its identifier has come. */
  lemma {:induction false} ReleasedAfterPubrec(c: Client, first: int, evs: seq<Event>, pub: Pub)
    requires Inv(c, first) && LegalRun(c, evs) && HasReleased(Run(c, evs).0.engine.out, pub)
    ensures HasReleased(c.engine.out, pub) || Pubrec(pub.mid) in evs
    decreases |evs|
  {
    hide Step, Inv, Legal, HasReleased;
    if evs != [] {
      InvU16(c, first);
      StepInv(c, first, evs[0]);
      ReleasedAfterPubrec(Step(c, evs[0]).0, first, evs[1..], pub);
      if HasReleased(Step(c, evs[0]).0.engine.out, pub) {
        OnlyPubrecReleases(c, first, evs[0], pub);
      }
    }
  }
}
