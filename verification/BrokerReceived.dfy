/** Messages whose PUBREC has come: over every run, exactly when the broker publishes one of them again. */
module BrokerReceived {
  import opened Stores
  import opened BrokerSpec
  import opened BrokerProofs
  import opened BrokerOrder
  import opened BrokerSequence
  import opened BrokerResume

  // ----- messages whose PUBREC has come -----

  /** `m` is the outbound QoS 2 message number `x`, with identifier `mid`. */
  predicate Target(m: Msg, x: nat, mid: int) {
    m.serial == x && m.Is(mid, Out) && m.qos == 2
  }

  /** It is in flight, in one of these states. */
  predicate HasIn(s: Session, x: nat, mid: int, states: set<State>) {
    exists m :: m in s.inflight && Target(m, x, mid) && m.state in states
  }

  /** PUBREC has come for it, PUBCOMP has not. */
  predicate Received(s: Session, x: nat, mid: int) {
    HasIn(s, x, mid, {WaitForPubcomp, ResendPubrel})
  }

  /** That is forgotten: it is to be published again. */
  predicate Lapsed(s: Session, x: nat, mid: int) {
    HasIn(s, x, mid, {PublishQos2})
  }

  /** The client comes back while the PUBREL that an earlier reset asked for is still not sent. */
  predicate Forgets(s: Session, e: Event, x: nat, mid: int) {
    e.Back? && HasIn(s, x, mid, {ResendPubrel})
  }

  /** PUBREC comes and the first message in flight with its identifier is `x`. */
  predicate Confirms(s: Session, e: Event, x: nat, mid: int) {
    e == Updating(mid) && First(s.inflight, x, mid)
  }

  predicate First(q: seq<Msg>, x: nat, mid: int) {
    q != [] && if q[0].Is(mid, Out) then q[0].serial == x else First(q[1..], x, mid)
  }

  /** The writer is called, connected, and gets to it. */
  predicate Reaches(s: Session, e: Event, x: nat) {
    e.Writing? && s.online
    && exists p :: 0 <= p < |s.inflight| && s.inflight[p].serial == x && Reached(s.inflight, p, e.sends)
  }

  /** Neither its PUBCOMP nor a clean session. */
  predicate Stays(e: Event, mid: int) {
    e != Deleting(mid) && !e.Clearing?
  }

  lemma {:induction false} InKept(q: seq<Msg>, mid: int, dir: Direction, m: Msg)
    requires m in q && !m.Is(mid, dir)
    ensures m in Kept(q, mid, dir)
  {
    var front := q[..|q| - 1];
    assert q == front + [q[|q| - 1]];
    if m in front {
      InKept(front, mid, dir, m);
    }
  }

  lemma {:induction false} InRefill(l: Limits, f: seq<Msg>, q: seq<Msg>, index: int, m: Msg)
    requires m in f
    ensures m in Refill(l, f, q, index).inflight
    decreases |q|
  {
    if q != [] && RoomAt(l, index) && !(q[0].dir == In && q[0].qos != 2) {
      var n := q[0].(state := if q[0].dir == Out then PublishState(q[0].qos) else WaitForPubrel);
      InRefill(l, f + [n], q[1..], index + 1, m);
    }
  }

  lemma {:induction false} InWriteRefill(l: Limits, f: seq<Msg>, q: seq<Msg>, index: int, sends: nat, m: Msg)
    requires m in f
    ensures m in WriteRefill(l, f, q, index, sends).inflight
    decreases |q|
  {
    if q != [] && RoomAt(l, index) && !(q[0].dir == In && q[0].qos != 2) && !(q[0].dir == In && sends == 0) {
      var n := q[0].(state := if q[0].dir == Out then PublishState(q[0].qos) else WaitForPubrel);
      InWriteRefill(l, f + [n], q[1..], index + 1, if q[0].dir == Out then sends else sends - 1, m);
    }
  }

  lemma {:induction false} InUpdate(q: seq<Msg>, mid: int, m: Msg)
    requires m in q && m.Is(mid, Out) && forall i, j :: 0 <= i < j < |q| ==> q[i].serial != q[j].serial
    ensures (if First(q, m.serial, mid) then m.(state := WaitForPubcomp) else m) in Update(q, mid, Out, WaitForPubcomp)
  {
    var t := q[1..];
    assert q == [q[0]] + t;
    if !q[0].Is(mid, Out) {
      assert forall i :: 0 <= i < |t| ==> t[i] == q[i + 1];
      InUpdate(t, mid, m);
    }
  }

  lemma {:induction false} InUpdateOther(q: seq<Msg>, mid: int, m: Msg)
    requires m in q && !m.Is(mid, Out)
    ensures m in Update(q, mid, Out, WaitForPubcomp)
  {
    assert q == [q[0]] + q[1..];
    if !q[0].Is(mid, Out) && m in q[1..] {
      InUpdateOther(q[1..], mid, m);
    }
  }

  lemma {:induction false} InWrite(q: seq<Msg>, sends: nat, m: Msg)
    requires m in q && m.state != PublishQos0
    ensures var w := WriteInflight(q, sends);
            m in w.inflight || (AfterSend(m) in w.inflight && (ToPublish(m) ==> Publishes(w.sent, m.serial)))
    decreases |q|
  {
    hide Publishes;
    var w := WriteInflight(q, sends);
    assert q == [q[0]] + q[1..];
    if Due(q[0]) == [] || sends > 0 {
      var v := WriteInflight(q[1..], if Due(q[0]) == [] then sends else sends - 1);
      PublishesJoin(Due(q[0]), v.sent, m.serial);
      DuePublishes(q[0], m.serial);
      assert w.sent == Due(q[0]) + v.sent;
      if m in q[1..] {
        InWrite(q[1..], if Due(q[0]) == [] then sends else sends - 1, m);
      }
    }
  }

  lemma {:induction false} InResetQueue(l: Limits, f: seq<Msg>, q: seq<Msg>, i: nat, c: Counts, m: Msg)
    requires i <= |q| && m in f
    ensures m in ResetQueue(l, f, q, i, c).0
    decreases |q|, |q| - i
  {
    if i < |q| {
      var d := Plus(c, q[i]);
      if ReadyForFlight(l, d, q[i].qos) {
        var p := q[i := q[i].(state := PublishState(q[i].qos))];
        InResetQueue(l, f + [p[0]], p[1..], 0, d, m);
      } else {
        InResetQueue(l, f, q, i + 1, d, m);
      }
    }
  }

  lemma InReset(l: Limits, s: Session, m: Msg)
    requires Proper(s.inflight) && m in s.inflight
    ensures ResetOne(m) in TakeOver(l, s).inflight
  {
    hide Total, Add, ResetQueue, ResetFlight;
    var i :| 0 <= i < |s.inflight| && s.inflight[i] == m;
    ResetFlightIs(s.inflight, NONE);
    assert ResetInflight(s.inflight)[i] == ResetOne(m);
    InResetQueue(l, ResetInflight(s.inflight), s.queued, 0, Add(NONE, Total(s.inflight)), ResetOne(m));
  }

  lemma InWriting(l: Limits, s: Session, sends: nat, m: Msg)
    requires m in s.inflight && m.state != PublishQos0
    ensures var w := Write(l, s, sends);
            m in w.0.inflight || (AfterSend(m) in w.0.inflight && (ToPublish(m) ==> Publishes(w.1, m.serial)))
  {
    hide WriteInflight, WriteRefill, Publishes, MinusAll;
    var w := WriteInflight(s.inflight, sends);
    InWrite(s.inflight, sends, m);
    if w.ok {
      var n := if m in w.inflight then m else AfterSend(m);
      InWriteRefill(l, w.inflight, s.queued, |s.inflight|, w.sends, n);
      PublishesJoin(w.sent, WriteRefill(l, w.inflight, s.queued, |s.inflight|, w.sends).sent, m.serial);
    }
  }

  lemma NoneTwice(s: Session)
    requires Numbered(s)
    ensures forall i, j :: 0 <= i < j < |s.inflight| ==> s.inflight[i].serial != s.inflight[j].serial
  {
    forall i, j | 0 <= i < j < |s.inflight| ensures s.inflight[i].serial != s.inflight[j].serial {
      assert Serials(s.All())[i] != Serials(s.All())[j];
    }
  }

  /** Where an outbound message in flight is after a step, and in which state. */
  lemma StepHas(l: Limits, s: Session, e: Event, m: Msg)
    requires Numbered(s) && Proper(s.inflight)
    requires m in s.inflight && m.dir == Out && m.state != PublishQos0 && Stays(e, m.mid)
    ensures var o := Step(l, s, e);
            if e.Back? then ResetOne(m) in o.session.inflight
            else if Confirms(s, e, m.serial, m.mid) then m.(state := WaitForPubcomp) in o.session.inflight
            else
              m in o.session.inflight
              || (AfterSend(m) in o.session.inflight && (ToPublish(m) ==> Publishes(o.sent, m.serial)))
  {
    hide Kept, Refill, Write, TakeOver, Update, PlaceOf, Numbered, First, Publishes, AfterSend, MinusAll, Dropped;
    match e
    case Inserting(_, _, _) =>
    case Deleting(mid) =>
      InKept(s.inflight, mid, Out, m);
      InRefill(l, Kept(s.inflight, mid, Out), s.queued, |Kept(s.inflight, mid, Out)|, m);
    case Releasing(mid) =>
      InKept(s.inflight, mid, In, m);
      InRefill(l, Kept(s.inflight, mid, In), s.queued, |s.inflight|, m);
    case Updating(mid) =>
      NoneTwice(s);
      if m.mid == mid {
        InUpdate(s.inflight, mid, m);
      } else {
        InUpdateOther(s.inflight, mid, m);
      }
    case Writing(sends) =>
      if s.online {
        InWriting(l, s, sends, m);
      }
    case Offline =>
    case Back => InReset(l, s, m);
  }

  /** Legal steps keep the QoS of all messages proper. */
  lemma StepProper(l: Limits, s: Session, e: Event)
    requires Proper(s.All()) && Legal(e)
    ensures Proper(Step(l, s, e).session.All())
  {
    hide PlaceOf, Part, Idents;
    var t := Step(l, s, e).session;
    if e.Inserting? && !PlaceOf(l, s, e.n, e.known, e.already).Nowhere? {
      ProperParts(s);
    } else {
      StepThins(l, s, e);
      PartProper(t.All(), s.All());
    }
  }

  lemma ProperParts(s: Session)
    requires Proper(s.All())
    ensures Proper(s.inflight) && Proper(s.queued)
  {
    forall i | 0 <= i < |s.inflight| ensures s.inflight[i] == s.All()[i] {
    }
    forall i | 0 <= i < |s.queued| ensures s.queued[i] == s.All()[|s.inflight| + i] {
    }
  }

  lemma PartProper(a: seq<Msg>, b: seq<Msg>)
    requires Part(Idents(a), Idents(b)) && Proper(b)
    ensures Proper(a)
  {
    PartIn(Idents(a), Idents(b));
    forall i | 0 <= i < |a| ensures 0 <= a[i].qos <= 2 && (a[i].dir == In ==> a[i].qos == 2) {
      assert Idents(a)[i] in Idents(b);
      var j :| 0 <= j < |b| && Idents(b)[j] == Idents(a)[i];
      assert Ident(a[i]).qos == b[j].qos && Ident(a[i]).dir == b[j].dir;
    }
  }

  /** PUBREC has come: no step publishes the message, and only a reset before PUBREL is sent again forgets it. */
  lemma StepReceived(l: Limits, s: Session, e: Event, x: nat, mid: int)
    requires Numbered(s) && Proper(s.inflight) && Received(s, x, mid) && Stays(e, mid)
    ensures var o := Step(l, s, e);
            && !Publishes(o.sent, x)
            && if Forgets(s, e, x, mid) then Lapsed(o.session, x, mid) else Received(o.session, x, mid)
  {
    hide Step, Numbered, Publishes, First, Reached;
    var o := Step(l, s, e);
    var m :| m in s.inflight && Target(m, x, mid) && m.state in {WaitForPubcomp, ResendPubrel};
    StepHas(l, s, e, m);
    StepPublishesIff(l, s, e, x);
    NoneTwice(s);
    if e.Back? {
      assert Target(ResetOne(m), x, mid);
    } else {
      assert Target(AfterSend(m), x, mid) && Target(m.(state := WaitForPubcomp), x, mid);
    }
  }

  /** Forgotten: the message is published by the first call of the writer that gets to it, unless a PUBREC
    * for it comes before. */
  lemma StepLapsed(l: Limits, s: Session, e: Event, x: nat, mid: int)
    requires Numbered(s) && Proper(s.inflight) && Lapsed(s, x, mid) && Stays(e, mid)
    ensures var o := Step(l, s, e);
            && (Publishes(o.sent, x) <==> Reaches(s, e, x))
            && (!Publishes(o.sent, x) ==>
                  if Confirms(s, e, x, mid) then Received(o.session, x, mid) else Lapsed(o.session, x, mid))
  {
    hide Step, Numbered, Publishes, First, Reached;
    var o := Step(l, s, e);
    var m :| m in s.inflight && Target(m, x, mid) && m.state == PublishQos2;
    StepHas(l, s, e, m);
    StepPublishesIff(l, s, e, x);
    NoneTwice(s);
    assert Target(ResetOne(m), x, mid) && Target(m.(state := WaitForPubcomp), x, mid);
    assert e.Writing? ==>
        forall p :: 0 <= p < |s.inflight| && s.inflight[p].serial == x && Reached(s.inflight, p, e.sends) ==>
          PublishesAt(s.inflight, p, e.sends, x);
  }

  // ----- over every run -----

  /** The `k`th step of the run publishes `x`. */
  predicate SentBy(l: Limits, s: Session, es: seq<Event>, k: nat, x: nat)
    requires k < |es|
  {
    Publishes(Step(l, Past(l, s, es, k), es[k]).sent, x)
  }

  /** A reset at `j` forgets the PUBREC of `x`, and no other comes before step `k`. */
  predicate Forgotten(l: Limits, s: Session, es: seq<Event>, j: nat, k: nat, x: nat, mid: int)
    requires j < k <= |es|
  {
    && Forgets(Past(l, s, es, j), es[j], x, mid)
    && forall i :: j < i < k ==> !Confirms(Past(l, s, es, i), es[i], x, mid)
  }

  /** A run from a session in which PUBREC has come for `x`, without its PUBCOMP and a clean session. */
  predicate Pending(s: Session, es: seq<Event>, x: nat, mid: int) {
    && Numbered(s) && Proper(s.All()) && Received(s, x, mid)
    && forall i :: 0 <= i < |es| ==> Legal(es[i]) && Stays(es[i], mid)
  }

  lemma {:induction false} PastSound(l: Limits, s: Session, es: seq<Event>, k: nat, x: nat, mid: int)
    requires Pending(s, es, x, mid) && k <= |es|
    ensures var u := Past(l, s, es, k); Numbered(u) && Proper(u.All()) && Proper(u.inflight)
    decreases k
  {
    hide Numbered, Proper, Step, Received, Past, Stays;
    if k > 0 {
      PastSound(l, s, es, k - 1, x, mid);
      PastNext(l, s, es, k - 1);
      StepNumbered(l, Past(l, s, es, k - 1), es[k - 1]);
      StepProper(l, Past(l, s, es, k - 1), es[k - 1]);
    } else {
      PastStart(l, s, es);
    }
    ProperParts(Past(l, s, es, k));
  }

  lemma PastStart(l: Limits, s: Session, es: seq<Event>)
    ensures Past(l, s, es, 0) == s
  {
  }

  /** As long as nothing publishes it, PUBREC is remembered, or a reset forgot it and no other came. */
  lemma {:induction false} Remembered(l: Limits, s: Session, es: seq<Event>, k: nat, x: nat, mid: int)
    requires Pending(s, es, x, mid) && k <= |es| && forall i :: 0 <= i < k ==> !SentBy(l, s, es, i, x)
    ensures var u := Past(l, s, es, k);
            Received(u, x, mid) || (Lapsed(u, x, mid) && exists j :: 0 <= j < k && Forgotten(l, s, es, j, k, x, mid))
    decreases k
  {
    hide Numbered, Proper, Step, Received, Lapsed, Past, Stays, Confirms, Forgets, Publishes, Reaches, Legal;
    if k > 0 {
      var u, e := Past(l, s, es, k - 1), es[k - 1];
      Remembered(l, s, es, k - 1, x, mid);
      PastSound(l, s, es, k - 1, x, mid);
      PastNext(l, s, es, k - 1);
      assert !SentBy(l, s, es, k - 1, x);
      if Received(u, x, mid) {
        StepReceived(l, u, e, x, mid);
        if Forgets(u, e, x, mid) {
          assert Forgotten(l, s, es, k - 1, k, x, mid);
        }
      } else {
        var j :| 0 <= j < k - 1 && Forgotten(l, s, es, j, k - 1, x, mid);
        StepLapsed(l, u, e, x, mid);
        if !Confirms(u, e, x, mid) {
          assert Forgotten(l, s, es, j, k, x, mid);
        }
      }
    } else {
      PastStart(l, s, es);
    }
  }

  /** From such a reset on the message is to be published, as long as nothing publishes it. */
  lemma {:induction false} StaysLapsed(l: Limits, s: Session, es: seq<Event>, j: nat, k: nat, x: nat, mid: int)
    requires Pending(s, es, x, mid) && j < k <= |es| && Forgotten(l, s, es, j, k, x, mid)
    requires forall i :: 0 <= i < k ==> !SentBy(l, s, es, i, x)
    ensures Lapsed(Past(l, s, es, k), x, mid)
    decreases k
  {
    hide Numbered, Proper, Step, Received, Lapsed, Past, Stays, Confirms, Publishes, Reaches, Legal;
    var u, e := Past(l, s, es, k - 1), es[k - 1];
    PastSound(l, s, es, k - 1, x, mid);
    PastNext(l, s, es, k - 1);
    assert !SentBy(l, s, es, k - 1, x);
    if j == k - 1 {
      Remembered(l, s, es, j, x, mid);
      if Lapsed(u, x, mid) {
        NotBoth(u, x, mid);
      } else {
        StepReceived(l, u, e, x, mid);
      }
    } else {
      StaysLapsed(l, s, es, j, k - 1, x, mid);
      StepLapsed(l, u, e, x, mid);
    }
  }

  lemma NotBoth(s: Session, x: nat, mid: int)
    requires Numbered(s) && Lapsed(s, x, mid)
    ensures !HasIn(s, x, mid, {ResendPubrel})
  {
    hide Numbered;
    NoneTwice(s);
  }

  lemma {:induction false} FirstSent(l: Limits, s: Session, es: seq<Event>, k: nat, x: nat)
    requires k < |es| && SentBy(l, s, es, k, x)
    ensures exists i :: 0 <= i <= k && SentBy(l, s, es, i, x) && forall j :: 0 <= j < i ==> !SentBy(l, s, es, j, x)
    decreases k
  {
    hide SentBy;
    if j :| 0 <= j < k && SentBy(l, s, es, j, x) {
      FirstSent(l, s, es, j, x);
    }
  }

  /** Section 4.3.3 of MQTT 3.1.1 for the broker.  A message whose PUBREC has come is published again if and
    * only if the client comes back before the PUBREL that an earlier reset asked for is sent, and the
    * writer then gets to the message before another PUBREC comes. */
  lemma PublishedAgainIff(l: Limits, s: Session, es: seq<Event>, x: nat, mid: int)
    requires Pending(s, es, x, mid)
    ensures (exists k :: 0 <= k < |es| && SentBy(l, s, es, k, x)) <==>
            (exists j, k :: 0 <= j < k < |es| && Forgotten(l, s, es, j, k, x, mid)
              && Reaches(Past(l, s, es, k), es[k], x))
  {
    hide Pending, SentBy, Forgotten, Reaches, Past, Received, Lapsed;
    if k :| 0 <= k < |es| && SentBy(l, s, es, k, x) {
      FirstSent(l, s, es, k, x);
      var i :| 0 <= i <= k && SentBy(l, s, es, i, x) && forall j :: 0 <= j < i ==> !SentBy(l, s, es, j, x);
      FirstSentIsForgotten(l, s, es, i, x, mid);
    }
    if j, k :| 0 <= j < k < |es| && Forgotten(l, s, es, j, k, x, mid) && Reaches(Past(l, s, es, k), es[k], x) {
      ForgottenIsSent(l, s, es, j, k, x, mid);
    }
  }

  lemma FirstSentIsForgotten(l: Limits, s: Session, es: seq<Event>, k: nat, x: nat, mid: int)
    requires Pending(s, es, x, mid) && k < |es| && SentBy(l, s, es, k, x)
    requires forall i :: 0 <= i < k ==> !SentBy(l, s, es, i, x)
    ensures Reaches(Past(l, s, es, k), es[k], x) && exists j :: 0 <= j < k && Forgotten(l, s, es, j, k, x, mid)
  {
    hide Numbered, Proper, Step, Received, Lapsed, Past, Forgotten, Stays, Publishes, Reaches, Legal;
    Remembered(l, s, es, k, x, mid);
    PastSound(l, s, es, k, x, mid);
    if Received(Past(l, s, es, k), x, mid) {
      StepReceived(l, Past(l, s, es, k), es[k], x, mid);
    } else {
      StepLapsed(l, Past(l, s, es, k), es[k], x, mid);
    }
  }

  lemma ForgottenIsSent(l: Limits, s: Session, es: seq<Event>, j: nat, k: nat, x: nat, mid: int)
    requires Pending(s, es, x, mid) && j < k < |es| && Forgotten(l, s, es, j, k, x, mid)
    requires Reaches(Past(l, s, es, k), es[k], x)
    ensures exists i :: 0 <= i <= k && SentBy(l, s, es, i, x)
  {
    hide Numbered, Proper, Step, Received, Lapsed, Past, Forgotten, Stays, Publishes, Reaches, Legal;
    if forall i :: 0 <= i < k ==> !SentBy(l, s, es, i, x) {
      StaysLapsed(l, s, es, j, k, x, mid);
      PastSound(l, s, es, k, x, mid);
      StepLapsed(l, Past(l, s, es, k), es[k], x, mid);
      assert SentBy(l, s, es, k, x);
    }
  }

  /** In particular it is never published again, and PUBREC is remembered to the end, if each reset finds
    * the PUBREL of the one before sent. */
  lemma NotPublishedAgain(l: Limits, s: Session, es: seq<Event>, x: nat, mid: int)
    requires Pending(s, es, x, mid)
    requires forall j :: 0 <= j < |es| ==> !Forgets(Past(l, s, es, j), es[j], x, mid)
    ensures forall k :: 0 <= k < |es| ==> !SentBy(l, s, es, k, x)
    ensures Received(Run(l, s, es), x, mid)
  {
    hide Pending, SentBy, Reaches, Received, Lapsed, Forgets;
    PublishedAgainIff(l, s, es, x, mid);
    Remembered(l, s, es, |es|, x, mid);
    assert es[..|es|] == es;
  }

  // ----- such a run -----

  /** Two resets in a row forget the PUBREC: the next write publishes the message again. */
  lemma TwoResets(l: Limits, s: Session, x: nat, mid: int, sends: nat)
    requires Numbered(s) && Proper(s.All()) && Received(s, x, mid) && sends >= |s.All()|
    ensures SentBy(l, s, [Back, Back, Writing(sends)], 2, x)
  {
    hide Numbered, Proper, TakeOver, Publishes, Confirms, Reaches, ResetOne;
    var es, t, u := [Back, Back, Writing(sends)], TakeOver(l, s), TakeOver(l, TakeOver(l, s));
    PastStart(l, s, es);
    PastNext(l, s, es, 0);
    PastNext(l, s, es, 1);
    BackStep(l, s);
    BackStep(l, t);
    assert Past(l, s, es, 2) == u;
    var m :| m in s.inflight && Target(m, x, mid) && m.state in {WaitForPubcomp, ResendPubrel};
    StepNumbered(l, s, Back);
    StepNumbered(l, t, Back);
    StepProper(l, s, Back);
    ProperParts(s);
    ProperParts(t);
    ResetsTwice(m);
    StepHas(l, s, Back, m);
    StepHas(l, t, Back, ResetOne(m));
    TakeOverShrinks(l, s);
    TakeOverShrinks(l, t);
    var n := ResetOne(ResetOne(m));
    var p :| 0 <= p < |u.inflight| && u.inflight[p] == n;
    DueShort(u.inflight[..p]);
    assert Reached(u.inflight, p, sends);
    StepPublishesIff(l, u, Writing(sends), x);
    assert PublishesAt(u.inflight, p, sends, x);
  }

  lemma ResetsTwice(m: Msg)
    requires m.dir == Out && m.qos == 2 && m.state in {WaitForPubcomp, ResendPubrel}
    ensures ResetOne(m).dir == Out && ResetOne(m).mid == m.mid && ResetOne(m).state != PublishQos0
    ensures ResetOne(ResetOne(m)) == m.(state := PublishQos2)
  {
  }

  lemma TakeOverShrinks(l: Limits, s: Session)
    ensures |TakeOver(l, s).All()| <= |s.All()|
  {
    TakeOverThins(l, s);
    PartShorter(Idents(TakeOver(l, s).All()), Idents(s.All()));
  }

  lemma {:induction false} PartShorter<T>(a: seq<T>, b: seq<T>)
    requires Part(a, b)
    ensures |a| <= |b|
    decreases |b|
  {
    if b != [] {
      if Part(a, b[1..]) {
        PartShorter(a, b[1..]);
      } else {
        PartShorter(a[1..], b[1..]);
      }
    }
  }

  lemma {:induction false} DueShort(q: seq<Msg>)
    ensures |DueAll(q)| <= |q|
  {
    if q != [] {
      DueShort(q[1..]);
    }
  }

  /** An exchange up to PUBREC. */
  function Exchange(a: Store): seq<Event> {
    [Inserting(New(a, 1, Out, 2, false), true, false)] + ([Writing(1)] + [Updating(1)])
  }

  /** With any limits: a QoS 2 message is inserted, sent and confirmed by PUBREC; after two resets in a row
    * the same message is published again. */
  lemma PublishedTwice(l: Limits, a: Store)
    ensures var s := Run(l, FRESH, Exchange(a));
            && Publishes(Step(l, Run(l, FRESH, Exchange(a)[..1]), Writing(1)).sent, 0)
            && Received(s, 0, 1) && SentBy(l, s, [Back, Back, Writing(1)], 2, 0)
  {
    var m := Msg(0, a, 1, Out, 2, false, false, PublishQos2);
    var c := Plus(NONE, m);
    var s1, s3 := Session([m], [], c, true, 1), Session([m.(dup := true, state := WaitForPubcomp)], [], c, true, 1);
    ExchangeIs(l, a, m, c);
    StepPublishesIff(l, s1, Writing(1), 0);
    assert PublishesAt(s1.inflight, 0, 1, 0);
    assert s3.inflight[0] in s3.inflight && Target(s3.inflight[0], 0, 1);
    assert Numbered(s3) && Proper(s3.All());
    TwoResets(l, s3, 0, 1, 1);
  }

  lemma ExchangeIs(l: Limits, a: Store, m: Msg, c: Counts)
    requires m == Msg(0, a, 1, Out, 2, false, false, PublishQos2) && c == Plus(NONE, m)
    ensures |Exchange(a)| == 3 && Run(l, FRESH, Exchange(a)[..1]) == Session([m], [], c, true, 1)
    ensures Run(l, FRESH, Exchange(a)) == Session([m.(dup := true, state := WaitForPubcomp)], [], c, true, 1)
  {
    hide Step;
    var s1, s2 := Session([m], [], c, true, 1), Session([m.(dup := true, state := WaitForPubrec)], [], c, true, 1);
    var s3 := Session([m.(dup := true, state := WaitForPubcomp)], [], c, true, 1);
    var e := Inserting(New(a, 1, Out, 2, false), true, false);
    ExchangeSteps(l, a, m, c);
    assert Exchange(a)[..1] == [e] + [];
    RunNext(l, FRESH, e, []);
    RunNext(l, FRESH, e, [Writing(1)] + [Updating(1)]);
    RunNext(l, s1, Writing(1), [Updating(1)]);
    assert [Updating(1)] == [Updating(1)] + [];
    RunNext(l, s2, Updating(1), []);
    assert Run(l, s1, []) == s1 && Run(l, s3, []) == s3;
  }

  lemma ExchangeSteps(l: Limits, a: Store, m: Msg, c: Counts)
    requires m == Msg(0, a, 1, Out, 2, false, false, PublishQos2) && c == Plus(NONE, m)
    ensures var s1 := Session([m], [], c, true, 1);
            var s2 := Session([m.(dup := true, state := WaitForPubrec)], [], c, true, 1);
            && Step(l, FRESH, Inserting(New(a, 1, Out, 2, false), true, false)).session == s1
            && Step(l, s1, Writing(1)).session == s2
            && Step(l, s2, Updating(1)).session == s2.(inflight := [m.(dup := true, state := WaitForPubcomp)])
  {
    var sent, n := m.(dup := true, state := WaitForPubrec), m.(dup := true, state := WaitForPubcomp);
    NoneGone(c);
    assert [] + [m] == [m] && [sent] + [] == [sent] && [n] + [] == [n];
    assert WriteInflight([m][1..], 0) == Written([], [], [], true, 0);
    assert WriteInflight([m], 1) == Written([sent], [], [SentPublish(m)], true, 0);
    assert Update([sent], 1, Out, WaitForPubcomp) == [n] + [sent][1..];
  }
}
