/** The two lists of a broker session are one first-in first-out queue: with QoS 1 and 2 messages only,
  * every run keeps the messages in the order of their insertion and sends them in that order. */
module BrokerOrder {
  import opened Stores
  import opened BrokerSpec
  import opened BrokerProofs

  // ----- the invariant -----

  /** Inserted in this order, fewer than `n` so far, no two with the same identifier and direction. */
  predicate Ordered(q: seq<Msg>, n: nat) {
    && (forall i :: 0 <= i < |q| ==> q[i].serial < n)
    && (forall i, j :: 0 <= i < j < |q| ==> q[i].serial < q[j].serial && !q[i].Is(q[j].mid, q[j].dir))
  }

  /** A waiting message means that there is no room in flight. */
  predicate Full(l: Limits, s: Session) {
    s.online && s.queued != [] ==> !ReadyForFlight(l, s.counts, 1)
  }

  predicate Fifo(l: Limits, s: Session) {
    Counted(s) && Proper(s.All()) && NoQos0(s.All()) && Ordered(s.All(), s.inserted) && Full(l, s)
  }

  /** New messages have QoS 1 or 2 and an identifier that is not in use in their direction. */
  predicate Fair(s: Session, e: Event) {
    Legal(e) && (e.Inserting? ==> e.n.qos > 0 && forall m <- s.All() :: !m.Is(e.n.mid, e.n.dir))
  }

  lemma AlikeOrdered(a: seq<Msg>, b: seq<Msg>, n: nat)
    requires Alike(a, b) && Ordered(b, n)
    ensures Ordered(a, n)
  {
    forall i | 0 <= i < |a|
      ensures a[i].serial == b[i].serial && a[i].mid == b[i].mid && a[i].dir == b[i].dir
    {
      assert Ident(a[i]) == Ident(b[i]);
    }
  }

  /** Moving messages from the queue into flight. */
  lemma MovedFifo(l: Limits, s: Session, t: Session)
    requires Fifo(l, s) && t.counts == s.counts && Alike(t.All(), s.All()) && t.inserted == s.inserted
    requires Full(l, t)
    ensures Fifo(l, t)
  {
    hide Total, Add;
    MovedCounted(s, t);
    AlikeFacts(t.All(), s.All());
    AlikeOrdered(t.All(), s.All(), s.inserted);
  }

  // ----- the steps -----

  /** A new message goes behind all others or nowhere. */
  lemma InsertFifo(l: Limits, s: Session, n: New, known: bool, already: bool)
    requires Fifo(l, s) && Fair(s, Inserting(n, known, already))
    ensures var t := Insert(l, s, n, known, already);
            && Fifo(l, t)
            && if PlaceOf(l, s, n, known, already).Nowhere? then t == s
               else t.All() == s.All() + [Made(s, n, PlaceOf(l, s, n, known, already))]
  {
    hide Total, Add;
    var p := PlaceOf(l, s, n, known, already);
    var m, t := Made(s, n, p), Insert(l, s, n, known, already);
    TotalLast(s.inflight, m);
    TotalLast(s.queued, m);
    PlusAdd(Total(s.inflight), Total(s.queued), m);
    if !p.Nowhere? {
      assert t.All() == s.All() + [m] by {
        if p.ToFlight? {
          assert s.queued == [];
          assert s.All() == s.inflight;
        }
      }
      assert !ReadyForFlight(l, s.counts, 1) ==> !ReadyForFlight(l, t.counts, 1);
    }
  }

  lemma {:induction false} KeptOrdered(q: seq<Msg>, rest: seq<Msg>, n: nat, mid: int, dir: Direction)
    requires Ordered(q + rest, n)
    ensures Ordered(Kept(q, mid, dir) + rest, n)
    ensures |Kept(q, mid, dir)| >= |q| - 1
    decreases |q|
  {
    if q == [] {
      assert Kept(q, mid, dir) + rest == q + rest;
    } else {
      var front, m := q[..|q| - 1], q[|q| - 1];
      assert front + ([m] + rest) == q + rest;
      KeptOrdered(front, [m] + rest, n, mid, dir);
      var k := Kept(front, mid, dir);
      if m.Is(mid, dir) {
        OrderedSkip(k, m, rest, n);
        NoneElse(q, rest, n, mid, dir);
        assert Kept(q, mid, dir) == k;
      } else {
        assert Kept(q, mid, dir) == k + [m];
        assert k + [m] + rest == k + ([m] + rest);
      }
    }
  }

  lemma OrderedSkip(a: seq<Msg>, m: Msg, b: seq<Msg>, n: nat)
    requires Ordered(a + ([m] + b), n)
    ensures Ordered(a + b, n)
  {
    var q, r := a + ([m] + b), a + b;
    forall i, j | 0 <= i < j < |r|
      ensures r[i].serial < r[j].serial && !r[i].Is(r[j].mid, r[j].dir)
    {
      assert r[i] == q[if i < |a| then i else i + 1] && r[j] == q[if j < |a| then j else j + 1];
    }
    forall i | 0 <= i < |r| ensures r[i].serial < n {
      assert r[i] == q[if i < |a| then i else i + 1];
    }
  }

  /** Identifiers being unique, nothing in front of a match matches. */
  lemma NoneElse(q: seq<Msg>, rest: seq<Msg>, n: nat, mid: int, dir: Direction)
    requires q != [] && Ordered(q + rest, n) && q[|q| - 1].Is(mid, dir)
    ensures Kept(q[..|q| - 1], mid, dir) == q[..|q| - 1]
  {
    var front := q[..|q| - 1];
    forall i | 0 <= i < |front| ensures !front[i].Is(mid, dir) {
      assert (q + rest)[i] == front[i] && (q + rest)[|q| - 1] == q[|q| - 1];
    }
    KeptAll(front, mid, dir);
  }

  lemma {:induction false} KeptAll(q: seq<Msg>, mid: int, dir: Direction)
    requires forall i :: 0 <= i < |q| ==> !q[i].Is(mid, dir)
    ensures Kept(q, mid, dir) == q
  {
    if q != [] {
      KeptAll(q[..|q| - 1], mid, dir);
    }
  }

  lemma {:induction false} KeptNoQos0(q: seq<Msg>, mid: int, dir: Direction)
    requires NoQos0(q) && Proper(q)
    ensures NoQos0(Kept(q, mid, dir)) && Proper(Kept(q, mid, dir))
  {
    if q != [] {
      KeptNoQos0(q[..|q| - 1], mid, dir);
    }
  }

  /** The refill stops early only if it has filled the window. */
  lemma {:induction false} RefillFills(l: Limits, f: seq<Msg>, q: seq<Msg>, index: int)
    requires Proper(q)
    ensures var r := Refill(l, f, q, index);
            r.queued != [] ==> !RoomAt(l, index + |r.inflight| - |f|)
    decreases |q|
  {
    if q != [] && RoomAt(l, index) {
      var m := q[0].(state := if q[0].dir == Out then PublishState(q[0].qos) else WaitForPubrel);
      RefillFills(l, f + [m], q[1..], index + 1);
    }
  }

  /** What is left when the messages that match are taken out and the window is filled up again;
    * `index` may exceed the number of messages in flight by one, as it does for db__message_release. */
  lemma TakenFifo(l: Limits, s: Session, mid: int, dir: Direction, index: int)
    requires Fifo(l, s)
    requires |Kept(s.inflight, mid, dir)| <= index <= |Kept(s.inflight, mid, dir)| + 1
    ensures var t := Refilled(l, Taken(s, mid, dir), index);
            Fifo(l, t) && Same(t.All(), Kept(s.inflight, mid, dir) + s.queued)
  {
    hide Total, Add, Sub, MinusAll, Refill, Kept, Dropped;
    var kept, gone, u := Kept(s.inflight, mid, dir), Dropped(s.inflight, mid, dir), Taken(s, mid, dir);
    var t := Refilled(l, u, index);
    PartsPlain(s);
    KeptOrdered(s.inflight, s.queued, s.inserted, mid, dir);
    KeptNoQos0(s.inflight, mid, dir);
    TotalKept(s.inflight, mid, dir);
    MinusAllIsSub(s.counts, gone);
    TakenCounts(Total(kept), Total(gone), Total(s.queued));
    RefillSame(l, kept, s.queued, index);
    SameAlike(t.All(), u.All());
    RefillFills(l, kept, s.queued, index);
    MovedCounted(u, t);
    AlikeFacts(t.All(), u.All());
    AlikeOrdered(t.All(), u.All(), s.inserted);
    WindowFull(l, t);
  }

  lemma PartsPlain(s: Session)
    requires Proper(s.All()) && NoQos0(s.All())
    ensures Proper(s.inflight) && NoQos0(s.inflight) && Proper(s.queued) && NoQos0(s.queued)
  {
    forall i | 0 <= i < |s.inflight| ensures s.inflight[i] == s.All()[i] {
    }
    forall i | 0 <= i < |s.queued| ensures s.queued[i] == s.All()[|s.inflight| + i] {
    }
  }

  /** With all messages counted, a window short by at most one and a waiting message leave no room. */
  lemma WindowFull(l: Limits, t: Session)
    requires Counted(t) && NoQos0(t.All())
    requires t.queued != [] ==> !RoomAt(l, |t.inflight| + 1)
    ensures Full(l, t)
  {
    hide Total;
    TotalJoin(t.inflight, t.queued);
    TotalNat(t.All());
  }

  lemma {:induction false} WriteInflightPlain(q: seq<Msg>, sends: nat)
    requires NoQos0(q) && forall i :: 0 <= i < |q| ==> q[i].state != PublishQos0
    ensures var w := WriteInflight(q, sends); w.dropped == [] && Alike(w.inflight, q)
    decreases |q|
  {
    if q != [] && (Due(q[0]) == [] || sends > 0) {
      var v := WriteInflight(q[1..], if Due(q[0]) == [] then sends else sends - 1);
      var n := if Due(q[0]) == [] then q[0] else AfterSend(q[0]);
      WriteInflightPlain(q[1..], if Due(q[0]) == [] then sends else sends - 1);
      assert WriteInflight(q, sends).inflight == [n] + v.inflight;
      assert q == [q[0]] + q[1..];
      AlikeJoin([n], [q[0]], v.inflight, q[1..]);
    }
  }

  lemma {:induction false} WriteRefillShrinks(l: Limits, f: seq<Msg>, q: seq<Msg>, index: int, sends: nat)
    ensures |WriteRefill(l, f, q, index, sends).queued| <= |q|
    decreases |q|
  {
    if q != [] && RoomAt(l, index) && !(q[0].dir == In && q[0].qos != 2) && !(q[0].dir == In && sends == 0) {
      var m := q[0].(state := if q[0].dir == Out then PublishState(q[0].qos) else WaitForPubrel);
      WriteRefillShrinks(l, f + [m], q[1..], index + 1, if q[0].dir == Out then sends else sends - 1);
    }
  }

  lemma WriteFifo(l: Limits, s: Session, sends: nat)
    requires Fifo(l, s) && Tidy(s.inflight)
    ensures var t := Write(l, s, sends).0; Fifo(l, t) && Alike(t.All(), s.All())
  {
    hide Total, Add, MinusAll, WriteInflight, WriteRefill;
    var w, t := WriteInflight(s.inflight, sends), Write(l, s, sends).0;
    PartsPlain(s);
    WriteInflightPlain(s.inflight, sends);
    NoneGone(s.counts);
    AlikeJoin(w.inflight, s.inflight, s.queued, s.queued);
    if w.ok {
      WriteRefillSame(l, w.inflight, s.queued, |s.inflight|, w.sends);
      SameAlike(t.All(), w.inflight + s.queued);
      WriteRefillShrinks(l, w.inflight, s.queued, |s.inflight|, w.sends);
      AlikeTrans(t.All(), w.inflight + s.queued, s.All());
    }
    MovedFifo(l, s, t);
  }

  lemma NoneGone(c: Counts)
    ensures MinusAll(c, []) == c
  {
  }

  lemma UpdateFifo(l: Limits, s: Session, mid: int)
    requires Fifo(l, s)
    ensures var t := Step(l, s, Updating(mid)).session; Fifo(l, t) && Same(t.All(), s.All())
  {
    hide Total, Add, Update;
    var t := Step(l, s, Updating(mid)).session;
    UpdateSame(s.inflight, mid, Out, WaitForPubcomp);
    SameJoin(t.inflight, s.inflight, s.queued, s.queued);
    SameAlike(t.All(), s.All());
    MovedFifo(l, s, t);
  }

  lemma TakeOverFifo(l: Limits, s: Session)
    requires Fifo(l, s)
    ensures Fifo(l, TakeOver(l, s)) && Same(TakeOver(l, s).All(), s.All())
  {
    hide Total, Add, TakeOver;
    var t := TakeOver(l, s);
    PartsPlain(s);
    TakeOverIs(l, s);
    AlikeFacts(t.All(), s.All());
    AlikeOrdered(t.All(), s.All(), s.inserted);
  }

  // ----- what is sent first, and in which order -----

  /** A message in flight that was never sent is due to be sent; none is in the QoS 0 state. */
  predicate Tidy(q: seq<Msg>) {
    forall i :: 0 <= i < |q| ==>
      q[i].state != PublishQos0 && (q[i].dir == Out && !q[i].dup ==> q[i].state == PublishState(q[i].qos))
  }

  /** Nothing in the queue was ever sent. */
  predicate Untouched(q: seq<Msg>) {
    forall i :: 0 <= i < |q| ==> !q[i].dup
  }

  /** The outbound messages never sent so far, by serial number. */
  function Unsent(q: seq<Msg>): seq<nat> {
    if q == [] then [] else MaybeUnsent(q[0]) + Unsent(q[1..])
  }

  /** Those that `sent` transmits for the first time. */
  function Firsts(sent: seq<Sent>): seq<nat> {
    if sent == [] then []
    else
      (if sent[0].SentPublish? && sent[0].m.dir == Out && !sent[0].m.dup then [sent[0].m.serial] else [])
      + Firsts(sent[1..])
  }

  predicate Increasing(ns: seq<nat>) {
    forall i, j :: 0 <= i < j < |ns| ==> ns[i] < ns[j]
  }

  lemma {:induction false} UnsentJoin(a: seq<Msg>, b: seq<Msg>)
    ensures Unsent(a + b) == Unsent(a) + Unsent(b)
  {
    if a == [] {
      assert a + b == b;
    } else {
      assert (a + b)[1..] == a[1..] + b;
      UnsentJoin(a[1..], b);
    }
  }

  lemma {:induction false} UnsentSame(a: seq<Msg>, b: seq<Msg>)
    requires Same(a, b)
    ensures Unsent(a) == Unsent(b)
  {
    if a != [] {
      assert a[0].(state := Queued) == b[0].(state := Queued);
      UnsentSame(a[1..], b[1..]);
    }
  }

  lemma {:induction false} FirstsJoin(a: seq<Sent>, b: seq<Sent>)
    ensures Firsts(a + b) == Firsts(a) + Firsts(b)
  {
    if a == [] {
      assert a + b == b;
    } else {
      assert (a + b)[1..] == a[1..] + b;
      FirstsJoin(a[1..], b);
    }
  }

  lemma {:induction false} NoFirsts(sent: seq<Sent>)
    requires forall i :: 0 <= i < |sent| ==> sent[i].SentPubrec?
    ensures Firsts(sent) == []
  {
    if sent != [] {
      NoFirsts(sent[1..]);
    }
  }

  lemma {:induction false} UnsentBounds(q: seq<Msg>, low: nat, n: nat)
    requires Ordered(q, n) && forall i :: 0 <= i < |q| ==> low <= q[i].serial
    ensures Increasing(Unsent(q))
    ensures forall k :: 0 <= k < |Unsent(q)| ==> low <= Unsent(q)[k] < n
  {
    if q != [] {
      UnsentBounds(q[1..], q[0].serial + 1, n);
    }
  }

  function MaybeUnsent(m: Msg): seq<nat> {
    if m.dir == Out && !m.dup then [m.serial] else []
  }

  lemma UnsentFirst(m: Msg, q: seq<Msg>)
    ensures Unsent([m] + q) == MaybeUnsent(m) + Unsent(q)
  {
    assert ([m] + q)[1..] == q;
  }

  /** Sending what is due: a message never sent before is sent now, others are not sent first. */
  lemma DueSends(m: Msg, sent: seq<Sent>)
    requires Tidy([m])
    ensures Firsts(Due(m) + sent) == MaybeUnsent(m) + Firsts(sent)
    ensures Due(m) == [] ==> MaybeUnsent(m) == []
    ensures Due(m) != [] ==> MaybeUnsent(AfterSend(m)) == [] && Tidy([AfterSend(m)])
  {
    assert [m][0] == m;
    if Due(m) == [] {
      assert Due(m) + sent == sent;
    } else {
      assert (Due(m) + sent)[1..] == sent;
    }
  }

  /** Writing sends a front part of the unsent messages, in order, and leaves the others unsent. */
  lemma {:induction false} WriteInflightSends(q: seq<Msg>, sends: nat)
    requires Tidy(q)
    ensures var w := WriteInflight(q, sends);
            Firsts(w.sent) + Unsent(w.inflight) == Unsent(q) && Tidy(w.inflight)
    decreases |q|
  {
    hide Unsent, Firsts, Due, AfterSend, MaybeUnsent;
    if q == [] || (Due(q[0]) != [] && sends == 0) {
      NothingSent();
      assert [] + Unsent(q) == Unsent(q);
    } else {
      var m, rest := q[0], q[1..];
      var left, n := if Due(m) == [] then sends else sends - 1, if Due(m) == [] then m else AfterSend(m);
      var v, w := WriteInflight(rest, left), WriteInflight(q, sends);
      WriteInflightSends(rest, left);
      DueSends(m, v.sent);
      assert w.inflight == [n] + v.inflight && w.sent == Due(m) + v.sent;
      assert q == [m] + rest;
      UnsentFirst(m, rest);
      UnsentFirst(n, v.inflight);
      assert MaybeUnsent(m) + (Firsts(v.sent) + Unsent(v.inflight)) == Firsts(w.sent) + Unsent(w.inflight);
    }
  }

  lemma NothingSent()
    ensures Firsts([]) == []
  {
  }

  lemma {:induction false} RefillTidy(l: Limits, f: seq<Msg>, q: seq<Msg>, index: int)
    requires Tidy(f) && Untouched(q) && NoQos0(q) && Proper(q)
    ensures var r := Refill(l, f, q, index); Tidy(r.inflight) && Untouched(r.queued)
    decreases |q|
  {
    if q != [] && RoomAt(l, index) {
      var m := q[0].(state := if q[0].dir == Out then PublishState(q[0].qos) else WaitForPubrel);
      RefillTidy(l, f + [m], q[1..], index + 1);
    }
  }

  lemma {:induction false} WriteRefillTidy(l: Limits, f: seq<Msg>, q: seq<Msg>, index: int, sends: nat)
    requires Tidy(f) && Untouched(q) && NoQos0(q) && Proper(q)
    ensures var r := WriteRefill(l, f, q, index, sends);
            Tidy(r.inflight) && Untouched(r.queued) && Firsts(r.sent) == []
    decreases |q|
  {
    if q != [] && RoomAt(l, index) && !(q[0].dir == In && sends == 0) {
      var m := q[0].(state := if q[0].dir == Out then PublishState(q[0].qos) else WaitForPubrel);
      var r := WriteRefill(l, f + [m], q[1..], index + 1, if q[0].dir == Out then sends else sends - 1);
      WriteRefillTidy(l, f + [m], q[1..], index + 1, if q[0].dir == Out then sends else sends - 1);
      if q[0].dir == In {
        assert ([SentPubrec(q[0].mid)] + r.sent)[1..] == r.sent;
      }
    }
  }

  lemma ResetTidy(q: seq<Msg>)
    requires Tidy(q) && NoQos0(q) && Proper(q)
    ensures Tidy(ResetInflight(q))
  {
  }

  lemma {:induction false} ResetQueueTidy(l: Limits, f: seq<Msg>, q: seq<Msg>, i: nat, c: Counts)
    requires i <= |q| && Tidy(f) && Untouched(q) && NoQos0(q) && Proper(q)
    requires i > 0 ==> !ReadyForFlight(l, c, 1)
    ensures var r := ResetQueue(l, f, q, i, c); Tidy(r.0) && Untouched(r.1)
    decreases |q|, |q| - i
  {
    if i < |q| {
      var d := Plus(c, q[i]);
      if ReadyForFlight(l, d, q[i].qos) {
        var m := q[0].(state := PublishState(q[0].qos));
        assert i == 0 && q[0 := m][1..] == q[1..];
        ResetQueueTidy(l, f + [m], q[1..], 0, d);
      } else {
        ResetQueueTidy(l, f, q, i + 1, d);
      }
    }
  }

  lemma {:induction false} UpdateTidy(q: seq<Msg>, mid: int)
    requires Tidy(q) && forall i :: 0 <= i < |q| && q[i].Is(mid, Out) ==> q[i].dup
    ensures Tidy(Update(q, mid, Out, WaitForPubcomp))
  {
    if q != [] && !q[0].Is(mid, Out) {
      UpdateTidy(q[1..], mid);
      assert Update(q, mid, Out, WaitForPubcomp) == [q[0]] + Update(q[1..], mid, Out, WaitForPubcomp);
    }
  }

  lemma {:induction false} KeptTidy(q: seq<Msg>, mid: int, dir: Direction)
    requires Tidy(q)
    ensures Tidy(Kept(q, mid, dir))
  {
    if q != [] {
      KeptTidy(q[..|q| - 1], mid, dir);
    }
  }

  // ----- every step -----

  predicate InOrder(l: Limits, s: Session) {
    Fifo(l, s) && Tidy(s.inflight) && Untouched(s.queued)
  }

  /** Also, PUBREC comes only for messages that were sent. */
  predicate FairStep(s: Session, e: Event) {
    Fair(s, e) && (e.Updating? ==> forall m <- s.inflight :: m.Is(e.mid, Out) ==> m.dup)
  }

  /** What is left of the session's one queue after a step. */
  function After(l: Limits, s: Session, e: Event): seq<Msg> {
    match e
    case Inserting(n, known, already) =>
      var p := PlaceOf(l, s, n, known, already);
      if p.Nowhere? then s.All() else s.All() + [Made(s, n, p)]
    case Deleting(mid) => Kept(s.inflight, mid, Out) + s.queued
    case Releasing(mid) => Kept(s.inflight, mid, In) + s.queued
    case Clearing => []
    case _ => s.All()
  }

  /** One queue: an insertion adds at the end or nothing, an acknowledgement removes its target, and all
    * other steps leave the messages and their order alone, wherever they move between the lists. */
  lemma StepFifo(l: Limits, s: Session, e: Event)
    requires InOrder(l, s) && FairStep(s, e)
    ensures InOrder(l, Step(l, s, e).session)
    ensures Alike(Step(l, s, e).session.All(), After(l, s, e))
    ensures !e.Writing? ==> Same(Step(l, s, e).session.All(), After(l, s, e))
  {
    hide Total, Add, Kept, Refill, Fifo, Tidy, Write, Insert, Update, TakeOver;
    var t := Step(l, s, e).session;
    FifoParts(l, s);
    match e
    case Inserting(n, known, already) =>
      InsertFifo(l, s, n, known, already);
      InsertTidy(l, s, n, known, already);
      SameAlike(t.All(), t.All());
    case Deleting(mid) => TakenInOrder(l, s, mid, Out, |Kept(s.inflight, mid, Out)|);
    case Releasing(mid) =>
      KeptOrdered(s.inflight, s.queued, s.inserted, mid, In);
      KeptMembers(s.inflight, mid, In);
      TakenInOrder(l, s, mid, In, |s.inflight|);
    case Updating(mid) =>
      UpdateFifo(l, s, mid);
      UpdateTidy(s.inflight, mid);
      SameAlike(t.All(), s.All());
    case Writing(sends) =>
      if s.online {
        WriteInOrder(l, s, sends);
      }
    case Offline => OfflineFifo(l, s);
    case Back =>
      TakeOverFifo(l, s);
      TakeOverTidy(l, s);
      SameAlike(t.All(), s.All());
    case Clearing => ClearFifo(l, s);
  }

  lemma FifoParts(l: Limits, s: Session)
    requires Fifo(l, s)
    ensures Ordered(s.All(), s.inserted)
    ensures Proper(s.inflight) && NoQos0(s.inflight) && Proper(s.queued) && NoQos0(s.queued)
  {
    PartsPlain(s);
  }

  lemma InsertTidy(l: Limits, s: Session, n: New, known: bool, already: bool)
    requires InOrder(l, s) && FairStep(s, Inserting(n, known, already))
    ensures var t := Insert(l, s, n, known, already); Tidy(t.inflight) && Untouched(t.queued)
  {
  }

  lemma TakenInOrder(l: Limits, s: Session, mid: int, dir: Direction, index: int)
    requires InOrder(l, s)
    requires |Kept(s.inflight, mid, dir)| <= index <= |Kept(s.inflight, mid, dir)| + 1
    ensures var t := Refilled(l, Taken(s, mid, dir), index);
            && InOrder(l, t) && Same(t.All(), Kept(s.inflight, mid, dir) + s.queued)
            && Alike(t.All(), Kept(s.inflight, mid, dir) + s.queued)
  {
    hide Fifo, Total, Kept, Refill, Tidy, Dropped, MinusAll;
    FifoParts(l, s);
    TakenFifo(l, s, mid, dir, index);
    KeptTidy(s.inflight, mid, dir);
    RefillTidy(l, Kept(s.inflight, mid, dir), s.queued, index);
    SameAlike(Refilled(l, Taken(s, mid, dir), index).All(), Kept(s.inflight, mid, dir) + s.queued);
  }

  lemma OfflineFifo(l: Limits, s: Session)
    requires Fifo(l, s)
    ensures Fifo(l, s.(online := false))
  {
  }

  lemma ClearFifo(l: Limits, s: Session)
    requires Fifo(l, s)
    ensures Fifo(l, Clear(s)) && Tidy([])
  {
    hide Total, Add;
    TotalNone();
    AddNone(NONE);
  }

  lemma TakeOverTidy(l: Limits, s: Session)
    requires InOrder(l, s)
    ensures Tidy(TakeOver(l, s).inflight) && Untouched(TakeOver(l, s).queued)
  {
    hide Fifo, Tidy, Total, Add, ResetQueue, ResetInflight, ResetFlight;
    FifoParts(l, s);
    ResetTidy(s.inflight);
    ResetFlightIs(s.inflight, NONE);
    ResetQueueTidy(l, ResetInflight(s.inflight), s.queued, 0, Add(NONE, Total(s.inflight)));
  }

  /** Writing keeps everything in order and sends a front part of what was never sent. */
  lemma WriteInOrder(l: Limits, s: Session, sends: nat)
    requires InOrder(l, s)
    ensures var w := Write(l, s, sends);
            && InOrder(l, w.0) && Alike(w.0.All(), s.All())
            && Firsts(w.1) + Unsent(w.0.All()) == Unsent(s.All())
  {
    hide Fifo, WriteInflight, WriteRefill, MinusAll, Proper, NoQos0, Unsent, Firsts;
    var w, r := WriteInflight(s.inflight, sends), Write(l, s, sends);
    FifoParts(l, s);
    WriteFifo(l, s, sends);
    WriteInflightSends(s.inflight, sends);
    UnsentJoin(s.inflight, s.queued);
    UnsentJoin(w.inflight, s.queued);
    if w.ok {
      var t := WriteRefill(l, w.inflight, s.queued, |s.inflight|, w.sends);
      WriteRefillTidy(l, w.inflight, s.queued, |s.inflight|, w.sends);
      WriteRefillSame(l, w.inflight, s.queued, |s.inflight|, w.sends);
      UnsentSame(r.0.All(), w.inflight + s.queued);
      FirstsJoin(w.sent, t.sent);
    }
    assert Firsts(w.sent) + (Unsent(w.inflight) + Unsent(s.queued)) == Unsent(s.inflight) + Unsent(s.queued);
  }

  // ----- every run -----

  predicate FairRun(l: Limits, s: Session, es: seq<Event>)
    decreases |es|
  {
    es == [] || (FairStep(s, es[0]) && FairRun(l, Step(l, s, es[0]).session, es[1..]))
  }

  /** The outbound messages in the order of their first transmissions. */
  function Transmitted(l: Limits, s: Session, es: seq<Event>): seq<nat>
    decreases |es|
  {
    if es == [] then [] else Firsts(Step(l, s, es[0]).sent) + Transmitted(l, Step(l, s, es[0]).session, es[1..])
  }

  /** Over every run from a new session, however often the client leaves and comes back: both lists
    * together hold the messages in the order in which they were inserted. */
  lemma {:induction false} RunFifo(l: Limits, s: Session, es: seq<Event>)
    requires InOrder(l, s) && FairRun(l, s, es)
    ensures InOrder(l, Run(l, s, es))
    decreases |es|
  {
    hide InOrder, FairStep;
    if es != [] {
      StepFifo(l, s, es[0]);
      RunFifo(l, Step(l, s, es[0]).session, es[1..]);
    }
  }

  lemma FreshInOrder(l: Limits)
    ensures InOrder(l, FRESH)
  {
    hide Total, Add;
    TotalNone();
    AddNone(NONE);
  }

  /** Everything never sent before a step other than Writing was never sent after it, and what is new
    * has the next serial number. */
  lemma StepUnsent(l: Limits, s: Session, e: Event)
    requires InOrder(l, s) && FairStep(s, e)
    ensures var o := Step(l, s, e);
            && s.inserted <= o.session.inserted
            && (e.Writing? && s.online ==>
                  Firsts(o.sent) + Unsent(o.session.All()) == Unsent(s.All()) && o.session.inserted == s.inserted)
            && (!(e.Writing? && s.online) ==> Firsts(o.sent) == [])
            && (forall u <- Unsent(o.session.All()) :: u in Unsent(s.All()) || u >= s.inserted)
  {
    hide Fifo, Kept, Refill, Write, Insert, Tidy, Unsent, Firsts, Update, TakeOver;
    StepFifo(l, s, e);
    StepCounts(l, s, e);
    var o := Step(l, s, e);
    if e.Writing? && s.online {
      WriteInOrder(l, s, e.sends);
      assert forall u <- Unsent(o.session.All()) :: u in Unsent(s.All());
    } else {
      NoFirsts(o.sent);
      if !e.Writing? {
        UnsentSame(o.session.All(), After(l, s, e));
        AfterUnsent(l, s, e);
      }
    }
  }

  lemma StepCounts(l: Limits, s: Session, e: Event)
    ensures s.inserted <= Step(l, s, e).session.inserted
    ensures e.Writing? ==> s.inserted == Step(l, s, e).session.inserted
  {
    hide ResetQueue, WriteInflight, WriteRefill, Refill, Kept;
  }

  lemma AfterUnsent(l: Limits, s: Session, e: Event)
    ensures forall u <- Unsent(After(l, s, e)) :: u in Unsent(s.All()) || u >= s.inserted
  {
    hide Kept, Unsent, PlaceOf;
    match e
    case Inserting(n, known, already) =>
      var p := PlaceOf(l, s, n, known, already);
      if !p.Nowhere? {
        UnsentJoin(s.All(), [Made(s, n, p)]);
        UnsentOne(Made(s, n, p));
      }
    case Deleting(mid) => KeptUnsent(s.inflight, s.queued, mid, Out);
    case Releasing(mid) => KeptUnsent(s.inflight, s.queued, mid, In);
    case Clearing => UnsentNone();
    case _ =>
  }

  lemma UnsentNone()
    ensures Unsent([]) == []
  {
  }

  lemma UnsentOne(m: Msg)
    ensures forall u <- Unsent([m]) :: u == m.serial
  {
    assert [m][1..] == [];
  }

  lemma {:induction false} KeptUnsent(q: seq<Msg>, rest: seq<Msg>, mid: int, dir: Direction)
    ensures forall u <- Unsent(Kept(q, mid, dir) + rest) :: u in Unsent(q + rest)
    decreases |q|
  {
    hide Unsent;
    if q == [] {
      assert Kept(q, mid, dir) + rest == q + rest;
    } else {
      var front, m := q[..|q| - 1], q[|q| - 1];
      var k := Kept(front, mid, dir);
      assert front + ([m] + rest) == q + rest;
      if m.Is(mid, dir) {
        assert Kept(q, mid, dir) == k;
        KeptUnsent(front, rest, mid, dir);
        UnsentJoin(front, rest);
        UnsentJoin(front, [m] + rest);
        UnsentJoin([m], rest);
      } else {
        assert Kept(q, mid, dir) == k + [m];
        assert k + [m] + rest == k + ([m] + rest);
        KeptUnsent(front, [m] + rest, mid, dir);
      }
    }
  }

  /** First transmissions happen in the order of insertion, over every run: a message is sent for the
    * first time at most once, and never before one that was inserted earlier. */
  lemma {:induction false} FirstsInOrder(l: Limits, s: Session, es: seq<Event>)
    requires InOrder(l, s) && FairRun(l, s, es)
    ensures var ns := Transmitted(l, s, es);
            Increasing(ns) && forall k :: 0 <= k < |ns| ==> ns[k] in Unsent(s.All()) || ns[k] >= s.inserted
    decreases |es|
  {
    hide InOrder, FairStep, Unsent, Firsts, Step, Increasing;
    NoneIncreasing();
    if es != [] {
      var o := Step(l, s, es[0]);
      StepFifo(l, s, es[0]);
      StepUnsent(l, s, es[0]);
      FirstsInOrder(l, o.session, es[1..]);
      var now, later := Firsts(o.sent), Transmitted(l, o.session, es[1..]);
      assert Transmitted(l, s, es) == now + later;
      if es[0].Writing? && s.online {
        InOrderBounds(l, s);
        NowThenLater(now, Unsent(o.session.All()), later, s.inserted);
      } else {
        assert now + later == later;
      }
    }
  }

  lemma NoneIncreasing()
    ensures Increasing([])
  {
  }

  lemma InOrderBounds(l: Limits, s: Session)
    requires InOrder(l, s)
    ensures Increasing(Unsent(s.All())) && forall k :: 0 <= k < |Unsent(s.All())| ==> Unsent(s.All())[k] < s.inserted
  {
    FifoParts(l, s);
    UnsentBounds(s.All(), 0, s.inserted);
  }

  lemma NowThenLater(now: seq<nat>, left: seq<nat>, later: seq<nat>, n: nat)
    requires Increasing(now + left) && forall k :: 0 <= k < |now + left| ==> (now + left)[k] < n
    requires Increasing(later) && forall k :: 0 <= k < |later| ==> later[k] in left || later[k] >= n
    ensures Increasing(now + later)
    ensures forall k :: 0 <= k < |now + later| ==> (now + later)[k] in now + left || (now + later)[k] >= n
  {
    forall i, j | 0 <= i < |now| && 0 <= j < |later| ensures now[i] < later[j] {
      assert (now + left)[i] == now[i];
      if later[j] in left {
        var k :| 0 <= k < |left| && left[k] == later[j];
        assert (now + left)[|now| + k] == left[k];
      }
    }
    forall i, j | 0 <= i < j < |now| ensures now[i] < now[j] {
      assert (now + left)[i] == now[i] && (now + left)[j] == now[j];
    }
  }
}
