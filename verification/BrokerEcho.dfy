/** Inbound messages that wait to be answered: over every run, exactly when the broker publishes one of
  * them back to its own publisher. */
module BrokerEcho {
  import opened Stores
  import opened BrokerSpec
  import opened BrokerProofs
  import opened BrokerOrder
  import opened BrokerSequence
  import opened BrokerResume
  import opened BrokerReceived

  /** `m` is the inbound QoS 2 message number `x`, with identifier `mid`. */
  predicate Source(m: Msg, x: nat, mid: int) {
    m.serial == x && m.Is(mid, In) && m.qos == 2
  }

  /** It waits. */
  predicate Waits(s: Session, x: nat, mid: int) {
    exists m :: m in s.queued && Source(m, x, mid) && m.state == Queued
  }

  /** It is in flight and to be published. */
  predicate Turned(s: Session, x: nat, mid: int) {
    exists m :: m in s.inflight && Source(m, x, mid) && m.state == PublishQos2
  }

  /** It is answered, sent or gone. */
  predicate Quiet(s: Session, x: nat) {
    && x < s.inserted && (forall m <- s.queued :: m.serial != x)
    && forall m <- s.inflight :: m.serial == x ==> m.dir == In && m.qos == 2 && !ToPublish(m)
  }

  /** A takeover moves it in its turn while it waits. */
  predicate Turns(l: Limits, s: Session, e: Event, x: nat) {
    e.Back? && exists i :: 0 <= i < |s.queued| && s.queued[i].serial == x && i < Moves(l, s)
  }

  /** PUBREL comes for its identifier, or the session is cleared. */
  predicate Takes(e: Event, mid: int) {
    e == Releasing(mid) || e.Clearing?
  }

  // ----- where a message is after a step -----

  lemma {:induction false} QueuedRefill(l: Limits, f: seq<Msg>, q: seq<Msg>, index: int, m: Msg)
    requires m in q && m.dir == In
    ensures var r := Refill(l, f, q, index); m in r.queued || m.(state := WaitForPubrel) in r.inflight
    decreases |q|
  {
    if q != [] && RoomAt(l, index) && !(q[0].dir == In && q[0].qos != 2) {
      var n := q[0].(state := if q[0].dir == Out then PublishState(q[0].qos) else WaitForPubrel);
      assert q == [q[0]] + q[1..];
      if m in q[1..] {
        QueuedRefill(l, f + [n], q[1..], index + 1, m);
      } else {
        InRefill(l, f + [n], q[1..], index + 1, n);
      }
    }
  }

  /** Answered, or to be answered after a failed send. */
  predicate AnsweredIn(q: seq<Msg>, m: Msg) {
    m.(state := WaitForPubrel) in q || m.(state := SendPubrec) in q
  }

  lemma {:induction false} QueuedWriteRefill(l: Limits, f: seq<Msg>, q: seq<Msg>, index: int, sends: nat, m: Msg)
    requires m in q && m.dir == In
    ensures var r := WriteRefill(l, f, q, index, sends); m in r.queued || AnsweredIn(r.inflight, m)
    decreases |q|
  {
    if q != [] && RoomAt(l, index) && !(q[0].dir == In && q[0].qos != 2) {
      var r := WriteRefill(l, f, q, index, sends);
      assert q == [q[0]] + q[1..];
      if q[0].dir == In && sends == 0 {
        assert q[0].(state := SendPubrec) in r.inflight;
      } else {
        var n := q[0].(state := if q[0].dir == Out then PublishState(q[0].qos) else WaitForPubrel);
        var left := if q[0].dir == Out then sends else sends - 1;
        if m in q[1..] {
          QueuedWriteRefill(l, f + [n], q[1..], index + 1, left, m);
        } else {
          InWriteRefill(l, f + [n], q[1..], index + 1, left, n);
        }
      }
    }
  }

  lemma {:induction false} InFlightReset(q: seq<Msg>, c: Counts, m: Msg)
    requires m in q && m.dir == In && m.qos == 2
    ensures m in ResetFlight(q, c).kept
    decreases |q|
  {
    hide Plus, Minus;
    assert q == [q[0]] + q[1..];
    if !Stray(q[0]) {
      if m in q[1..] {
        InFlightReset(q[1..], Plus(c, q[0]), m);
      }
    } else if |q| > 1 {
      assert q[1..] == [q[1]] + q[2..];
      if m in q[2..] {
        InFlightReset(q[2..], Minus(Plus(c, q[0]), q[0]), m);
      }
    }
  }

  /** The writer gets to a message and marks it, or leaves it as it is. */
  lemma {:induction false} WrittenAt(q: seq<Msg>, sends: nat, p: nat)
    requires p < |q| && q[p].state != PublishQos0
    ensures (if Reached(q, p, sends) then AfterSend(q[p]) else q[p]) in WriteInflight(q, sends).inflight
    decreases |q|
  {
    hide AfterSend;
    var left := if Due(q[0]) == [] then sends else sends - 1;
    if p == 0 {
      assert q[..0] == [];
      NotDue(q[0]);
    } else if Due(q[0]) == [] || sends > 0 {
      assert q[..p][0] == q[0] && q[..p][1..] == q[1..][..p - 1];
      DuePublishes(q[0], 0);
      WrittenAt(q[1..], left, p - 1);
    }
  }

  lemma NotDue(m: Msg)
    ensures Due(m) == [] ==> AfterSend(m) == m
  {
  }

  /** An inbound message in flight that is not taken stays there, and only the writer changes it. */
  lemma FlightStep(l: Limits, s: Session, e: Event, p: nat)
    requires p < |s.inflight| && s.inflight[p].dir == In && s.inflight[p].qos == 2
    requires s.inflight[p].state != PublishQos0 && !Takes(e, s.inflight[p].mid)
    ensures var m := s.inflight[p];
            (if e.Writing? && s.online && Reached(s.inflight, p, e.sends) then AfterSend(m) else m) in
            Step(l, s, e).session.inflight
  {
    hide Kept, Refill, Update, PlaceOf, AfterSend, MinusAll, Dropped, WriteInflight, WriteRefill, ResetFlight;
    hide ResetQueue;
    hide Reached;
    var m := s.inflight[p];
    match e
    case Inserting(_, _, _) =>
    case Deleting(mid) =>
      InKept(s.inflight, mid, Out, m);
      InRefill(l, Kept(s.inflight, mid, Out), s.queued, |Kept(s.inflight, mid, Out)|, m);
    case Releasing(mid) =>
      InKept(s.inflight, mid, In, m);
      InRefill(l, Kept(s.inflight, mid, In), s.queued, |s.inflight|, m);
    case Updating(mid) => InUpdateOther(s.inflight, mid, m);
    case Writing(sends) =>
      if s.online {
        var w, n := WriteInflight(s.inflight, sends), if Reached(s.inflight, p, sends) then AfterSend(m) else m;
        WrittenAt(s.inflight, sends, p);
        if w.ok {
          InWriteRefill(l, w.inflight, s.queued, |s.inflight|, w.sends, n);
        }
      }
    case Offline =>
    case Back =>
      var g := ResetFlight(s.inflight, NONE);
      InFlightReset(s.inflight, NONE, m);
      InResetQueue(l, g.kept, s.queued, 0, g.counts, m);
  }

  /** A message that waits goes on waiting, or is moved and answered, unless there is a takeover. */
  lemma QueueStep(l: Limits, s: Session, e: Event, m: Msg)
    requires m in s.queued && m.dir == In && !e.Back? && !e.Clearing?
    ensures var t := Step(l, s, e).session; m in t.queued || AnsweredIn(t.inflight, m)
  {
    hide Kept, Refill, PlaceOf, MinusAll, Dropped, WriteInflight, WriteRefill;
    match e
    case Deleting(mid) => QueuedRefill(l, Kept(s.inflight, mid, Out), s.queued, |Kept(s.inflight, mid, Out)|, m);
    case Releasing(mid) => QueuedRefill(l, Kept(s.inflight, mid, In), s.queued, |s.inflight|, m);
    case Writing(sends) =>
      if s.online {
        var w := WriteInflight(s.inflight, sends);
        QueuedWriteRefill(l, w.inflight, s.queued, |s.inflight|, w.sends, m);
      }
    case _ =>
  }

  // ----- what no step brings back -----

  predicate Absent(s: Session, x: nat) {
    x < s.inserted && forall m <- s.All() :: m.serial != x
  }

  lemma StepAbsent(l: Limits, s: Session, e: Event, x: nat)
    requires Absent(s, x)
    ensures Absent(Step(l, s, e).session, x)
  {
    hide PlaceOf, Part, Idents;
    var t := Step(l, s, e).session;
    if e.Inserting? && !PlaceOf(l, s, e.n, e.known, e.already).Nowhere? {
      InAll(s);
      InAll(t);
    } else {
      StepThins(l, s, e);
      PartAbsent(t.All(), s.All(), x);
    }
  }

  lemma InAll(s: Session)
    ensures forall m :: m in s.All() <==> m in s.inflight || m in s.queued
  {
  }

  lemma PartAbsent(a: seq<Msg>, b: seq<Msg>, x: nat)
    requires Part(Idents(a), Idents(b)) && forall m <- b :: m.serial != x
    ensures forall m <- a :: m.serial != x
  {
    PartIn(Idents(a), Idents(b));
    forall i | 0 <= i < |a| ensures a[i].serial != x {
      assert Idents(a)[i] in Idents(b);
      var j :| 0 <= j < |b| && Idents(b)[j] == Idents(a)[i];
      assert Ident(a[i]).serial == b[j].serial && b[j] in b;
    }
  }

  lemma {:induction false} KeptOnly(q: seq<Msg>, mid: int, dir: Direction)
    ensures forall m <- Kept(q, mid, dir) :: m in q && !m.Is(mid, dir)
  {
    if q != [] {
      KeptOnly(q[..|q| - 1], mid, dir);
    }
  }

  lemma OneMessage(s: Session, m: Msg, n: Msg)
    requires Numbered(s) && m in s.All() && n in s.All() && m.serial == n.serial
    ensures m == n
  {
    var i :| 0 <= i < |s.All()| && s.All()[i] == m;
    var j :| 0 <= j < |s.All()| && s.All()[j] == n;
    assert Serials(s.All())[i] == Serials(s.All())[j];
  }

  lemma NotBothLists(s: Session, m: Msg, n: Msg)
    requires Numbered(s) && m in s.inflight && n in s.queued
    ensures m.serial != n.serial
  {
    var i :| 0 <= i < |s.inflight| && s.inflight[i] == m;
    var j :| 0 <= j < |s.queued| && s.queued[j] == n;
    assert s.All()[i] == m && s.All()[|s.inflight| + j] == n;
    assert Serials(s.All())[i] != Serials(s.All())[|s.inflight| + j];
  }

  lemma NumberBelow(s: Session, m: Msg)
    requires Numbered(s) && m in s.All()
    ensures m.serial < s.inserted
  {
    var i :| 0 <= i < |s.All()| && s.All()[i] == m;
    assert Serials(s.All())[i] < s.inserted;
  }

  /** PUBREL takes the message with its identifier. */
  lemma TakenGone(l: Limits, s: Session, e: Event, m: Msg)
    requires Numbered(s) && m in s.inflight && m.dir == In && Takes(e, m.mid)
    ensures Absent(Step(l, s, e).session, m.serial)
  {
    hide Kept, Refill, Dropped, MinusAll, Numbered, Part, Idents;
    var t, x := Step(l, s, e).session, m.serial;
    NumberBelow(s, m);
    if e.Releasing? {
      var kept := Kept(s.inflight, e.mid, In);
      KeptOnly(s.inflight, e.mid, In);
      forall n | n in kept + s.queued ensures n.serial != x {
        if n in kept && n.serial == x {
          OneMessage(s, m, n);
        }
        if n in s.queued {
          NotBothLists(s, m, n);
        }
      }
      RefillSame(l, kept, s.queued, |s.inflight|);
      SameAlike(t.All(), kept + s.queued);
      SameIdents(t.All(), kept + s.queued);
      PartSelf(Idents(kept + s.queued));
      PartAbsent(t.All(), kept + s.queued, x);
    }
  }

  /** Its one message being in flight and not to be published, nothing more comes of it. */
  lemma QuietIf(s: Session, m: Msg)
    requires Numbered(s) && m in s.inflight && m.dir == In && m.qos == 2 && !ToPublish(m)
    ensures Quiet(s, m.serial)
  {
    hide Numbered;
    NumberBelow(s, m);
    forall n | n in s.queued ensures n.serial != m.serial {
      NotBothLists(s, m, n);
    }
    forall n | n in s.inflight && n.serial == m.serial ensures n == m {
      OneMessage(s, m, n);
    }
  }

  lemma AbsentQuiet(s: Session, x: nat)
    requires Absent(s, x)
    ensures Quiet(s, x)
  {
    InAll(s);
  }

  // ----- the steps -----

  /** A waiting message is not published, and is to be published exactly if a takeover moves it in turn. */
  lemma StepWaits(l: Limits, s: Session, e: Event, x: nat, mid: int)
    requires Numbered(s) && Waits(s, x, mid)
    ensures var o := Step(l, s, e);
            && !Publishes(o.sent, x)
            && if Turns(l, s, e, x) then Turned(o.session, x, mid) else Waits(o.session, x, mid) || Quiet(o.session, x)
  {
    hide Step, Numbered, Publishes, Reached, Moves;
    var t := Step(l, s, e).session;
    var m :| m in s.queued && Source(m, x, mid) && m.state == Queued;
    StepPublishesIff(l, s, e, x);
    forall p | 0 <= p < |s.inflight| ensures s.inflight[p].serial != x {
      NotBothLists(s, s.inflight[p], m);
    }
    StepNumbered(l, s, e);
    if e.Back? {
      WaitsBack(l, s, x, mid, m);
    } else if e.Clearing? {
      InAll(s);
      NumberBelow(s, m);
      ClearEmpty(l, s);
      AbsentQuiet(t, x);
    } else {
      QueueStep(l, s, e, m);
      if m.(state := WaitForPubrel) in t.inflight {
        QuietIf(t, m.(state := WaitForPubrel));
      } else if m.(state := SendPubrec) in t.inflight {
        QuietIf(t, m.(state := SendPubrec));
      }
    }
  }

  lemma ClearEmpty(l: Limits, s: Session)
    ensures var t := Step(l, s, Clearing).session; t.All() == [] && t.inserted == s.inserted
  {
  }

  lemma WaitsBack(l: Limits, s: Session, x: nat, mid: int, m: Msg)
    requires Numbered(s) && m in s.queued && Source(m, x, mid) && m.state == Queued
    ensures var t := Step(l, s, Back).session;
            if Turns(l, s, Back, x) then Turned(t, x, mid) else Waits(t, x, mid) || Quiet(t, x)
  {
    hide Step, TakeOver, Numbered, Moves, PlaceOfWaiting;
    var t := TakeOver(l, s);
    var i :| 0 <= i < |s.queued| && s.queued[i] == m;
    BackStep(l, s);
    StepNumbered(l, s, Back);
    WaitingAfter(l, s, i);
    forall j | 0 <= j < |s.queued| && s.queued[j].serial == x ensures j == i {
      WaitsOnce(s, i, j);
    }
    var p := PlaceOfWaiting(s, i);
    if i < Moves(l, s) {
      assert t.inflight[p] == t.All()[p] && t.inflight[p] in t.inflight;
      assert Source(t.inflight[p], x, mid);
    } else if p < |t.inflight| {
      assert t.inflight[p] == t.All()[p];
      QuietIf(t, m);
    } else {
      assert t.queued[p - |t.inflight|] == t.All()[p];
    }
  }

  lemma WaitsOnce(s: Session, i: nat, j: nat)
    requires Numbered(s) && i < |s.queued| && j < |s.queued| && s.queued[i].serial == s.queued[j].serial
    ensures i == j
  {
    var k := |s.inflight|;
    assert s.All()[k + i] == s.queued[i] && s.All()[k + j] == s.queued[j];
    assert Serials(s.All())[k + i] == Serials(s.All())[k + j];
  }

  /** To be published, it is so by the next call of the writer that gets to it, unless it is taken before. */
  lemma StepTurned(l: Limits, s: Session, e: Event, x: nat, mid: int)
    requires Numbered(s) && Turned(s, x, mid)
    ensures var o := Step(l, s, e);
            && (Publishes(o.sent, x) <==> Reaches(s, e, x))
            && if Publishes(o.sent, x) || Takes(e, mid) then Quiet(o.session, x) else Turned(o.session, x, mid)
  {
    hide Step, Numbered, Publishes, Reached, Moves;
    var t := Step(l, s, e).session;
    var m :| m in s.inflight && Source(m, x, mid) && m.state == PublishQos2;
    var p :| 0 <= p < |s.inflight| && s.inflight[p] == m;
    NoneTwice(s);
    StepPublishesIff(l, s, e, x);
    assert e.Writing? ==> (PublishesAt(s.inflight, p, e.sends, x) <==> Reached(s.inflight, p, e.sends));
    StepNumbered(l, s, e);
    if Takes(e, mid) {
      TakenGone(l, s, e, m);
      AbsentQuiet(t, x);
    } else {
      FlightStep(l, s, e, p);
      if Publishes(Step(l, s, e).sent, x) {
        QuietIf(t, AfterSend(m));
      }
    }
  }

  lemma StepQuiet(l: Limits, s: Session, e: Event, x: nat)
    requires Numbered(s) && Quiet(s, x)
    ensures !Publishes(Step(l, s, e).sent, x) && Quiet(Step(l, s, e).session, x)
  {
    hide Step, Numbered, Publishes, Reached, Moves;
    var t := Step(l, s, e).session;
    StepPublishesIff(l, s, e, x);
    StepNumbered(l, s, e);
    if p :| 0 <= p < |s.inflight| && s.inflight[p].serial == x {
      var m := s.inflight[p];
      if Takes(e, m.mid) {
        TakenGone(l, s, e, m);
        AbsentQuiet(t, x);
      } else {
        FlightStep(l, s, e, p);
        QuietIf(t, if m in t.inflight then m else AfterSend(m));
      }
    } else {
      InAll(s);
      StepAbsent(l, s, e, x);
      AbsentQuiet(t, x);
    }
  }

  /** An inbound message that is put in the queue waits. */
  lemma InsertedWaits(l: Limits, s: Session, n: New, known: bool, already: bool)
    requires PlaceOf(l, s, n, known, already).ToQueue? && n.dir == In && n.qos == 2
    ensures Waits(Insert(l, s, n, known, already), s.inserted, n.mid)
  {
    var m := Made(s, n, PlaceOf(l, s, n, known, already));
    assert m in s.queued + [m] && Source(m, s.inserted, n.mid);
  }

  // ----- over every run -----

  /** The takeover at `j` moves it in its turn, and nothing takes it before step `k`. */
  predicate Echoing(l: Limits, s: Session, es: seq<Event>, j: nat, k: nat, x: nat, mid: int)
    requires j < k <= |es|
  {
    Turns(l, Past(l, s, es, j), es[j], x) && forall i :: j < i < k ==> !Takes(es[i], mid)
  }

  lemma {:induction false} PastNumbered(l: Limits, s: Session, es: seq<Event>, k: nat)
    requires Numbered(s) && k <= |es|
    ensures Numbered(Past(l, s, es, k))
    decreases k
  {
    hide Numbered, Step, Past;
    PastStart(l, s, es);
    if k > 0 {
      PastNumbered(l, s, es, k - 1);
      PastNext(l, s, es, k - 1);
      StepNumbered(l, Past(l, s, es, k - 1), es[k - 1]);
    }
  }

  /** As long as nothing publishes it. */
  lemma {:induction false} Followed(l: Limits, s: Session, es: seq<Event>, k: nat, x: nat, mid: int)
    requires Numbered(s) && Waits(s, x, mid) && k <= |es| && forall i :: 0 <= i < k ==> !SentBy(l, s, es, i, x)
    ensures var u := Past(l, s, es, k);
            Waits(u, x, mid) || Quiet(u, x)
            || (Turned(u, x, mid) && exists j :: 0 <= j < k && Echoing(l, s, es, j, k, x, mid))
    decreases k
  {
    hide Numbered, Step, Past, Waits, Quiet, Turned, Turns, Publishes, Reaches;
    PastStart(l, s, es);
    if k > 0 {
      var u, e := Past(l, s, es, k - 1), es[k - 1];
      Followed(l, s, es, k - 1, x, mid);
      PastNumbered(l, s, es, k - 1);
      PastNext(l, s, es, k - 1);
      assert !SentBy(l, s, es, k - 1, x);
      if Waits(u, x, mid) {
        StepWaits(l, u, e, x, mid);
        assert Turns(l, u, e, x) ==> Echoing(l, s, es, k - 1, k, x, mid);
      } else if Quiet(u, x) {
        StepQuiet(l, u, e, x);
      } else {
        var j :| 0 <= j < k - 1 && Echoing(l, s, es, j, k - 1, x, mid);
        StepTurned(l, u, e, x, mid);
        assert !Takes(e, mid) ==> Echoing(l, s, es, j, k, x, mid);
      }
    }
  }

  /** From such a takeover on it is to be published, as long as nothing publishes it. */
  lemma {:induction false} StaysTurned(l: Limits, s: Session, es: seq<Event>, j: nat, k: nat, x: nat, mid: int)
    requires Numbered(s) && Waits(s, x, mid) && j < k <= |es| && Echoing(l, s, es, j, k, x, mid)
    requires forall i :: 0 <= i < k ==> !SentBy(l, s, es, i, x)
    ensures Turned(Past(l, s, es, k), x, mid)
    decreases k
  {
    hide Numbered, Step, Past, Waits, Quiet, Turned, Turns, Publishes, Reaches;
    var u, e := Past(l, s, es, k - 1), es[k - 1];
    PastNumbered(l, s, es, k - 1);
    PastNext(l, s, es, k - 1);
    assert !SentBy(l, s, es, k - 1, x);
    if j == k - 1 {
      Followed(l, s, es, j, x, mid);
      StillWaits(l, u, e, x, mid);
      StepWaits(l, u, e, x, mid);
    } else {
      StaysTurned(l, s, es, j, k - 1, x, mid);
      StepTurned(l, u, e, x, mid);
    }
  }

  lemma StillWaits(l: Limits, s: Session, e: Event, x: nat, mid: int)
    requires Numbered(s) && Turns(l, s, e, x)
    ensures !Quiet(s, x) && !Turned(s, x, mid)
  {
    hide Numbered, Moves;
    var i :| 0 <= i < |s.queued| && s.queued[i].serial == x;
    assert s.queued[i] in s.queued;
    forall m | m in s.inflight ensures m.serial != x {
      NotBothLists(s, m, s.queued[i]);
    }
  }

  /** A waiting inbound message is published, back to its publisher, if and only if a takeover moves it in
    * its turn while it waits, and a later call of the writer gets to it before its PUBREL comes or the
    * session is cleared. */
  lemma EchoedOverRunIff(l: Limits, s: Session, es: seq<Event>, x: nat, mid: int)
    requires Numbered(s) && Waits(s, x, mid)
    ensures (exists k :: 0 <= k < |es| && SentBy(l, s, es, k, x)) <==>
            (exists j, k :: 0 <= j < k < |es| && Echoing(l, s, es, j, k, x, mid)
              && Reaches(Past(l, s, es, k), es[k], x))
  {
    hide Numbered, SentBy, Echoing, Reaches, Past, Waits;
    if k :| 0 <= k < |es| && SentBy(l, s, es, k, x) {
      FirstSent(l, s, es, k, x);
      var i :| 0 <= i <= k && SentBy(l, s, es, i, x) && forall j :: 0 <= j < i ==> !SentBy(l, s, es, j, x);
      FirstSentIsEcho(l, s, es, i, x, mid);
    }
    if j, k :| 0 <= j < k < |es| && Echoing(l, s, es, j, k, x, mid) && Reaches(Past(l, s, es, k), es[k], x) {
      EchoIsSent(l, s, es, j, k, x, mid);
    }
  }

  lemma FirstSentIsEcho(l: Limits, s: Session, es: seq<Event>, k: nat, x: nat, mid: int)
    requires Numbered(s) && Waits(s, x, mid) && k < |es| && SentBy(l, s, es, k, x)
    requires forall i :: 0 <= i < k ==> !SentBy(l, s, es, i, x)
    ensures Reaches(Past(l, s, es, k), es[k], x) && exists j :: 0 <= j < k && Echoing(l, s, es, j, k, x, mid)
  {
    hide Numbered, Step, Past, Waits, Quiet, Turned, Echoing, Publishes, Reaches;
    var u := Past(l, s, es, k);
    Followed(l, s, es, k, x, mid);
    PastNumbered(l, s, es, k);
    if Waits(u, x, mid) {
      StepWaits(l, u, es[k], x, mid);
    } else if Quiet(u, x) {
      StepQuiet(l, u, es[k], x);
    } else {
      StepTurned(l, u, es[k], x, mid);
    }
  }

  lemma EchoIsSent(l: Limits, s: Session, es: seq<Event>, j: nat, k: nat, x: nat, mid: int)
    requires Numbered(s) && Waits(s, x, mid) && j < k < |es| && Echoing(l, s, es, j, k, x, mid)
    requires Reaches(Past(l, s, es, k), es[k], x)
    ensures exists i :: 0 <= i <= k && SentBy(l, s, es, i, x)
  {
    hide Numbered, Step, Past, Waits, Quiet, Turned, Echoing, Publishes, Reaches;
    if forall i :: 0 <= i < k ==> !SentBy(l, s, es, i, x) {
      StaysTurned(l, s, es, j, k, x, mid);
      PastNumbered(l, s, es, k);
      StepTurned(l, Past(l, s, es, k), es[k], x, mid);
      assert SentBy(l, s, es, k, x);
    }
  }

  /** From a new session: after any run, an inbound message is put in the queue; over any further run it is
    * published back under the same condition. */
  lemma InsertedEchoedIff(l: Limits, before: seq<Event>, n: New, known: bool, already: bool, es: seq<Event>)
    requires PlaceOf(l, Run(l, FRESH, before), n, known, already).ToQueue? && n.dir == In && n.qos == 2
    ensures var x, s := Run(l, FRESH, before).inserted, Insert(l, Run(l, FRESH, before), n, known, already);
            (exists k :: 0 <= k < |es| && SentBy(l, s, es, k, x)) <==>
            (exists j, k :: 0 <= j < k < |es| && Echoing(l, s, es, j, k, x, n.mid)
              && Reaches(Past(l, s, es, k), es[k], x))
  {
    hide Numbered, SentBy, Echoing, Reaches, Waits, PlaceOf, Run;
    var was, s := Run(l, FRESH, before), Insert(l, Run(l, FRESH, before), n, known, already);
    FreshNumbered();
    PastNumbered(l, FRESH, before, |before|);
    assert before[..|before|] == before;
    StepNumbered(l, was, Inserting(n, known, already));
    InsertedWaits(l, was, n, known, already);
    EchoedOverRunIff(l, s, es, was.inserted, n.mid);
  }

  lemma FreshNumbered()
    ensures Numbered(FRESH)
  {
  }
}
