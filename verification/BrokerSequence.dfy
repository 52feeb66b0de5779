/** The order of insertion over every run, QoS 0 included: the two lists of a session stay one first-in
  * first-out queue exactly as long as no new message is put in flight past one that waits. */
module BrokerSequence {
  import opened Stores
  import opened BrokerSpec
  import opened BrokerProofs
  import opened BrokerOrder

  /** The messages by the numbers of their insertions. */
  function Serials(q: seq<Msg>): (ns: seq<nat>)
    ensures |ns| == |q| && forall i :: 0 <= i < |q| ==> ns[i] == q[i].serial
  {
    seq(|q|, i requires 0 <= i < |q| => q[i].serial)
  }

  /** Inserted in this order, fewer than `n` so far. */
  predicate Rising(ns: seq<nat>, n: nat) {
    Increasing(ns) && forall i :: 0 <= i < |ns| ==> ns[i] < n
  }

  /** The session holds its messages in the order in which they were inserted. */
  predicate InSequence(s: Session) {
    Rising(Serials(s.All()), s.inserted)
  }

  // ----- leaving out -----

  /** `a` is `b` with some elements left out. */
  predicate Part<T(==)>(a: seq<T>, b: seq<T>) {
    if b == [] then a == [] else Part(a, b[1..]) || (a != [] && a[0] == b[0] && Part(a[1..], b[1..]))
  }

  lemma {:induction false} PartSelf<T>(a: seq<T>)
    ensures Part(a, a)
  {
    if a != [] {
      PartSelf(a[1..]);
    }
  }

  lemma PartOne<T>(x: T)
    ensures Part([], [x]) && Part([x], [x])
  {
    assert [x][1..] == [];
  }

  lemma {:induction false} PartJoin<T>(a: seq<T>, b: seq<T>, c: seq<T>, d: seq<T>)
    requires Part(a, b) && Part(c, d)
    ensures Part(a + c, b + d)
    decreases |b|
  {
    if b == [] {
      assert a + c == c && b + d == d;
    } else {
      assert (b + d)[1..] == b[1..] + d;
      if Part(a, b[1..]) {
        PartJoin(a, b[1..], c, d);
      } else {
        PartJoin(a[1..], b[1..], c, d);
        assert (a + c)[1..] == a[1..] + c;
      }
    }
  }

  lemma {:induction false} PartIn<T>(a: seq<T>, b: seq<T>)
    requires Part(a, b)
    ensures forall x <- a :: x in b
    decreases |b|
  {
    if b != [] {
      if Part(a, b[1..]) {
        PartIn(a, b[1..]);
      } else {
        PartIn(a[1..], b[1..]);
        assert a == [a[0]] + a[1..];
      }
    }
  }

  lemma {:induction false} PartRising(a: seq<nat>, b: seq<nat>, n: nat)
    requires Part(a, b) && Rising(b, n)
    ensures Rising(a, n)
    decreases |b|
  {
    if b != [] {
      if Part(a, b[1..]) {
        PartRising(a, b[1..], n);
      } else {
        PartRising(a[1..], b[1..], n);
        PartIn(a[1..], b[1..]);
        forall i | 0 < i < |a| ensures a[0] < a[i] {
          assert a[i] == a[1..][i - 1] && a[1..][i - 1] in a[1..];
          var j :| 0 <= j < |b[1..]| && b[1..][j] == a[i];
          assert b[j + 1] == a[i];
        }
      }
    }
  }

  /** The parts of the messages that no step changes. */
  function Idents(q: seq<Msg>): (r: seq<Msg>)
    ensures |r| == |q| && forall i :: 0 <= i < |q| ==> r[i] == Ident(q[i])
  {
    seq(|q|, i requires 0 <= i < |q| => Ident(q[i]))
  }

  lemma SerialsJoin(a: seq<Msg>, b: seq<Msg>)
    ensures Serials(a + b) == Serials(a) + Serials(b)
  {
  }

  lemma IdentsJoin(a: seq<Msg>, b: seq<Msg>)
    ensures Idents(a + b) == Idents(a) + Idents(b)
  {
  }

  lemma SameIdents(a: seq<Msg>, b: seq<Msg>)
    requires Alike(a, b)
    ensures Idents(a) == Idents(b)
  {
  }

  lemma {:induction false} PartSerials(a: seq<Msg>, b: seq<Msg>)
    requires Part(Idents(a), Idents(b))
    ensures Part(Serials(a), Serials(b))
    decreases |b|
  {
    if b != [] {
      assert Idents(b)[1..] == Idents(b[1..]) && Serials(b)[1..] == Serials(b[1..]);
      if Part(Idents(a), Idents(b[1..])) {
        PartSerials(a, b[1..]);
      } else {
        assert Idents(a)[1..] == Idents(a[1..]) && Serials(a)[1..] == Serials(a[1..]);
        assert Idents(a)[0].serial == Idents(b)[0].serial;
        PartSerials(a[1..], b[1..]);
      }
    }
  }

  /** Leaving messages out of the front part of a list. */
  lemma FrontThins(a: seq<Msg>, b: seq<Msg>, rest: seq<Msg>)
    requires Part(Idents(a), Idents(b))
    ensures Part(Idents(a + rest), Idents(b + rest))
  {
    PartSelf(Idents(rest));
    PartJoin(Idents(a), Idents(b), Idents(rest), Idents(rest));
    IdentsJoin(a, rest);
    IdentsJoin(b, rest);
  }

  /** One message, kept or left out, before or behind others of which some are left out. */
  lemma OneThins(m: Msg, n: Msg, a: seq<Msg>, b: seq<Msg>)
    requires Ident(m) == Ident(n) && Part(Idents(a), Idents(b))
    ensures Part(Idents([m] + a), Idents([n] + b)) && Part(Idents(a), Idents([n] + b))
    ensures Part(Idents(a + [m]), Idents(b + [n])) && Part(Idents(a), Idents(b + [n]))
  {
    var x, none: seq<Msg> := Ident(m), [];
    PartOne(x);
    assert Idents([m]) == [x] && Idents([n]) == [x];
    IdentsJoin([m], a);
    IdentsJoin([n], b);
    IdentsJoin(a, [m]);
    IdentsJoin(b, [n]);
    PartJoin([x], [x], Idents(a), Idents(b));
    PartJoin(none, [x], Idents(a), Idents(b));
    PartJoin(Idents(a), Idents(b), [x], [x]);
    PartJoin(Idents(a), Idents(b), none, [x]);
    assert none + Idents(a) == Idents(a) && Idents(a) + none == Idents(a);
  }

  lemma {:induction false} KeptThins(q: seq<Msg>, mid: int, dir: Direction)
    ensures Part(Idents(Kept(q, mid, dir)), Idents(q))
  {
    if q == [] {
      PartSelf(Idents(q));
    } else {
      var front, m := q[..|q| - 1], q[|q| - 1];
      KeptThins(front, mid, dir);
      OneThins(m, m, Kept(front, mid, dir), front);
      KeptLast(q, mid, dir);
      assert q == front + [m];
    }
  }

  lemma {:induction false} WriteInflightThins(q: seq<Msg>, sends: nat)
    ensures Part(Idents(WriteInflight(q, sends).inflight), Idents(q))
    decreases |q|
  {
    hide Part;
    if q == [] || (Due(q[0]) != [] && sends == 0) {
      PartSelf(Idents(q));
    } else {
      var m, left := q[0], if Due(q[0]) == [] then sends else sends - 1;
      var v, w := WriteInflight(q[1..], left).inflight, WriteInflight(q, sends).inflight;
      WriteInflightThins(q[1..], left);
      assert q == [m] + q[1..];
      if Due(m) != [] && m.state == PublishQos0 {
        assert w == v;
        OneThins(m, m, v, q[1..]);
      } else {
        OneThins(if Due(m) == [] then m else AfterSend(m), m, v, q[1..]);
      }
    }
  }

  lemma {:induction false} ResetFlightThins(q: seq<Msg>, c: Counts)
    ensures Part(Idents(ResetFlight(q, c).kept), Idents(q))
    decreases |q|
  {
    hide Part;
    if q == [] {
      PartSelf(Idents(q));
    } else {
      var m := q[0];
      assert q == [m] + q[1..];
      if !Stray(m) {
        ResetFlightThins(q[1..], Plus(c, m));
        OneThins(ResetOne(m), m, ResetFlight(q[1..], Plus(c, m)).kept, q[1..]);
      } else {
        PartSelf(Idents([]));
        if |q| == 1 {
          OneThins(m, m, [], []);
          assert q == [m] + [];
        } else {
          var d, n, rest := Minus(Plus(c, m), m), q[1], q[2..];
          ResetFlightThins(rest, d);
          OneThins(n, n, ResetFlight(rest, d).kept, rest);
          assert q[1..] == [n] + rest;
          OneThins(m, m, [n] + ResetFlight(rest, d).kept, q[1..]);
        }
      }
    }
  }

  // ----- the steps -----

  /** A new message for a connected client is put in flight although others wait: there is room in flight,
    * or it has QoS 0, for which the room is not looked at. */
  predicate Overtakes(l: Limits, s: Session, e: Event) {
    && e.Inserting? && e.known && !e.already && s.online && s.queued != [] && !(e.n.dir == In && e.n.qos != 2)
    && (e.n.qos == 0 || ReadyForFlight(l, s.counts, e.n.qos))
  }

  lemma OvertakesIff(l: Limits, s: Session, e: Event)
    ensures Overtakes(l, s, e) <==>
            e.Inserting? && PlaceOf(l, s, e.n, e.known, e.already).ToFlight? && s.queued != []
  {
  }

  lemma TakenThins(l: Limits, s: Session, mid: int, dir: Direction, index: int)
    ensures Part(Idents(Refilled(l, Taken(s, mid, dir), index).All()), Idents(s.All()))
  {
    hide Kept, Refill, Part, MinusAll, Dropped;
    var kept := Kept(s.inflight, mid, dir);
    KeptThins(s.inflight, mid, dir);
    FrontThins(kept, s.inflight, s.queued);
    RefillSame(l, kept, s.queued, index);
    SameAlike(Refilled(l, Taken(s, mid, dir), index).All(), kept + s.queued);
    SameIdents(Refilled(l, Taken(s, mid, dir), index).All(), kept + s.queued);
  }

  lemma WriteThins(l: Limits, s: Session, sends: nat)
    ensures Part(Idents(Write(l, s, sends).0.All()), Idents(s.All()))
  {
    hide WriteInflight, WriteRefill, Part, MinusAll;
    var w, t := WriteInflight(s.inflight, sends), Write(l, s, sends).0;
    WriteInflightThins(s.inflight, sends);
    FrontThins(w.inflight, s.inflight, s.queued);
    if w.ok {
      WriteRefillSame(l, w.inflight, s.queued, |s.inflight|, w.sends);
      SameAlike(t.All(), w.inflight + s.queued);
      SameIdents(t.All(), w.inflight + s.queued);
    }
  }

  lemma TakeOverThins(l: Limits, s: Session)
    ensures Part(Idents(TakeOver(l, s).All()), Idents(s.All()))
  {
    hide ResetFlight, ResetQueue, Part;
    var g, t := ResetFlight(s.inflight, NONE), TakeOver(l, s);
    PartSelf(Idents(s.All()));
    if s.inflight != [] || s.queued != [] {
      ResetFlightThins(s.inflight, NONE);
      FrontThins(g.kept, s.inflight, s.queued);
      ResetQueueSame(l, g.kept, s.queued, 0, g.counts);
      SameAlike(t.All(), g.kept + s.queued);
      SameIdents(t.All(), g.kept + s.queued);
    } else {
      assert t.All() == s.All();
    }
  }

  lemma {:induction false} PartNone<T>(a: seq<T>)
    ensures Part([], a)
  {
    if a != [] {
      PartNone(a[1..]);
    }
  }

  /** Every step but a successful insertion at most leaves messages out: no refill, writing, reset or
    * takeover changes the order, whatever the QoS of the messages and the state of the session. */
  lemma StepThins(l: Limits, s: Session, e: Event)
    requires e.Inserting? ==> PlaceOf(l, s, e.n, e.known, e.already).Nowhere?
    ensures var t := Step(l, s, e).session;
            Part(Idents(t.All()), Idents(s.All())) && t.inserted == s.inserted
  {
    hide Part, Kept, Refill, Dropped, WriteInflight, WriteRefill, ResetFlight, ResetQueue, PlaceOf, MinusAll;
    PartSelf(Idents(s.All()));
    match e
    case Inserting(_, _, _) =>
    case Deleting(mid) => TakenThins(l, s, mid, Out, |Kept(s.inflight, mid, Out)|);
    case Releasing(mid) => TakenThins(l, s, mid, In, |s.inflight|);
    case Updating(mid) =>
      UpdateSame(s.inflight, mid, Out, WaitForPubcomp);
      SameAlike(Update(s.inflight, mid, Out, WaitForPubcomp), s.inflight);
      SameIdents(Update(s.inflight, mid, Out, WaitForPubcomp), s.inflight);
      IdentsJoin(s.inflight, s.queued);
      IdentsJoin(Update(s.inflight, mid, Out, WaitForPubcomp), s.queued);
    case Writing(sends) =>
      if s.online {
        WriteThins(l, s, sends);
      }
    case Offline => assert s.(online := false).All() == s.All();
    case Back => TakeOverThins(l, s);
    case Clearing =>
      PartNone(Idents(s.All()));
      assert Idents(Clear(s).All()) == [];
  }

  /** Where a new message ends up among the others. */
  lemma InsertSerials(l: Limits, s: Session, n: New, known: bool, already: bool)
    requires !PlaceOf(l, s, n, known, already).Nowhere?
    ensures var t := Insert(l, s, n, known, already);
            && t.inserted == s.inserted + 1
            && Serials(t.All()) ==
               (if Overtakes(l, s, Inserting(n, known, already))
                then Serials(s.inflight) + [s.inserted] + Serials(s.queued) else Serials(s.All()) + [s.inserted])
  {
    hide PlaceOf, Overtakes;
    var p := PlaceOf(l, s, n, known, already);
    var m, t := Made(s, n, p), Insert(l, s, n, known, already);
    OvertakesIff(l, s, Inserting(n, known, already));
    if p.ToFlight? {
      assert t.All() == s.inflight + [m] + s.queued;
    } else {
      assert t.All() == s.All() + [m];
    }
  }

  /** A step from a session in sequence leaves it in sequence if and only if it does not overtake. */
  lemma StepInSequenceIff(l: Limits, s: Session, e: Event)
    requires InSequence(s)
    ensures InSequence(Step(l, s, e).session) <==> !Overtakes(l, s, e)
  {
    hide PlaceOf, Overtakes, Part, Serials;
    var t := Step(l, s, e).session;
    OvertakesIff(l, s, e);
    if e.Inserting? && !PlaceOf(l, s, e.n, e.known, e.already).Nowhere? {
      InsertSerials(l, s, e.n, e.known, e.already);
      if Overtakes(l, s, e) {
        var i := |s.inflight|;
        SerialsJoin(s.inflight, s.queued);
        assert |Serials(s.inflight)| == i && |Serials(s.queued)| > 0 by {
          SerialsLength(s.inflight);
          SerialsLength(s.queued);
        }
        assert Serials(s.All())[i] == Serials(s.queued)[0];
        assert Serials(t.All())[i] == s.inserted && Serials(t.All())[i + 1] == Serials(s.queued)[0];
      }
    } else {
      StepThins(l, s, e);
      PartSerials(t.All(), s.All());
      PartRising(Serials(t.All()), Serials(s.All()), s.inserted);
    }
  }

  lemma SerialsLength(q: seq<Msg>)
    ensures |Serials(q)| == |q|
  {
  }

  // ----- every run -----

  /** The session after the first `k` events. */
  function Past(l: Limits, s: Session, es: seq<Event>, k: nat): Session
    requires k <= |es|
  {
    Run(l, s, es[..k])
  }

  lemma {:induction false} PastNext(l: Limits, s: Session, es: seq<Event>, k: nat)
    requires k < |es|
    ensures Past(l, s, es, k + 1) == Step(l, Past(l, s, es, k), es[k]).session
    decreases k
  {
    hide Step;
    var t := Step(l, s, es[0]).session;
    assert es[..k + 1][0] == es[0] && es[..k + 1][1..] == es[1..][..k];
    if k > 0 {
      PastNext(l, t, es[1..], k - 1);
      assert es[..k][0] == es[0] && es[..k][1..] == es[1..][..k - 1];
    } else {
      assert Run(l, t, es[1..][..0]) == t;
    }
  }

  /** Over every run, with messages of every QoS: the two lists are in the order of insertion all the time
    * if and only if no insertion overtakes a waiting message. */
  lemma InSequenceIff(l: Limits, s: Session, es: seq<Event>)
    requires InSequence(s)
    ensures (forall k :: 0 <= k <= |es| ==> InSequence(Past(l, s, es, k))) <==>
            (forall k :: 0 <= k < |es| ==> !Overtakes(l, Past(l, s, es, k), es[k]))
  {
    hide InSequence, Overtakes, Step, Run;
    if forall k :: 0 <= k < |es| ==> !Overtakes(l, Past(l, s, es, k), es[k]) {
      forall k | 0 <= k <= |es| ensures InSequence(Past(l, s, es, k)) {
        StaysInSequence(l, s, es, k);
      }
    }
    if forall k :: 0 <= k <= |es| ==> InSequence(Past(l, s, es, k)) {
      forall k | 0 <= k < |es| ensures !Overtakes(l, Past(l, s, es, k), es[k]) {
        PastNext(l, s, es, k);
        StepInSequenceIff(l, Past(l, s, es, k), es[k]);
      }
    }
  }

  lemma {:induction false} StaysInSequence(l: Limits, s: Session, es: seq<Event>, k: nat)
    requires InSequence(s) && k <= |es|
    requires forall j :: 0 <= j < k ==> !Overtakes(l, Past(l, s, es, j), es[j])
    ensures InSequence(Past(l, s, es, k))
    decreases k
  {
    hide InSequence, Overtakes, Step;
    if k > 0 {
      StaysInSequence(l, s, es, k - 1);
      PastNext(l, s, es, k - 1);
      StepInSequenceIff(l, Past(l, s, es, k - 1), es[k - 1]);
    }
  }

  // ----- QoS 1 and 2 only -----

  /** With QoS 1 and 2 only, a waiting message means that there is no room. */
  lemma FairDoesNotOvertake(l: Limits, s: Session, e: Event)
    requires InOrder(l, s) && FairStep(s, e)
    ensures InSequence(s) && !Overtakes(l, s, e)
  {
  }

  lemma {:induction false} FairAt(l: Limits, s: Session, es: seq<Event>, k: nat)
    requires InOrder(l, s) && FairRun(l, s, es) && k <= |es|
    ensures InOrder(l, Past(l, s, es, k)) && (k < |es| ==> FairStep(Past(l, s, es, k), es[k]))
    decreases k
  {
    hide InOrder, FairStep, Step;
    if k > 0 {
      StepFifo(l, s, es[0]);
      FairAt(l, Step(l, s, es[0]).session, es[1..], k - 1);
      assert es[..k][0] == es[0] && es[..k][1..] == es[1..][..k - 1];
    }
  }

  /** No insertion of a fair run overtakes, so that the session is in sequence all the time. */
  lemma FairInSequence(l: Limits, s: Session, es: seq<Event>)
    requires InOrder(l, s) && FairRun(l, s, es)
    ensures forall k :: 0 <= k <= |es| ==> InSequence(Past(l, s, es, k))
    ensures forall k :: 0 <= k < |es| ==> !Overtakes(l, Past(l, s, es, k), es[k])
  {
    hide InOrder, FairStep, FairRun, InSequence, Overtakes, Past;
    forall k | 0 <= k < |es| ensures !Overtakes(l, Past(l, s, es, k), es[k]) {
      FairAt(l, s, es, k);
      FairDoesNotOvertake(l, Past(l, s, es, k), es[k]);
    }
    InOrderSequence(l, s);
    InSequenceIff(l, s, es);
  }

  /** From a new session, over every run with QoS 1 and 2: the session is in sequence all the time, and
    * messages are sent for the first time in the order of their insertion. */
  lemma FairAlways(l: Limits, es: seq<Event>)
    requires FairRun(l, FRESH, es)
    ensures forall k :: 0 <= k <= |es| ==> InSequence(Past(l, FRESH, es, k))
    ensures Increasing(Transmitted(l, FRESH, es))
  {
    hide InOrder, FairRun, InSequence, Past, Transmitted;
    FreshInOrder(l);
    FairInSequence(l, FRESH, es);
    FirstsInOrder(l, FRESH, es);
  }

  lemma InOrderSequence(l: Limits, s: Session)
    requires InOrder(l, s)
    ensures InSequence(s)
  {
  }

  // ----- a run that overtakes -----

  lemma {:induction false} KeptFirst(m: Msg, rest: seq<Msg>, mid: int, dir: Direction)
    requires m.Is(mid, dir) && forall i :: 0 <= i < |rest| ==> !rest[i].Is(mid, dir)
    ensures Kept([m] + rest, mid, dir) == rest && Dropped([m] + rest, mid, dir) == [m]
    decreases |rest|
  {
    var q := [m] + rest;
    if rest == [] {
      assert q[..0] == [] && q[0] == m;
    } else {
      assert q[..|q| - 1] == [m] + rest[..|rest| - 1];
      KeptFirst(m, rest[..|rest| - 1], mid, dir);
      assert rest == rest[..|rest| - 1] + [rest[|rest| - 1]];
    }
  }

  lemma RunNext(l: Limits, s: Session, e: Event, es: seq<Event>)
    ensures Run(l, s, [e] + es) == Run(l, Step(l, s, e).session, es)
  {
    assert ([e] + es)[1..] == es;
  }

  function Outbound(a: Store, mid: int, qos: int): Event {
    Inserting(New(a, mid, Out, qos, false), true, false)
  }

  /** QoS 0 messages that are not yet written take room from the refill but not from db__ready_for_flight:
    * after two acknowledgements the queue is not empty and yet there is room. */
  function Filling(a: Store): seq<Event> {
    Inserts(a) + [Deleting(1), Deleting(2)]
  }

  function Inserts(a: Store): seq<Event> {
    [Outbound(a, 1, 1), Outbound(a, 2, 1), Outbound(a, 0, 0), Outbound(a, 0, 0), Outbound(a, 3, 1)]
  }

  /** The counters of `k` messages with this store, `j` of them not of QoS 0. */
  function Several(a: Store, k: nat, j: nat): (c: Counts)
    ensures c.count12 == j
  {
    Counts(k, k * a.payloadlen, j, j * a.payloadlen)
  }

  lemma OneMore(a: Store, k: nat, j: nat, m: Msg)
    requires m.store == a
    ensures Plus(Several(a, k, j), m) == if m.qos > 0 then Several(a, k + 1, j + 1) else Several(a, k + 1, j)
    ensures m.qos > 0 ==> Minus(Several(a, k + 1, j + 1), m) == Several(a, k, j)
  {
    assert (k + 1) * a.payloadlen == k * a.payloadlen + a.payloadlen;
    assert (j + 1) * a.payloadlen == j * a.payloadlen + a.payloadlen;
  }

  function Holding(a: Store, q: seq<Msg>, waiting: seq<Msg>, k: nat, j: nat, n: nat): Session {
    Session(q, waiting, Several(a, k, j), true, n)
  }

  /** Insertion where there is room. */
  lemma InsertFlight(l: Limits, a: Store, q: seq<Msg>, k: nat, j: nat, n: nat, mid: int, qos: int)
    requires l == Limits(2, 0, 10, 0, false, true) && (qos == 0 || (qos > 0 && j < 2))
    ensures Step(l, Holding(a, q, [], k, j, n), Outbound(a, mid, qos)).session ==
            Holding(a, q + [PublishQos(a, n, mid, qos)], [], k + 1, if qos > 0 then j + 1 else j, n + 1)
  {
    hide Several;
    OneMore(a, k, j, PublishQos(a, n, mid, qos));
  }

  /** Insertion at the end of a queue that is not full. */
  lemma InsertQueue(l: Limits, a: Store, q: seq<Msg>, k: nat, j: nat, n: nat, mid: int, qos: int)
    requires l == Limits(2, 0, 10, 0, false, true) && qos > 0 && 2 <= j < 10
    ensures Step(l, Holding(a, q, [], k, j, n), Outbound(a, mid, qos)).session ==
            Holding(a, q, [PublishQos(a, n, mid, qos).(state := Queued)], k + 1, j + 1, n + 1)
  {
    hide Several;
    var m := PublishQos(a, n, mid, qos);
    OneMore(a, k, j, m.(state := Queued));
    assert [] + [m.(state := Queued)] == [m.(state := Queued)];
  }

  /** An acknowledgement that leaves two messages or more in flight moves none. */
  lemma DeleteOne(l: Limits, a: Store, m: Msg, rest: seq<Msg>, waiting: seq<Msg>, k: nat, j: nat, n: nat)
    requires l.maxInflight == 2 && m.dir == Out && m.qos > 0 && m.store == a && |rest| >= 2
    requires forall i :: 0 <= i < |rest| ==> rest[i].mid != m.mid
    ensures Step(l, Holding(a, [m] + rest, waiting, k + 1, j + 1, n), Deleting(m.mid)).session ==
            Holding(a, rest, waiting, k, j, n)
  {
    hide Several;
    KeptFirst(m, rest, m.mid, Out);
    MinusOne(Several(a, k + 1, j + 1), m);
    OneMore(a, k, j, m);
  }

  lemma MinusOne(c: Counts, m: Msg)
    ensures MinusAll(c, [m]) == Minus(c, m)
  {
    assert [m][..0] == [];
  }

  function PublishQos(a: Store, serial: nat, mid: int, qos: int): (m: Msg)
    ensures m.serial == serial && m.mid == mid && m.qos == qos && m.dir == Out && m.store == a
  {
    Msg(serial, a, mid, Out, qos, false, false, PublishState(qos))
  }

  lemma InsertsLeave(l: Limits, a: Store)
    requires l == Limits(2, 0, 10, 0, false, true)
    ensures var z1, z2 := PublishQos(a, 2, 0, 0), PublishQos(a, 3, 0, 0);
            Run(l, FRESH, Inserts(a)) ==
            Holding(a, [PublishQos(a, 0, 1, 1)] + ([PublishQos(a, 1, 2, 1)] + [z1, z2]),
                    [PublishQos(a, 4, 3, 1).(state := Queued)], 5, 3, 5)
  {
    hide Step, PublishQos, Outbound, Several, Run;
    var m1, m2 := PublishQos(a, 0, 1, 1), PublishQos(a, 1, 2, 1);
    var z1, z2 := PublishQos(a, 2, 0, 0), PublishQos(a, 3, 0, 0);
    var q2, q3, q4 := [m1] + [m2], [m1] + [m2] + [z1], [m1] + [m2] + [z1] + [z2];
    var es := Inserts(a);
    StartHolding(a);
    assert [] + [m1] == [m1];
    InsertFlight(l, a, [], 0, 0, 0, 1, 1);
    InsertFlight(l, a, [m1], 1, 1, 1, 2, 1);
    InsertFlight(l, a, q2, 2, 2, 2, 0, 0);
    InsertFlight(l, a, q3, 3, 2, 3, 0, 0);
    InsertQueue(l, a, q4, 4, 2, 4, 3, 1);
    RunFive(l, FRESH, es);
    assert q4 == [m1] + ([m2] + [z1, z2]);
  }

  lemma StartHolding(a: Store)
    ensures FRESH == Holding(a, [], [], 0, 0, 0)
  {
  }

  lemma RunFive(l: Limits, s: Session, es: seq<Event>)
    requires |es| == 5
    ensures var s2 := Step(l, Step(l, s, es[0]).session, es[1]).session;
            Run(l, s, es) == Step(l, Step(l, Step(l, s2, es[2]).session, es[3]).session, es[4]).session
  {
    hide Step, Run;
    var s2 := Step(l, Step(l, s, es[0]).session, es[1]).session;
    assert es == [es[0], es[1]] + [es[2], es[3], es[4]] && [es[2], es[3], es[4]] == [es[2], es[3]] + [es[4]];
    assert [es[4]] == [es[4]] + [];
    RunThen(l, s, [es[0], es[1]], [es[2], es[3], es[4]]);
    RunTwo(l, s, es[0], es[1]);
    RunThen(l, s2, [es[2], es[3]], [es[4]]);
    RunTwo(l, s2, es[2], es[3]);
    RunNext(l, Step(l, Step(l, s2, es[2]).session, es[3]).session, es[4], []);
    RunNone(l, Step(l, Step(l, Step(l, s2, es[2]).session, es[3]).session, es[4]).session);
  }

  lemma RunNone(l: Limits, s: Session)
    ensures Run(l, s, []) == s
  {
  }

  lemma FillingLeaves(l: Limits, a: Store)
    requires l == Limits(2, 0, 10, 0, false, true)
    ensures |Filling(a)| == 7
    ensures Run(l, FRESH, Filling(a)) ==
            Holding(a, [PublishQos(a, 2, 0, 0), PublishQos(a, 3, 0, 0)],
              [PublishQos(a, 4, 3, 1).(state := Queued)], 3, 1, 5)
  {
    hide Step, PublishQos, Several, Run, Inserts;
    var m1, m2 := PublishQos(a, 0, 1, 1), PublishQos(a, 1, 2, 1);
    var z1, z2 := PublishQos(a, 2, 0, 0), PublishQos(a, 3, 0, 0);
    var waiting := [PublishQos(a, 4, 3, 1).(state := Queued)];
    InsertsLeave(l, a);
    DeleteOne(l, a, m1, [m2] + [z1, z2], waiting, 4, 2, 5);
    DeleteOne(l, a, m2, [z1, z2], waiting, 3, 1, 5);
    RunThen(l, FRESH, Inserts(a), [Deleting(1), Deleting(2)]);
    RunTwo(l, Run(l, FRESH, Inserts(a)), Deleting(1), Deleting(2));
    SevenEvents(a);
  }

  lemma SevenEvents(a: Store)
    ensures |Filling(a)| == 7
  {
  }

  lemma {:induction false} RunThen(l: Limits, s: Session, es: seq<Event>, more: seq<Event>)
    ensures Run(l, s, es + more) == Run(l, Run(l, s, es), more)
    decreases |es|
  {
    hide Step;
    if es == [] {
      assert es + more == more;
    } else {
      assert (es + more)[1..] == es[1..] + more;
      RunThen(l, Step(l, s, es[0]).session, es[1..], more);
    }
  }

  lemma RunTwo(l: Limits, s: Session, d: Event, e: Event)
    ensures Run(l, s, [d, e]) == Step(l, Step(l, s, d).session, e).session
  {
    hide Step;
    var t := Step(l, s, d).session;
    assert [d, e][1..] == [e] && [e][1..] == [];
    assert Run(l, s, [d, e]) == Run(l, t, [e]) == Run(l, Step(l, t, e).session, []);
  }

  /** Such an insertion occurs: after that run the next message, of QoS 1, overtakes the waiting one. */
  lemma Qos0BreaksOrder(l: Limits, a: Store)
    requires l == Limits(2, 0, 10, 0, false, true)
    ensures var es := Filling(a) + [Outbound(a, 4, 1)];
            && |es| == 8 && Overtakes(l, Past(l, FRESH, es, 7), es[7])
            && InSequence(Past(l, FRESH, es, 7)) && !InSequence(Past(l, FRESH, es, 8))
  {
    hide Run, Step, Filling;
    var es, s := Filling(a) + [Outbound(a, 4, 1)], Run(l, FRESH, Filling(a));
    FillingLeaves(l, a);
    assert es[..7] == Filling(a);
    assert Past(l, FRESH, es, 7) == s;
    PastNext(l, FRESH, es, 7);
    assert Overtakes(l, s, es[7]);
    assert InSequence(s);
    StepInSequenceIff(l, s, es[7]);
  }
}
