/** What one call of the writer publishes, and which waiting messages a takeover moves, in which states. */
module BrokerResume {
  import opened Stores
  import opened BrokerSpec
  import opened BrokerProofs
  import opened BrokerOrder
  import opened BrokerSequence

  // ----- what one call of the writer publishes -----

  /** The packets that are due, in the order of the messages in flight. */
  function DueAll(q: seq<Msg>): seq<Sent> {
    if q == [] then [] else Due(q[0]) + DueAll(q[1..])
  }

  function Front(sent: seq<Sent>, n: nat): seq<Sent> {
    if |sent| <= n then sent else sent[..n]
  }

  /** The writer sends the due packets in order until all are sent or a send fails. */
  lemma {:induction false} WriteSendsFront(q: seq<Msg>, sends: nat)
    ensures var w, d := WriteInflight(q, sends), DueAll(q);
            w.sent == Front(d, sends) && w.ok == (|d| <= sends) && (w.ok ==> w.sends == sends - |d|)
    decreases |q|
  {
    if q != [] {
      if Due(q[0]) == [] {
        WriteSendsFront(q[1..], sends);
        assert DueAll(q) == DueAll(q[1..]);
      } else if sends > 0 {
        WriteSendsFront(q[1..], sends - 1);
        assert |Due(q[0])| == 1;
        assert Front(DueAll(q), sends) == Due(q[0]) + Front(DueAll(q[1..]), sends - 1);
      } else {
        assert |Due(q[0])| == 1;
      }
    }
  }

  /** One of the packets is a PUBLISH of the message with this serial number. */
  predicate Publishes(sent: seq<Sent>, x: nat) {
    exists i :: 0 <= i < |sent| && sent[i].SentPublish? && sent[i].m.serial == x
  }

  predicate ToPublish(m: Msg) {
    m.state == PublishQos0 || m.state == PublishQos1 || m.state == PublishQos2
  }

  /** With `n` sends that succeed the writer gets to the `p`th message in flight. */
  predicate Reached(q: seq<Msg>, p: nat, n: nat) {
    p < |q| && |DueAll(q[..p])| < n
  }

  predicate PublishesAt(q: seq<Msg>, p: nat, n: nat, x: nat) {
    Reached(q, p, n) && q[p].serial == x && ToPublish(q[p])
  }

  lemma PublishesJoin(a: seq<Sent>, b: seq<Sent>, x: nat)
    ensures Publishes(a + b, x) <==> Publishes(a, x) || Publishes(b, x)
  {
    if Publishes(a, x) {
      var i :| 0 <= i < |a| && a[i].SentPublish? && a[i].m.serial == x;
      assert (a + b)[i] == a[i];
    }
    if Publishes(b, x) {
      var i :| 0 <= i < |b| && b[i].SentPublish? && b[i].m.serial == x;
      assert (a + b)[|a| + i] == b[i];
    }
  }

  lemma DuePublishes(m: Msg, x: nat)
    ensures Publishes(Due(m), x) <==> ToPublish(m) && m.serial == x
    ensures |Due(m)| <= 1
  {
    if ToPublish(m) {
      assert Due(m)[0] == SentPublish(m);
    }
  }

  lemma {:induction false} FrontPublishesIff(q: seq<Msg>, n: nat, x: nat)
    ensures Publishes(Front(DueAll(q), n), x) <==> exists p :: 0 <= p < |q| && PublishesAt(q, p, n, x)
    decreases |q|
  {
    hide Publishes;
    if q == [] || n == 0 {
      NoneSent(x);
    } else {
      var m, rest := q[0], q[1..];
      var k := n - |Due(m)|;
      FrontPublishesIff(rest, k, x);
      DuePublishes(m, x);
      assert Front(DueAll(q), n) == Due(m) + Front(DueAll(rest), k);
      PublishesJoin(Due(m), Front(DueAll(rest), k), x);
      assert q[..0] == [];
      assert PublishesAt(q, 0, n, x) <==> ToPublish(m) && m.serial == x;
      forall p | 0 < p < |q| ensures PublishesAt(q, p, n, x) <==> PublishesAt(rest, p - 1, k, x) {
        assert q[..p][0] == m && q[..p][1..] == rest[..p - 1];
      }
      if exists p :: 0 <= p < |rest| && PublishesAt(rest, p, k, x) {
        var p :| 0 <= p < |rest| && PublishesAt(rest, p, k, x);
        assert PublishesAt(q, p + 1, n, x);
      }
    }
  }

  lemma NoneSent(x: nat)
    ensures !Publishes([], x)
  {
  }

  lemma {:induction false} RefillPublishesNone(l: Limits, f: seq<Msg>, q: seq<Msg>, index: int, sends: nat, x: nat)
    ensures !Publishes(WriteRefill(l, f, q, index, sends).sent, x)
    decreases |q|
  {
    if q != [] && RoomAt(l, index) && !(q[0].dir == In && q[0].qos != 2) && !(q[0].dir == In && sends == 0) {
      var m := q[0].(state := if q[0].dir == Out then PublishState(q[0].qos) else WaitForPubrel);
      var left := if q[0].dir == Out then sends else sends - 1;
      RefillPublishesNone(l, f + [m], q[1..], index + 1, left, x);
      if q[0].dir == In {
        PublishesJoin([SentPubrec(q[0].mid)], WriteRefill(l, f + [m], q[1..], index + 1, left).sent, x);
      }
    }
  }

  lemma PubrecsPublishNone(mids: seq<int>, x: nat)
    ensures !Publishes(Pubrecs(mids), x)
  {
  }

  /** A step publishes a message exactly if it is a call of the writer that gets to it, connected, and the
    * message in flight is in a state to be published. */
  lemma StepPublishesIff(l: Limits, s: Session, e: Event, x: nat)
    ensures Publishes(Step(l, s, e).sent, x) <==>
            e.Writing? && s.online && exists p :: 0 <= p < |s.inflight| && PublishesAt(s.inflight, p, e.sends, x)
  {
    hide Publishes, PublishesAt, WriteInflight, WriteRefill, Refill, Kept, Pubrecs;
    NoneSent(x);
    match e
    case Deleting(mid) =>
      var kept := Kept(s.inflight, mid, Out);
      PubrecsPublishNone(Refill(l, kept, s.queued, |kept|).pubrecs, x);
    case Releasing(mid) =>
      PubrecsPublishNone(Refill(l, Kept(s.inflight, mid, In), s.queued, |s.inflight|).pubrecs, x);
    case Writing(sends) =>
      var w := WriteInflight(s.inflight, sends);
      WriteSendsFront(s.inflight, sends);
      FrontPublishesIff(s.inflight, sends, x);
      if s.online && w.ok {
        RefillPublishesNone(l, w.inflight, s.queued, |s.inflight|, w.sends, x);
        PublishesJoin(w.sent, WriteRefill(l, w.inflight, s.queued, |s.inflight|, w.sends).sent, x);
      }
    case _ =>
  }

  // ----- serial numbers -----

  predicate Unique(ns: seq<nat>, n: nat) {
    && (forall i :: 0 <= i < |ns| ==> ns[i] < n)
    && (forall i, j :: 0 <= i < j < |ns| ==> ns[i] != ns[j])
  }

  /** No two messages of a session have the same serial number, in whatever order they are. */
  predicate Numbered(s: Session) {
    Unique(Serials(s.All()), s.inserted)
  }

  lemma {:induction false} PartUnique(a: seq<nat>, b: seq<nat>, n: nat)
    requires Part(a, b) && Unique(b, n)
    ensures Unique(a, n)
    decreases |b|
  {
    if b != [] {
      if Part(a, b[1..]) {
        PartUnique(a, b[1..], n);
      } else {
        PartUnique(a[1..], b[1..], n);
        PartIn(a[1..], b[1..]);
        forall i | 0 < i < |a| ensures a[0] != a[i] {
          assert a[i] == a[1..][i - 1] && a[1..][i - 1] in a[1..];
          var j :| 0 <= j < |b[1..]| && b[1..][j] == a[i];
          assert b[j + 1] == a[i];
        }
      }
    }
  }

  lemma StepNumbered(l: Limits, s: Session, e: Event)
    requires Numbered(s)
    ensures Numbered(Step(l, s, e).session)
  {
    hide PlaceOf, Part, Serials;
    var t := Step(l, s, e).session;
    if e.Inserting? && !PlaceOf(l, s, e.n, e.known, e.already).Nowhere? {
      InsertSerials(l, s, e.n, e.known, e.already);
      SerialsJoin(s.inflight, s.queued);
      UniqueMore(Serials(s.inflight), Serials(s.queued), s.inserted);
      assert Serials(s.All()) + [] == Serials(s.All());
      UniqueMore(Serials(s.All()), [], s.inserted);
      assert Serials(s.All()) + [s.inserted] + [] == Serials(s.All()) + [s.inserted];
    } else {
      StepThins(l, s, e);
      PartSerials(t.All(), s.All());
      PartUnique(Serials(t.All()), Serials(s.All()), s.inserted);
    }
  }

  lemma UniqueMore(a: seq<nat>, b: seq<nat>, n: nat)
    requires Unique(a + b, n)
    ensures Unique(a + [n] + b, n + 1)
  {
    var r, q := a + b, a + [n] + b;
    forall i | 0 <= i < |q| && i != |a| ensures q[i] == r[if i < |a| then i else i - 1] {
    }
  }

  // ----- which waiting messages a takeover moves -----

  /** How many of the waiting messages the reset moves in their turn, with the counters `c` so far. */
  function Movers(l: Limits, c: Counts, q: seq<Msg>): (k: nat)
    ensures k <= |q|
    decreases |q|
  {
    if q == [] || !ReadyForFlight(l, Plus(c, q[0]), q[0].qos) then 0 else 1 + Movers(l, Plus(c, q[0]), q[1..])
  }

  /** Messages in the states that start their transmission. */
  function Published(q: seq<Msg>): (r: seq<Msg>)
    ensures |r| == |q|
  {
    seq(|q|, i requires 0 <= i < |q| => q[i].(state := PublishState(q[i].qos)))
  }

  lemma {:induction false} ResetQueueMoves(l: Limits, f: seq<Msg>, q: seq<Msg>, c: Counts)
    requires NoQos0(q)
    ensures var k, r := Movers(l, c, q), ResetQueue(l, f, q, 0, c);
            r.0 == f + Published(q[..k]) && r.1 == q[k..]
    decreases |q|
  {
    hide Plus, ReadyForFlight, PublishState;
    if q != [] {
      var d, m := Plus(c, q[0]), q[0].(state := PublishState(q[0].qos));
      SameRoom(l, d, q[0].qos);
      if ReadyForFlight(l, d, 1) {
        var k := Movers(l, d, q[1..]);
        ResetQueueMoves(l, f + [m], q[1..], d);
        assert q[0 := m][1..] == q[1..] && q[..k + 1] == [q[0]] + q[1..][..k];
        assert Published(q[..k + 1]) == [m] + Published(q[1..][..k]);
        assert f + [m] + Published(q[1..][..k]) == f + Published(q[..k + 1]);
      } else {
        ResetStuck(l, f, q, 1, d);
        assert Published(q[..0]) == [] && f + [] == f;
      }
    } else {
      assert f + Published(q[..0]) == f;
    }
  }

  lemma NoRoom(l: Limits, c: Counts, qos: int)
    requires !ReadyForFlight(l, c, qos)
    ensures !ReadyForFlight(l, c, 1) && qos != 0
  {
  }

  lemma SameRoom(l: Limits, c: Counts, qos: int)
    requires qos > 0
    ensures ReadyForFlight(l, c, qos) == ReadyForFlight(l, c, 1)
  {
  }

  /** A message of QoS 1 or 2 is moved in its turn if and only if there is room behind all those before it. */
  lemma {:induction false} MoversIff(l: Limits, c: Counts, q: seq<Msg>, i: nat)
    requires i < |q| && q[i].qos > 0
    ensures i < Movers(l, c, q) <==> ReadyForFlight(l, Add(c, Total(q[..i + 1])), 1)
    decreases |q|
  {
    hide Plus, Add, Total, ReadyForFlight;
    var d := Plus(c, q[0]);
    assert q[..i + 1] == [q[0]] + q[1..][..i];
    TallyFrom(c, q[..i + 1], 0);
    assert q[..i + 1][0..] == q[..i + 1] && q[..i + 1][1..] == q[1..][..i];
    if i == 0 {
      TotalNone();
      AddNone(d);
      SameRoom(l, d, q[0].qos);
    } else if ReadyForFlight(l, d, q[0].qos) {
      MoversIff(l, d, q[1..], i - 1);
    } else {
      NoRoom(l, d, q[0].qos);
      RoomFalls(l, d, q[1..][..i]);
    }
  }

  lemma {:induction false} RoomFalls(l: Limits, c: Counts, q: seq<Msg>)
    requires !ReadyForFlight(l, c, 1)
    ensures !ReadyForFlight(l, Add(c, Total(q)), 1)
    decreases |q|
  {
    hide Plus, Add, Total, ReadyForFlight;
    if q == [] {
      TotalNone();
      AddNone(c);
    } else {
      TallyFrom(c, q, 0);
      assert q[0..] == q;
      ReadyFalls(l, c, q[0]);
      RoomFalls(l, Plus(c, q[0]), q[1..]);
    }
  }

  /** Without a limit on bytes: all that fit below the limit, one place being kept free. */
  lemma {:induction false} MoversCount(l: Limits, c: Counts, q: seq<Msg>)
    requires l.maxInflightBytes == 0 && NoQos0(q)
    ensures var room := l.maxInflight - 1 - c.count12;
            Movers(l, c, q) == if l.maxInflight == 0 || room >= |q| then |q| else if room < 0 then 0 else room
    decreases |q|
  {
    if q != [] {
      MoversCount(l, Plus(c, q[0]), q[1..]);
    }
  }

  /** There is room for the `i`th waiting message behind all messages before it. */
  predicate Fits(l: Limits, s: Session, i: nat)
    requires i < |s.queued|
  {
    ReadyForFlight(l, Total(s.inflight + s.queued[..i + 1]), 1)
  }

  /** A takeover moves a front part of the waiting messages: the longest for which there is room, which
    * without a limit on bytes keeps one place free.  All of them, inbound ones too, get the state in which
    * a message is published. */
  lemma TakeOverMoves(l: Limits, s: Session)
    requires NoQos0(s.queued) && Proper(s.inflight)
    ensures var t, k := TakeOver(l, s), Movers(l, Total(s.inflight), s.queued);
            && t.inflight == ResetInflight(s.inflight) + Published(s.queued[..k]) && t.queued == s.queued[k..]
            && (forall i :: 0 <= i < |s.queued| ==> (i < k <==> Fits(l, s, i)))
            && (l.maxInflightBytes == 0 ==>
                  var room := l.maxInflight - 1 - Total(s.inflight).count12;
                  k == if l.maxInflight == 0 || room >= |s.queued| then |s.queued| else if room < 0 then 0 else room)
  {
    hide Total, Add, ResetQueue, ResetFlight, ReadyForFlight, Movers;
    var c, f := Total(s.inflight), ResetInflight(s.inflight);
    var k := Movers(l, c, s.queued);
    forall i | 0 <= i < |s.queued| ensures i < k <==> Fits(l, s, i) {
      MoversIff(l, c, s.queued, i);
      TotalJoin(s.inflight, s.queued[..i + 1]);
    }
    if l.maxInflightBytes == 0 {
      MoversCount(l, c, s.queued);
    }
    if s.inflight != [] || s.queued != [] {
      ResetFlightIs(s.inflight, NONE);
      AddNone(c);
      ResetQueueMoves(l, f, s.queued, c);
    } else {
      assert k == 0 && s.inflight == f + Published(s.queued[..k]);
    }
  }

  /** Without room, only QoS 0 messages are moved in their turn. */
  lemma {:induction false} MoversStuck(l: Limits, c: Counts, q: seq<Msg>, j: nat)
    requires !ReadyForFlight(l, c, 1) && j < |q| && q[j].qos > 0
    ensures j >= Movers(l, c, q)
    decreases |q|
  {
    ReadyFalls(l, c, q[0]);
    if j > 0 {
      MoversStuck(l, Plus(c, q[0]), q[1..], j - 1);
    }
  }

  lemma {:induction false} ResetQueueFront(l: Limits, f: seq<Msg>, q: seq<Msg>, i: nat, c: Counts)
    requires i <= |q|
    ensures var r := ResetQueue(l, f, q, i, c); |f| <= |r.0| && r.0[..|f|] == f
    decreases |q|, |q| - i
  {
    if i < |q| {
      var d := Plus(c, q[i]);
      if ReadyForFlight(l, d, q[i].qos) {
        var p := q[i := q[i].(state := PublishState(q[i].qos))];
        var r := ResetQueue(l, f, q, i, c);
        ResetQueueFront(l, f + [p[0]], p[1..], 0, d);
        assert r.0[..|f| + 1][..|f|] == f;
      } else {
        ResetQueueFront(l, f, q, i + 1, d);
      }
    }
  }

  /** The loop moves nothing exactly if it finds no room for any message. */
  lemma {:induction false} NoneMovesIff(l: Limits, f: seq<Msg>, q: seq<Msg>, i: nat, c: Counts)
    requires i <= |q|
    ensures NoneMoves(l, q, i, c) <==> ResetQueue(l, f, q, i, c).0 == f
    decreases |q| - i
  {
    if i < |q| {
      var d := Plus(c, q[i]);
      if ReadyForFlight(l, d, q[i].qos) {
        var p := q[i := q[i].(state := PublishState(q[i].qos))];
        ResetQueueFront(l, f + [p[0]], p[1..], 0, d);
      } else {
        NoneMovesIff(l, f, q, i + 1, d);
      }
    }
  }

  /** A message of QoS 1 or 2 in the queue keeps its place.  Moved in its turn it gets a new state; when the
    * loop meets it at the head while it moves a QoS 0 message behind it, it keeps the state it had. */
  lemma {:induction false} ResetQueueAt(l: Limits, f: seq<Msg>, q: seq<Msg>, i: nat, c: Counts, j: nat)
    requires i <= |q| && j < |q| && q[j].qos > 0 && (i > 0 ==> !ReadyForFlight(l, c, 1))
    ensures var r, turn := ResetQueue(l, f, q, i, c), i == 0 && j < Movers(l, c, q);
            && |r.0 + r.1| == |f| + |q| && (turn ==> |f| + j < |r.0|)
            && (r.0 + r.1)[|f| + j] == if turn then q[j].(state := PublishState(q[j].qos)) else q[j]
    decreases |q|, |q| - i
  {
    hide Plus, ReadyForFlight, PublishState;
    if i == |q| {
      assert (f + q)[|f| + j] == q[j];
    } else {
      var d, m := Plus(c, q[i]), q[i];
      if ReadyForFlight(l, d, m.qos) {
        var p := q[i := m.(state := PublishState(m.qos))];
        if i > 0 {
          LateRoom(l, c, m);
        }
        if j == 0 {
          ResetQueueFront(l, f + [p[0]], p[1..], 0, d);
          HeadMoved(ResetQueue(l, f, q, i, c), f, p[0]);
          ResetQueueLength(l, f, q, i, c);
        } else {
          ResetQueueAt(l, f + [p[0]], p[1..], 0, d, j - 1);
          if i > 0 {
            MoversStuck(l, d, p[1..], j - 1);
          } else {
            assert p[1..] == q[1..];
          }
        }
      } else {
        NoRoom(l, d, m.qos);
        ResetQueueAt(l, f, q, i + 1, d, j);
      }
    }
  }

  lemma LateRoom(l: Limits, c: Counts, m: Msg)
    requires !ReadyForFlight(l, c, 1) && ReadyForFlight(l, Plus(c, m), m.qos)
    ensures m.qos == 0 && !ReadyForFlight(l, Plus(c, m), 1)
  {
    ReadyFalls(l, c, m);
  }

  lemma HeadMoved(r: (seq<Msg>, seq<Msg>, Counts), f: seq<Msg>, m: Msg)
    requires |f| + 1 <= |r.0| && r.0[..|f| + 1] == f + [m]
    ensures (r.0 + r.1)[|f|] == m
  {
    assert r.0[..|f| + 1][|f|] == m;
  }

  lemma ResetQueueLength(l: Limits, f: seq<Msg>, q: seq<Msg>, i: nat, c: Counts)
    requires i <= |q|
    ensures var r := ResetQueue(l, f, q, i, c); |r.0 + r.1| == |f| + |q|
  {
    hide ResetQueue;
    ResetQueueSame(l, f, q, i, c);
  }

  /** The waiting messages that a takeover moves in their turn. */
  function Moves(l: Limits, s: Session): nat {
    Movers(l, ResetFlight(s.inflight, NONE).counts, s.queued)
  }

  /** The place of the `i`th waiting message among all messages after a takeover. */
  function PlaceOfWaiting(s: Session, i: nat): nat {
    |ResetFlight(s.inflight, NONE).kept| + i
  }

  /** Where the `i`th waiting message is after a takeover, and in which state. */
  lemma WaitingAfter(l: Limits, s: Session, i: nat)
    requires i < |s.queued| && s.queued[i].qos > 0
    ensures var t, k, p := TakeOver(l, s), Moves(l, s), PlaceOfWaiting(s, i);
            && p < |t.All()| && (i < k ==> p < |t.inflight|)
            && t.All()[p] == if i < k then s.queued[i].(state := PublishState(s.queued[i].qos)) else s.queued[i]
  {
    hide ResetQueue, ResetFlight, Movers;
    var g := ResetFlight(s.inflight, NONE);
    ResetQueueAt(l, g.kept, s.queued, 0, g.counts, i);
  }

  /** The reset is to leave inbound messages alone.  In every session it changes one that waits to be answered
    * by PUBREC into one to be published if and only if there is room for it behind all those before it. */
  lemma EchoStateIff(l: Limits, s: Session, i: nat)
    requires i < |s.queued| && s.queued[i].dir == In && s.queued[i].qos == 2 && s.queued[i].state != PublishQos2
    ensures var t, p := TakeOver(l, s), PlaceOfWaiting(s, i);
            && p < |t.All()| && (t.All()[p].state == PublishQos2 <==> i < Moves(l, s))
            && (i < Moves(l, s) <==>
                  ReadyForFlight(l, Add(ResetFlight(s.inflight, NONE).counts, Total(s.queued[..i + 1])), 1))
  {
    hide Total, Add, TakeOver, Movers, ResetFlight, ReadyForFlight;
    WaitingAfter(l, s, i);
    MoversIff(l, ResetFlight(s.inflight, NONE).counts, s.queued, i);
  }

  /** So that the next call of the writer publishes it, back to its publisher, if and only if the takeover
    * changes it and the writer gets to it. */
  lemma EchoedIff(l: Limits, s: Session, i: nat, sends: nat)
    requires Numbered(s) && i < |s.queued| && s.queued[i].dir == In && s.queued[i].qos == 2
    ensures var t, p := Step(l, s, Back).session, PlaceOfWaiting(s, i);
            Publishes(Step(l, t, Writing(sends)).sent, s.queued[i].serial) <==>
            (i < Moves(l, s) || ToPublish(s.queued[i])) && Reached(t.inflight, p, sends)
  {
    hide TakeOver, Moves, PlaceOfWaiting, Publishes, Reached, Numbered, Step;
    var t, p, x := TakeOver(l, s), PlaceOfWaiting(s, i), s.queued[i].serial;
    BackStep(l, s);
    StepNumbered(l, s, Back);
    WaitingAfter(l, s, i);
    StepPublishesIff(l, t, Writing(sends), x);
    forall r | 0 <= r < |t.inflight| && PublishesAt(t.inflight, r, sends, x) ensures r == p {
      OnlyOne(t, r, p);
    }
    ReachedIsIn(t.inflight, p, sends);
    if p < |t.inflight| {
      assert t.inflight[p] == t.All()[p];
      assert PublishesAt(t.inflight, p, sends, x) <==> Reached(t.inflight, p, sends) && ToPublish(t.All()[p]);
    }
  }

  lemma ReachedIsIn(q: seq<Msg>, p: nat, n: nat)
    ensures Reached(q, p, n) ==> p < |q|
  {
  }

  lemma OnlyOne(s: Session, p: nat, r: nat)
    requires Numbered(s) && p < |s.inflight| && r < |s.All()| && s.inflight[p].serial == s.All()[r].serial
    ensures p == r
  {
    assert Serials(s.All())[p] == Serials(s.All())[r];
  }

  lemma BackStep(l: Limits, s: Session)
    ensures Step(l, s, Back).session == TakeOver(l, s) && TakeOver(l, s).online
  {
  }
}
