/** What every run of a broker session keeps: the counters, the limits, and the order of messages
  * across the two lists (section 4.6 of MQTT 3.1.1). */
module BrokerProofs {
  import opened Stores
  import opened BrokerSpec

  // ----- the parts of a message that never change -----

  function Ident(m: Msg): Msg {
    m.(state := Queued, dup := false)
  }

  /** The same messages in the same order, whatever their states. */
  predicate Alike(a: seq<Msg>, b: seq<Msg>) {
    |a| == |b| && forall i :: 0 <= i < |a| ==> Ident(a[i]) == Ident(b[i])
  }

  /** The same, and the same have been sent before. */
  predicate Same(a: seq<Msg>, b: seq<Msg>) {
    |a| == |b| && forall i :: 0 <= i < |a| ==> a[i].(state := Queued) == b[i].(state := Queued)
  }

  lemma SameAlike(a: seq<Msg>, b: seq<Msg>)
    requires Same(a, b)
    ensures Alike(a, b)
  {
    forall i | 0 <= i < |a| ensures Ident(a[i]) == Ident(b[i]) {
      assert a[i].(state := Queued) == b[i].(state := Queued);
    }
  }

  lemma SameTrans(a: seq<Msg>, b: seq<Msg>, c: seq<Msg>)
    requires Same(a, b) && Same(b, c)
    ensures Same(a, c)
  {
  }

  lemma SameJoin(a: seq<Msg>, b: seq<Msg>, c: seq<Msg>, d: seq<Msg>)
    requires Same(a, b) && Same(c, d)
    ensures Same(a + c, b + d)
  {
  }

  lemma AlikeJoin(a: seq<Msg>, b: seq<Msg>, c: seq<Msg>, d: seq<Msg>)
    requires Alike(a, b) && Alike(c, d)
    ensures Alike(a + c, b + d)
  {
  }

  // ----- counters -----

  function Add(a: Counts, b: Counts): Counts {
    Counts(a.count + b.count, a.bytes + b.bytes, a.count12 + b.count12, a.bytes12 + b.bytes12)
  }

  function Sub(a: Counts, b: Counts): Counts {
    Counts(a.count - b.count, a.bytes - b.bytes, a.count12 - b.count12, a.bytes12 - b.bytes12)
  }

  lemma PlusAdd(a: Counts, b: Counts, m: Msg)
    ensures Plus(Add(a, b), m) == Add(Plus(a, m), b) == Add(a, Plus(b, m))
  {
  }

  lemma AddNone(a: Counts)
    ensures Add(a, NONE) == a == Add(NONE, a) && Sub(a, NONE) == a
  {
  }

  lemma AddAgain(a: Counts, b: Counts, c: Counts)
    ensures Add(Add(a, b), c) == Add(a, Add(b, c)) == Add(b, Add(a, c))
    ensures Sub(Add(a, b), b) == a && Add(a, b) == Add(b, a)
  {
  }

  /** The counters recomputed from a list. */
  function Total(q: seq<Msg>): Counts {
    Tally(NONE, q)
  }

  lemma {:induction false} MinusAllIsSub(c: Counts, q: seq<Msg>)
    ensures MinusAll(c, q) == Sub(c, Total(q))
  {
    if q != [] {
      MinusAllIsSub(c, q[..|q| - 1]);
    }
  }

  lemma TotalLast(q: seq<Msg>, m: Msg)
    ensures Total(q + [m]) == Plus(Total(q), m)
  {
    assert (q + [m])[..|q|] == q;
  }

  lemma TotalNone()
    ensures Total([]) == NONE
  {
  }

  lemma TotalOne(m: Msg)
    ensures Total([m]) == Plus(NONE, m)
  {
    TotalLast([], m);
    assert [] + [m] == [m];
  }

  lemma {:induction false} TotalJoin(a: seq<Msg>, b: seq<Msg>)
    ensures Total(a + b) == Add(Total(a), Total(b))
    decreases |b|
  {
    hide Total;
    if b == [] {
      assert a + b == a;
      TotalNone();
    } else {
      var front, m := b[..|b| - 1], b[|b| - 1];
      assert a + b == (a + front) + [m] && b == front + [m];
      TotalLast(a + front, m);
      TotalLast(front, m);
      TotalJoin(a, front);
    }
  }

  lemma {:induction false} TotalAlike(a: seq<Msg>, b: seq<Msg>)
    requires Alike(a, b)
    ensures Total(a) == Total(b)
  {
    if a != [] {
      TotalAlike(a[..|a| - 1], b[..|b| - 1]);
      assert Ident(a[|a| - 1]) == Ident(b[|b| - 1]);
    }
  }

  lemma {:induction false} TotalKept(q: seq<Msg>, mid: int, dir: Direction)
    ensures Total(q) == Add(Total(Kept(q, mid, dir)), Total(Dropped(q, mid, dir)))
  {
    hide Total, Kept, Dropped, Plus, Add;
    if q == [] {
      TotalNone();
      KeptNone(mid, dir);
      AddNone(NONE);
    } else {
      var front, m := q[..|q| - 1], q[|q| - 1];
      assert q == front + [m];
      TotalLast(front, m);
      TotalKept(front, mid, dir);
      KeptLast(q, mid, dir);
      TotalLast(Kept(front, mid, dir), m);
      TotalLast(Dropped(front, mid, dir), m);
      PlusAdd(Total(Kept(front, mid, dir)), Total(Dropped(front, mid, dir)), m);
    }
  }

  lemma KeptNone(mid: int, dir: Direction)
    ensures Kept([], mid, dir) == [] && Dropped([], mid, dir) == []
  {
  }

  lemma KeptLast(q: seq<Msg>, mid: int, dir: Direction)
    requires q != []
    ensures var front, m := q[..|q| - 1], q[|q| - 1];
            && Kept(q, mid, dir) == (if m.Is(mid, dir) then Kept(front, mid, dir) else Kept(front, mid, dir) + [m])
            && Dropped(q, mid, dir) ==
               (if m.Is(mid, dir) then Dropped(front, mid, dir) + [m] else Dropped(front, mid, dir))
  {
  }

  lemma {:induction false} TotalNat(q: seq<Msg>)
    ensures Total(q).count == |q| && 0 <= Total(q).count12 <= |q|
    ensures Total(q).count12 == |q| <==> forall i :: 0 <= i < |q| ==> q[i].qos > 0
  {
    if q != [] {
      TotalNat(q[..|q| - 1]);
      assert forall i :: 0 <= i < |q| - 1 ==> q[..|q| - 1][i] == q[i];
    }
  }

  /** msg_count, msg_bytes, msg_count12 and msg_bytes12 are those of the two lists. */
  predicate Counted(s: Session) {
    s.counts == Add(Total(s.inflight), Total(s.queued))
  }

  // ----- moving messages changes neither the order nor the counters -----

  lemma {:induction false} RefillSame(l: Limits, f: seq<Msg>, q: seq<Msg>, index: int)
    ensures var r := Refill(l, f, q, index); Same(r.inflight + r.queued, f + q)
    decreases |q|
  {
    if q != [] && RoomAt(l, index) && !(q[0].dir == In && q[0].qos != 2) {
      var m := q[0].(state := if q[0].dir == Out then PublishState(q[0].qos) else WaitForPubrel);
      RefillSame(l, f + [m], q[1..], index + 1);
      MoveSame(f, q, m);
      SameTrans(Refill(l, f, q, index).inflight + Refill(l, f, q, index).queued, f + [m] + q[1..], f + q);
    }
  }

  lemma MoveSame(f: seq<Msg>, q: seq<Msg>, m: Msg)
    requires q != [] && m.(state := Queued) == q[0].(state := Queued)
    ensures Same(f + [m] + q[1..], f + q)
  {
  }

  lemma AlikeTrans(a: seq<Msg>, b: seq<Msg>, c: seq<Msg>)
    requires Alike(a, b) && Alike(b, c)
    ensures Alike(a, c)
  {
  }

  lemma {:induction false} WriteRefillSame(l: Limits, f: seq<Msg>, q: seq<Msg>, index: int, sends: nat)
    ensures var r := WriteRefill(l, f, q, index, sends); Same(r.inflight + r.queued, f + q)
    decreases |q|
  {
    if q != [] && RoomAt(l, index) && !(q[0].dir == In && q[0].qos != 2) {
      var r := WriteRefill(l, f, q, index, sends);
      if q[0].dir == In && sends == 0 {
        MoveSame(f, q, q[0].(state := SendPubrec));
      } else {
        var m := q[0].(state := if q[0].dir == Out then PublishState(q[0].qos) else WaitForPubrel);
        WriteRefillSame(l, f + [m], q[1..], index + 1, if q[0].dir == Out then sends else sends - 1);
        MoveSame(f, q, m);
        SameTrans(r.inflight + r.queued, f + [m] + q[1..], f + q);
      }
    }
  }

  /** All messages in flight with the states for a retry. */
  function ResetInflight(q: seq<Msg>): (r: seq<Msg>)
    ensures |r| == |q|
    ensures Same(r, q)
  {
    seq(|q|, i requires 0 <= i < |q| => ResetOne(q[i]))
  }

  /** Without strays the first loop of the reset gives every message its state and counts it. */
  lemma {:induction false} ResetFlightIs(q: seq<Msg>, c: Counts)
    requires forall i :: 0 <= i < |q| ==> !Stray(q[i])
    ensures ResetFlight(q, c) == Recounted(ResetInflight(q), Add(c, Total(q)), [])
    decreases |q|
  {
    hide Total, Add, Plus;
    if q == [] {
      TotalNone();
      AddNone(c);
    } else {
      ResetFlightIs(q[1..], Plus(c, q[0]));
      TallyFrom(c, q, 0);
      assert q[0..] == q;
      assert ResetInflight(q) == [ResetOne(q[0])] + ResetInflight(q[1..]);
    }
  }

  lemma {:induction false} UpdateSame(q: seq<Msg>, mid: int, dir: Direction, state: State)
    ensures Same(Update(q, mid, dir, state), q)
  {
    if q != [] && !q[0].Is(mid, dir) {
      UpdateSame(q[1..], mid, dir, state);
    }
  }

  /** What is left in flight after writing, and what was dropped: QoS 0 messages only. */
  lemma {:induction false} WriteInflightTotal(q: seq<Msg>, sends: nat)
    ensures var w := WriteInflight(q, sends);
            && Total(q) == Add(Total(w.inflight), Total(w.dropped))
            && (forall m <- w.dropped :: m.state == PublishQos0)
            && (w.dropped == [] ==> Alike(w.inflight, q))
    decreases |q|
  {
    hide Total, Add, Plus;
    if q == [] {
      TotalNone();
      AddNone(NONE);
    } else {
      var m, rest := q[0], q[1..];
      var w := WriteInflight(q, sends);
      assert q == [m] + rest;
      TotalNone();
      AddNone(Total(q));
      TotalJoin([m], rest);
      if Due(m) == [] || sends > 0 {
        var v := WriteInflight(rest, if Due(m) == [] then sends else sends - 1);
        WriteInflightTotal(rest, if Due(m) == [] then sends else sends - 1);
        AddAgain(Total([m]), Total(v.inflight), Total(v.dropped));
        if m.state == PublishQos0 {
          assert w.inflight == v.inflight;
          TotalJoin([m], v.dropped);
        } else {
          var n := if Due(m) == [] then m else AfterSend(m);
          assert w.dropped == v.dropped;
          TotalAlike([m], [n]);
          TotalJoin([n], v.inflight);
        }
      }
    }
  }

  // ----- the reset on reconnect -----

  lemma {:induction false} TallyFrom(c: Counts, q: seq<Msg>, i: nat)
    requires i < |q|
    ensures Add(c, Total(q[i..])) == Add(Plus(c, q[i]), Total(q[i + 1..]))
  {
    hide Total, Add, Plus;
    assert q[i..] == [q[i]] + q[i + 1..];
    TotalJoin([q[i]], q[i + 1..]);
    TotalOne(q[i]);
    AddNone(c);
    PlusAdd(c, NONE, q[i]);
    AddAgain(c, Total([q[i]]), Total(q[i + 1..]));
  }

  lemma ReadyFalls(l: Limits, c: Counts, m: Msg)
    requires !ReadyForFlight(l, c, 1)
    ensures !ReadyForFlight(l, Plus(c, m), 1)
  {
  }

  /** QoS 0, 1 or 2, and 2 for inbound messages. */
  predicate Proper(q: seq<Msg>) {
    forall i :: 0 <= i < |q| ==> 0 <= q[i].qos <= 2 && (q[i].dir == In ==> q[i].qos == 2)
  }

  predicate NoQos0(q: seq<Msg>) {
    forall i :: 0 <= i < |q| ==> q[i].qos > 0
  }

  /** Once there is no room, the loop only counts. */
  lemma {:induction false} ResetStuck(l: Limits, f: seq<Msg>, q: seq<Msg>, i: nat, c: Counts)
    requires i <= |q| && NoQos0(q) && !ReadyForFlight(l, c, 1)
    ensures ResetQueue(l, f, q, i, c) == (f, q, Add(c, Total(q[i..])))
    ensures !ReadyForFlight(l, Add(c, Total(q[i..])), 1)
    decreases |q| - i
  {
    hide Total, Add, Plus;
    if i == |q| {
      TotalNone();
      AddNone(c);
      assert q[i..] == [];
    } else {
      TallyFrom(c, q, i);
      ReadyFalls(l, c, q[i]);
      assert ReadyForFlight(l, Plus(c, q[i]), q[i].qos) == ReadyForFlight(l, Plus(c, q[i]), 1);
      ResetStuck(l, f, q, i + 1, Plus(c, q[i]));
    }
  }

  /** The outcome of the reset of the queue: order kept, every message counted once, and the queue is
    * left over only if there is no room. */
  lemma {:induction false} ResetQueueIs(l: Limits, f: seq<Msg>, q: seq<Msg>, c: Counts)
    requires NoQos0(q)
    ensures var r := ResetQueue(l, f, q, 0, c);
            && Same(r.0 + r.1, f + q) && r.2 == Add(c, Total(q))
            && (r.1 != [] ==> !ReadyForFlight(l, r.2, 1))
            && (l.maxInflight > 0 && Total(f).count12 <= l.maxInflight && Total(f).count12 <= c.count12 ==>
                  Total(r.0).count12 <= l.maxInflight)
    decreases |q|
  {
    hide Total, Add, Plus;
    if q == [] {
      TotalNone();
      AddNone(c);
    } else {
      var d := Plus(c, q[0]);
      TallyFrom(c, q, 0);
      assert q[0..] == q;
      assert ReadyForFlight(l, d, q[0].qos) == ReadyForFlight(l, d, 1);
      if ReadyForFlight(l, d, 1) {
        var m := q[0].(state := PublishState(q[0].qos));
        assert q[0 := m][1..] == q[1..];
        ResetQueueIs(l, f + [m], q[1..], d);
        MoveSame(f, q, m);
        var r := ResetQueue(l, f, q, 0, c);
        SameTrans(r.0 + r.1, f + [m] + q[1..], f + q);
        if l.maxInflight > 0 && Total(f).count12 <= c.count12 {
          OneMore(l, f, m, q[0], c);
        }
      } else {
        ResetStuck(l, f, q, 1, d);
      }
    }
  }

  lemma OneMore(l: Limits, f: seq<Msg>, m: Msg, n: Msg, c: Counts)
    requires Ident(m) == Ident(n) && n.qos > 0 && ReadyForFlight(l, Plus(c, n), 1)
    requires l.maxInflight > 0 && Total(f).count12 <= c.count12
    ensures Total(f + [m]).count12 <= Plus(c, n).count12 < l.maxInflight
  {
    TotalLast(f, m);
  }

  /** The loop over the queue keeps the order, whatever it moves. */
  lemma {:induction false} ResetQueueSame(l: Limits, f: seq<Msg>, q: seq<Msg>, i: nat, c: Counts)
    requires i <= |q|
    ensures var r := ResetQueue(l, f, q, i, c); Same(r.0 + r.1, f + q)
    decreases |q|, |q| - i
  {
    hide Plus, ReadyForFlight;
    if i < |q| {
      var d := Plus(c, q[i]);
      if ReadyForFlight(l, d, q[i].qos) {
        var p := q[i := q[i].(state := PublishState(q[i].qos))];
        var r := ResetQueue(l, f, q, i, c);
        ResetQueueSame(l, f + [p[0]], p[1..], 0, d);
        assert f + [p[0]] + p[1..] == f + p;
        assert Same(f + p, f + q);
        SameTrans(r.0 + r.1, f + p, f + q);
      } else {
        ResetQueueSame(l, f, q, i + 1, d);
      }
    }
  }

  // ----- what the reset counts -----

  /** A QoS 0 message in the queue behind one for which there is no room. */
  predicate LateQos0(l: Limits, q: seq<Msg>, c: Counts) {
    q != [] &&
    var d := Plus(c, q[0]);
    if ReadyForFlight(l, d, q[0].qos) then LateQos0(l, q[1..], d) else exists j :: 0 < j < |q| && q[j].qos == 0
  }

  /** The messages that the loop over the queue counts again: if it finds room for one behind the head, it
    * moves the head and starts again with the message behind that, up to the one with room. */
  function Again(l: Limits, q: seq<Msg>, i: nat, c: Counts): seq<Msg>
    requires i <= |q|
    decreases |q|, |q| - i
  {
    if i == |q| then []
    else
      var d := Plus(c, q[i]);
      if ReadyForFlight(l, d, q[i].qos) then
        var p := q[i := q[i].(state := PublishState(q[i].qos))];
        p[1..i + 1] + Again(l, p[1..], 0, d)
      else Again(l, q, i + 1, d)
  }

  /** All four counters: what is in the queue from position `i` on, and what is counted again. */
  lemma {:induction false} ResetQueueCounts(l: Limits, f: seq<Msg>, q: seq<Msg>, i: nat, c: Counts)
    requires i <= |q|
    ensures ResetQueue(l, f, q, i, c).2 == Add(Add(c, Total(q[i..])), Total(Again(l, q, i, c)))
    decreases |q|, |q| - i
  {
    hide Total, Add, Plus, ReadyForFlight;
    if i == |q| {
      TotalNone();
      AddNone(c);
      assert q[i..] == [];
    } else {
      var d := Plus(c, q[i]);
      TallyFrom(c, q, i);
      if ReadyForFlight(l, d, q[i].qos) {
        var p := q[i := q[i].(state := PublishState(q[i].qos))];
        ResetQueueCounts(l, f + [p[0]], p[1..], 0, d);
        var again := Again(l, p[1..], 0, d);
        assert p[1..][0..] == p[1..i + 1] + q[i + 1..];
        TotalJoin(p[1..i + 1], q[i + 1..]);
        TotalJoin(p[1..i + 1], again);
        AddCrossed(d, Total(p[1..i + 1]), Total(q[i + 1..]), Total(again));
      } else {
        ResetQueueCounts(l, f, q, i + 1, d);
      }
    }
  }

  lemma AddCrossed(a: Counts, b: Counts, c: Counts, d: Counts)
    ensures Add(Add(a, Add(b, c)), d) == Add(Add(a, c), Add(b, d))
  {
  }

  /** Nothing is counted again exactly if the loop meets no message with room behind the head. */
  lemma {:induction false} NothingAgainIff(l: Limits, q: seq<Msg>, i: nat, c: Counts)
    requires i <= |q| && (i > 0 ==> !ReadyForFlight(l, c, 1))
    ensures Again(l, q, i, c) == [] <==>
            if i == 0 then !LateQos0(l, q, c) else forall j :: i <= j < |q| ==> q[j].qos != 0
    decreases |q|, |q| - i
  {
    if i < |q| {
      var d := Plus(c, q[i]);
      if ReadyForFlight(l, d, q[i].qos) {
        var p := q[i := q[i].(state := PublishState(q[i].qos))];
        NothingAgainIff(l, p[1..], 0, d);
        if i == 0 {
          assert p[1..] == q[1..] && p[1..1] == [];
        } else {
          assert q[i].qos == 0 && |p[1..i + 1]| == i;
        }
      } else {
        NothingAgainIff(l, q, i + 1, d);
      }
    }
  }

  /** The messages in flight that the reset passes over, each behind a stray that it drops. */
  function PassedOver(q: seq<Msg>): seq<Msg>
    decreases |q|
  {
    if q == [] then []
    else if !Stray(q[0]) then PassedOver(q[1..])
    else if |q| == 1 then []
    else [q[1]] + PassedOver(q[2..])
  }

  lemma {:induction false} NonePassed(q: seq<Msg>)
    requires forall i :: 0 <= i < |q| ==> !Stray(q[i])
    ensures PassedOver(q) == []
  {
    if q != [] {
      NonePassed(q[1..]);
    }
  }

  /** What is left in flight is counted, but for the messages passed over. */
  lemma {:induction false} ResetFlightCounts(q: seq<Msg>, c: Counts)
    ensures var g := ResetFlight(q, c); Add(g.counts, Total(PassedOver(q))) == Add(c, Total(g.kept))
    decreases |q|
  {
    hide Total, Add, Plus, Minus;
    if q == [] || (Stray(q[0]) && |q| == 1) {
      TotalNone();
      MinusPlus(c, q);
    } else {
      var m := q[0];
      MinusPlus(c, q);
      if !Stray(m) {
        ResetFlightCounts(q[1..], Plus(c, m));
        CountFirst(c, ResetOne(m), ResetFlight(q[1..], Plus(c, m)).kept);
        PlusSame(c, ResetOne(m), m);
      } else {
        var g, passed := ResetFlight(q[2..], c), PassedOver(q[2..]);
        ResetFlightCounts(q[2..], c);
        TotalJoin([q[1]], g.kept);
        TotalJoin([q[1]], passed);
        AddAgain(g.counts, Total([q[1]]), Total(passed));
        AddAgain(c, Total([q[1]]), Total(g.kept));
      }
    }
  }

  lemma MinusPlus(c: Counts, q: seq<Msg>)
    ensures q != [] ==> Minus(Plus(c, q[0]), q[0]) == c
  {
  }

  lemma CountFirst(c: Counts, m: Msg, rest: seq<Msg>)
    ensures Add(c, Total([m] + rest)) == Add(Plus(c, m), Total(rest))
  {
    hide Total, Add, Plus;
    var q := [m] + rest;
    TallyFrom(c, q, 0);
    assert q[0..] == q && q[1..] == rest;
  }

  lemma PlusSame(c: Counts, m: Msg, n: Msg)
    requires Ident(m) == Ident(n)
    ensures Plus(c, m) == Plus(c, n)
  {
    assert m.store == n.store && m.qos == n.qos;
  }

  /** All four counters after a reset of any session: those of the two lists, without what is passed over
    * in flight, and with what is counted again in the queue. */
  lemma ResetCounts(l: Limits, s: Session)
    ensures var r, g := Reset(l, s), ResetFlight(s.inflight, NONE);
            Add(r.counts, Total(PassedOver(s.inflight))) ==
            Add(Add(Total(g.kept), Total(s.queued)), Total(Again(l, s.queued, 0, g.counts)))
  {
    hide Total, ResetFlight, ResetQueue, Again, PassedOver;
    var g := ResetFlight(s.inflight, NONE);
    ResetFlightCounts(s.inflight, NONE);
    ResetQueueCounts(l, g.kept, s.queued, 0, g.counts);
    assert s.queued[0..] == s.queued;
  }

  /** The reset gets the counters right, all four of them, exactly if what it counts again adds up to what
    * it passes over.  Apart from what it passes over, msg_count is never too small, and the counters are
    * right exactly if no QoS 0 message waits behind a message for which there is no room. */
  lemma ResetCountsIff(l: Limits, s: Session)
    ensures var r, g := Reset(l, s), ResetFlight(s.inflight, NONE);
            var passed, late := PassedOver(s.inflight), LateQos0(l, s.queued, g.counts);
            && (r.counts == Add(Total(g.kept), Total(s.queued)) <==>
                  Total(passed) == Total(Again(l, s.queued, 0, g.counts)))
            && (Add(r.counts, Total(passed)) == Add(Total(g.kept), Total(s.queued)) <==> !late)
            && r.counts.count + |passed| >= |g.kept| + |s.queued|
            && (r.counts.count + |passed| == |g.kept| + |s.queued| <==> !late)
  {
    hide Total, ResetFlight, ResetQueue, LateQos0, Again, Reset, PassedOver;
    var g := ResetFlight(s.inflight, NONE);
    ResetCounts(l, s);
    NothingAgainIff(l, s.queued, 0, g.counts);
    TotalNone();
    TotalNat(g.kept);
    TotalNat(s.queued);
    TotalNat(PassedOver(s.inflight));
    TotalNat(Again(l, s.queued, 0, g.counts));
  }

  /** After a takeover of any session all four counters are right exactly if what is counted again adds up
    * to what is passed over; in particular if there is neither. */
  lemma TakeOverCountedIff(l: Limits, s: Session)
    ensures var g := ResetFlight(s.inflight, NONE);
            && (Counted(TakeOver(l, s)) <==>
                  Total(PassedOver(s.inflight)) == Total(Again(l, s.queued, 0, g.counts)))
            && (PassedOver(s.inflight) == [] ==>
                  (Counted(TakeOver(l, s)) <==> !LateQos0(l, s.queued, g.counts)))
  {
    hide Total, Add, ResetQueue, ResetFlight, Again, LateQos0, PassedOver;
    var g, t := ResetFlight(s.inflight, NONE), TakeOver(l, s);
    if s.inflight == [] && s.queued == [] {
      TakeOverNothing(l);
    } else {
      ResetCounts(l, s);
      ResetQueueSame(l, g.kept, s.queued, 0, g.counts);
      SameAlike(t.All(), g.kept + s.queued);
      TotalAlike(t.All(), g.kept + s.queued);
      TotalJoin(t.inflight, t.queued);
      TotalJoin(g.kept, s.queued);
      AddEqual(t.counts, Add(Total(g.kept), Total(s.queued)), Total(PassedOver(s.inflight)),
               Total(Again(l, s.queued, 0, g.counts)));
    }
    NothingAgainIff(l, s.queued, 0, g.counts);
    TotalNone();
    TotalNat(Again(l, s.queued, 0, g.counts));
  }

  /** With QoS 2 only inbound in flight, as in every run of legal steps, nothing is passed over. */
  lemma ProperCountedIff(l: Limits, s: Session)
    requires Proper(s.inflight)
    ensures Counted(TakeOver(l, s)) <==> !LateQos0(l, s.queued, Total(s.inflight))
  {
    hide Total, Add, TakeOver, LateQos0;
    NonePassed(s.inflight);
    ResetFlightIs(s.inflight, NONE);
    AddNone(Total(s.inflight));
    TakeOverCountedIff(l, s);
  }

  lemma TakeOverNothing(l: Limits)
    ensures PassedOver([]) == [] && Again(l, [], 0, ResetFlight([], NONE).counts) == []
    ensures Add(Total([]), Total([])) == NONE
  {
    hide Total, Add, ResetFlight;
    TotalNone();
    AddNone(NONE);
  }

  lemma AddEqual(a: Counts, b: Counts, c: Counts, d: Counts)
    requires Add(a, c) == Add(b, d)
    ensures a == b <==> c == d
  {
  }

  // ----- counters and limits over every run -----

  /** What callers hand over. */
  predicate Legal(e: Event) {
    e.Inserting? ==> 0 <= e.n.qos <= 2 && (e.n.dir == In ==> e.n.qos == 2)
  }

  predicate WithinLimits(l: Limits, s: Session) {
    l.maxInflight > 0 ==>
      && Total(s.inflight).count12 <= l.maxInflight
      && (l.maxQueued > 0 ==> s.counts.count12 <= l.maxInflight + l.maxQueued)
  }

  /** The counters are those of the lists, the limits hold, and no QoS 0 message is in the queue. */
  predicate Sound(l: Limits, s: Session) {
    Counted(s) && WithinLimits(l, s) && Proper(s.inflight) && Proper(s.queued) && NoQos0(s.queued)
  }

  lemma AlikeFacts(a: seq<Msg>, b: seq<Msg>)
    requires Alike(a, b)
    ensures Proper(b) ==> Proper(a)
    ensures NoQos0(b) ==> NoQos0(a)
  {
    forall i | 0 <= i < |a| ensures a[i].qos == b[i].qos && a[i].dir == b[i].dir {
      assert Ident(a[i]) == Ident(b[i]);
    }
  }

  lemma InsertSound(l: Limits, s: Session, n: New, known: bool, already: bool)
    requires Sound(l, s) && !l.queueQos0 && Legal(Inserting(n, known, already))
    ensures Sound(l, Insert(l, s, n, known, already))
  {
    hide Total, Add;
    var p := PlaceOf(l, s, n, known, already);
    var m := Made(s, n, p);
    TotalLast(s.inflight, m);
    TotalLast(s.queued, m);
    PlusAdd(Total(s.inflight), Total(s.queued), m);
    CountParts(s);
  }

  lemma CountParts(s: Session)
    requires Counted(s)
    ensures 0 <= Total(s.inflight).count12 <= s.counts.count12
    ensures s.counts.count12 == Total(s.inflight).count12 + Total(s.queued).count12
  {
    TotalNat(s.inflight);
    TotalNat(s.queued);
  }

  /** Moving messages between the lists, keeping their order and their number, keeps the counters. */
  lemma MovedSound(l: Limits, s: Session, t: Session)
    requires Sound(l, s) && t.counts == s.counts && Alike(t.All(), s.All()) && |t.queued| <= |s.queued|
    requires l.maxInflight > 0 ==> Total(t.inflight).count12 <= l.maxInflight
    ensures Sound(l, t)
  {
    hide Total, Add;
    MovedCounted(s, t);
    AlikeFacts(t.All(), s.All());
    var k := |t.inflight|;
    forall i | 0 <= i < |t.queued| ensures t.queued[i].qos > 0 && t.queued[i] == t.All()[k + i] {
      assert Ident(t.All()[k + i]) == Ident(s.All()[k + i]);
    }
    forall i | 0 <= i < k ensures t.inflight[i] == t.All()[i] {
    }
  }

  lemma {:induction false} RefillLimit(l: Limits, f: seq<Msg>, q: seq<Msg>, index: int)
    ensures var r := Refill(l, f, q, index);
            && |r.queued| <= |q|
            && (l.maxInflight > 0 && Total(f).count12 <= l.maxInflight && Total(f).count12 <= index ==>
                  Total(r.inflight).count12 <= l.maxInflight)
    decreases |q|
  {
    if q != [] && RoomAt(l, index) && !(q[0].dir == In && q[0].qos != 2) {
      var m := q[0].(state := if q[0].dir == Out then PublishState(q[0].qos) else WaitForPubrel);
      TotalLast(f, m);
      RefillLimit(l, f + [m], q[1..], index + 1);
    }
  }

  lemma {:induction false} WriteRefillLimit(l: Limits, f: seq<Msg>, q: seq<Msg>, index: int, sends: nat)
    ensures var r := WriteRefill(l, f, q, index, sends);
            && |r.queued| <= |q|
            && (l.maxInflight > 0 && Total(f).count12 <= l.maxInflight && Total(f).count12 <= index ==>
                  Total(r.inflight).count12 <= l.maxInflight)
    decreases |q|
  {
    if q != [] && RoomAt(l, index) && !(q[0].dir == In && q[0].qos != 2) {
      if q[0].dir == In && sends == 0 {
        TotalLast(f, q[0].(state := SendPubrec));
      } else {
        var m := q[0].(state := if q[0].dir == Out then PublishState(q[0].qos) else WaitForPubrel);
        TotalLast(f, m);
        WriteRefillLimit(l, f + [m], q[1..], index + 1, if q[0].dir == Out then sends else sends - 1);
      }
    }
  }

  lemma {:induction false} KeptIs(q: seq<Msg>, mid: int, dir: Direction)
    ensures Proper(q) ==> Proper(Kept(q, mid, dir))
    ensures Total(Kept(q, mid, dir)).count12 <= Total(q).count12
    ensures |Kept(q, mid, dir)| <= |q|
  {
    hide Total, Add, Plus;
    TotalKept(q, mid, dir);
    TotalNat(Dropped(q, mid, dir));
    SumLess(Total(Kept(q, mid, dir)), Total(Dropped(q, mid, dir)));
    KeptMembers(q, mid, dir);
  }

  lemma SumLess(a: Counts, b: Counts)
    requires b.count12 >= 0
    ensures a.count12 <= Add(a, b).count12
  {
  }

  lemma {:induction false} KeptMembers(q: seq<Msg>, mid: int, dir: Direction)
    ensures Proper(q) ==> Proper(Kept(q, mid, dir))
    ensures |Kept(q, mid, dir)| <= |q|
  {
    if q != [] {
      KeptMembers(q[..|q| - 1], mid, dir);
    }
  }

  lemma TakenSound(l: Limits, s: Session, mid: int, dir: Direction)
    requires Sound(l, s)
    ensures Sound(l, Taken(s, mid, dir))
  {
    hide Total, Kept, Dropped, Add, Sub, MinusAll;
    var gone := Dropped(s.inflight, mid, dir);
    KeptIs(s.inflight, mid, dir);
    TotalKept(s.inflight, mid, dir);
    TotalNat(gone);
    MinusAllIsSub(s.counts, gone);
    TakenCounts(Total(Kept(s.inflight, mid, dir)), Total(gone), Total(s.queued));
  }

  lemma TakenCounts(kept: Counts, gone: Counts, queued: Counts)
    ensures Sub(Add(Add(kept, gone), queued), gone) == Add(kept, queued)
    ensures gone.count12 >= 0 ==> Add(kept, queued).count12 <= Add(Add(kept, gone), queued).count12
  {
  }

  lemma RefilledSound(l: Limits, s: Session, index: int)
    requires Sound(l, s) && index >= |s.inflight|
    ensures Sound(l, Refilled(l, s, index)) && Alike(Refilled(l, s, index).All(), s.All())
  {
    hide Total, Refill;
    TotalNat(s.inflight);
    RefillSame(l, s.inflight, s.queued, index);
    SameAlike(Refilled(l, s, index).All(), s.All());
    RefillLimit(l, s.inflight, s.queued, index);
    MovedSound(l, s, Refilled(l, s, index));
  }

  lemma {:induction false} WriteInflightIs(q: seq<Msg>, sends: nat)
    ensures |WriteInflight(q, sends).inflight| <= |q|
    ensures Proper(q) ==> Proper(WriteInflight(q, sends).inflight)
    decreases |q|
  {
    if q != [] && (Due(q[0]) == [] || sends > 0) {
      var rest := WriteInflight(q[1..], if Due(q[0]) == [] then sends else sends - 1).inflight;
      WriteInflightIs(q[1..], if Due(q[0]) == [] then sends else sends - 1);
      assert Proper(q) ==> Proper(q[1..]);
      var w, n := WriteInflight(q, sends).inflight, if Due(q[0]) == [] then q[0] else AfterSend(q[0]);
      assert w == rest || w == [n] + rest;
      assert Ident(n) == Ident(q[0]);
    }
  }

  lemma WriteSound(l: Limits, s: Session, sends: nat)
    requires Sound(l, s)
    ensures Sound(l, Write(l, s, sends).0)
  {
    hide Total, Add, Sub, MinusAll, WriteInflight, WriteRefill;
    var w := WriteInflight(s.inflight, sends);
    var t := s.(inflight := w.inflight, counts := MinusAll(s.counts, w.dropped));
    WriteInflightTotal(s.inflight, sends);
    WriteInflightIs(s.inflight, sends);
    TotalNat(w.dropped);
    MinusAllIsSub(s.counts, w.dropped);
    TakenCounts(Total(w.inflight), Total(w.dropped), Total(s.queued));
    SumLess(Total(w.inflight), Total(w.dropped));
    assert Sound(l, t);
    if w.ok {
      TotalNat(s.inflight);
      WriteRefillSame(l, w.inflight, s.queued, |s.inflight|, w.sends);
      SameAlike(Write(l, s, sends).0.All(), t.All());
      WriteRefillLimit(l, w.inflight, s.queued, |s.inflight|, w.sends);
      MovedSound(l, t, Write(l, s, sends).0);
    }
  }

  /** A takeover recomputes all four counters, whatever they were, keeps inflight ++ queued, and leaves
    * messages waiting only if there is no room. */
  lemma TakeOverIs(l: Limits, s: Session)
    requires NoQos0(s.queued) && Proper(s.inflight)
    ensures var t := TakeOver(l, s);
            && Counted(t) && Same(t.All(), s.All()) && Alike(t.All(), s.All())
               && t.inserted == s.inserted && |t.queued| <= |s.queued|
            && t.counts == Add(Total(s.inflight), Total(s.queued))
            && (t.queued != [] ==> !ReadyForFlight(l, t.counts, 1))
            && (l.maxInflight > 0 && Total(s.inflight).count12 <= l.maxInflight ==>
                  Total(t.inflight).count12 <= l.maxInflight)
  {
    hide Total, Add, ResetQueue, ResetInflight, ResetFlight;
    if s.inflight == [] && s.queued == [] {
      TotalNone();
      AddNone(NONE);
    } else {
      var f, t := ResetInflight(s.inflight), TakeOver(l, s);
      SameAlike(f, s.inflight);
      TotalAlike(f, s.inflight);
      ResetFlightIs(s.inflight, NONE);
      AddNone(Total(f));
      ResetQueueIs(l, f, s.queued, Total(f));
      SameJoin(f, s.inflight, s.queued, s.queued);
      SameTrans(t.All(), f + s.queued, s.All());
      SameAlike(t.All(), s.All());
      ResetShrinks(l, f, s.queued, 0, Total(f));
      MovedCounted(s, t);
    }
  }

  lemma MovedCounted(s: Session, t: Session)
    requires Alike(t.All(), s.All()) && t.counts == Add(Total(s.inflight), Total(s.queued))
    ensures Counted(t)
  {
    hide Total, Add;
    TotalAlike(t.All(), s.All());
    TotalJoin(s.inflight, s.queued);
    TotalJoin(t.inflight, t.queued);
  }

  lemma TakeOverSound(l: Limits, s: Session)
    requires Sound(l, s)
    ensures Sound(l, TakeOver(l, s))
  {
    hide Total, Add, TakeOver;
    var t := TakeOver(l, s);
    TakeOverIs(l, s);
    MovedSound(l, s, t);
  }

  lemma {:induction false} ResetShrinks(l: Limits, f: seq<Msg>, q: seq<Msg>, i: nat, c: Counts)
    requires i <= |q|
    ensures |ResetQueue(l, f, q, i, c).1| <= |q|
    decreases |q|, |q| - i
  {
    if i < |q| {
      var d := Plus(c, q[i]);
      if ReadyForFlight(l, d, q[i].qos) {
        var p := q[i := q[i].(state := PublishState(q[i].qos))];
        ResetShrinks(l, f + [p[0]], p[1..], 0, d);
      } else {
        ResetShrinks(l, f, q, i + 1, d);
      }
    }
  }

  lemma UpdateSound(l: Limits, s: Session, mid: int)
    requires Sound(l, s)
    ensures var t := Step(l, s, Updating(mid)).session; Sound(l, t) && Same(t.All(), s.All())
  {
    hide Total, Update;
    var t := Step(l, s, Updating(mid)).session;
    UpdateSame(s.inflight, mid, Out, WaitForPubcomp);
    SameJoin(t.inflight, s.inflight, s.queued, s.queued);
    SameAlike(t.inflight, s.inflight);
    AlikeJoin(t.inflight, s.inflight, s.queued, s.queued);
    TotalAlike(t.inflight, s.inflight);
    MovedSound(l, s, t);
  }

  lemma StepSound(l: Limits, s: Session, e: Event)
    requires Sound(l, s) && !l.queueQos0 && Legal(e)
    ensures Sound(l, Step(l, s, e).session)
  {
    hide Sound, Total, Refill, Refilled, Taken, Write, TakeOver, Insert;
    match e
    case Inserting(n, known, already) => InsertSound(l, s, n, known, already);
    case Deleting(mid) =>
      TakenSound(l, s, mid, Out);
      TakenShape(s, mid, Out);
      RefilledSound(l, Taken(s, mid, Out), |Kept(s.inflight, mid, Out)|);
    case Releasing(mid) =>
      TakenSound(l, s, mid, In);
      TakenShape(s, mid, In);
      RefilledSound(l, Taken(s, mid, In), |s.inflight|);
    case Updating(mid) => UpdateSound(l, s, mid);
    case Writing(sends) => WriteSound(l, s, sends);
    case Offline => OfflineSound(l, s);
    case Back => TakeOverSound(l, s);
    case Clearing => ClearSound(l, s);
  }

  lemma TakenShape(s: Session, mid: int, dir: Direction)
    ensures Taken(s, mid, dir).inflight == Kept(s.inflight, mid, dir)
    ensures |Kept(s.inflight, mid, dir)| <= |s.inflight|
  {
    KeptMembers(s.inflight, mid, dir);
  }

  lemma OfflineSound(l: Limits, s: Session)
    requires Sound(l, s)
    ensures Sound(l, s.(online := false))
  {
  }

  lemma ClearSound(l: Limits, s: Session)
    requires Sound(l, s)
    ensures Sound(l, Clear(s))
  {
    hide Total, Add;
    TotalNone();
    AddNone(NONE);
  }

  /** Over every run, QoS 0 messages in flight included: the counters are right, at most max_inflight
    * messages of QoS 1 and 2 are in flight, and at most max_inflight + max_queued are held. */
  lemma {:induction false} RunSound(l: Limits, s: Session, es: seq<Event>)
    requires Sound(l, s) && !l.queueQos0 && forall e <- es :: Legal(e)
    ensures Sound(l, Run(l, s, es))
    decreases |es|
  {
    hide Sound;
    if es != [] {
      StepSound(l, s, es[0]);
      RunSound(l, Step(l, s, es[0]).session, es[1..]);
    }
  }

  lemma FreshSound(l: Limits)
    ensures Sound(l, FRESH)
  {
    hide Total, Add;
    TotalNone();
    AddNone(NONE);
  }
}
