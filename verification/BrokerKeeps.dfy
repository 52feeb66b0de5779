/** Nothing is lost at the broker: when db__message_insert keeps a message, and how long it stays, without
  * reference to the functions that decide it. */
module BrokerKeeps {
  import opened Stores
  import opened BrokerSpec
  import opened BrokerProofs
  import opened BrokerOrder
  import opened BrokerSequence
  import opened BrokerResume
  import opened BrokerReceived
  import opened BrokerEcho

  // ----- when a new message is kept -----

  /** A limit of 0 is none. */
  predicate Below(n: int, max: nat) {
    max == 0 || n < max
  }

  /** Room for one more message of QoS 1 or 2 in flight. */
  predicate FlightRoom(l: Limits, c: Counts) {
    Below(c.count12, l.maxInflight) && Below(c.bytes12, l.maxInflightBytes)
  }

  /** Room for one more message to wait.  While the client is connected the limits for messages in flight come
    * on top; the difference of the byte counters is taken modulo 2 to the 64th. */
  predicate QueueRoom(l: Limits, c: Counts, online: bool, qos: int) {
    var n, bytes := if qos == 0 then c.count else c.count12, if qos == 0 then c.bytes else c.bytes12;
    var more, moreBytes := if online then l.maxInflight else 0, if online then l.maxInflightBytes else 0;
    && (l.maxQueued == 0 || n < more + l.maxQueued)
    && (l.maxQueuedBytes == 0 || (bytes - moreBytes) % 0x1_0000_0000_0000_0000 < l.maxQueuedBytes)
  }

  /** The message is for a client with an identifier, it was not sent to it before, and there is room. */
  predicate Admitted(l: Limits, s: Session, e: Event) {
    && e.Inserting? && e.known && !e.already
    && if !s.online then (e.n.qos != 0 || l.queueQos0) && QueueRoom(l, s.counts, false, e.n.qos)
       else if e.n.qos == 0 || FlightRoom(l, s.counts) then e.n.dir == Out || e.n.qos == 2
       else QueueRoom(l, s.counts, true, e.n.qos)
  }

  /** What is kept of a new message, apart from its state. */
  function Entry(s: Session, n: New): Msg {
    Msg(s.inserted, n.store, n.mid, n.dir, n.qos, n.retain, false, Queued)
  }

  lemma ReadyIsRoom(l: Limits, c: Counts, online: bool, qos: int)
    ensures ReadyForFlight(l, c, qos) <==> qos == 0 || FlightRoom(l, c)
    ensures ReadyForQueue(l, c, online, qos) <==> QueueRoom(l, c, online, qos)
  {
  }

  /** A new message is kept exactly if it is admitted: with all its fields, the next serial number, at the end
    * of one of the two lists.  An outbound message in flight is due to be published by the next write, an
    * inbound one waits for its PUBREL; a waiting one is due for nothing. */
  lemma InsertIff(l: Limits, s: Session, e: Event)
    requires e.Inserting?
    ensures var t := Step(l, s, e).session;
            && (t == s <==> !Admitted(l, s, e)) && t.online == s.online
            && (Admitted(l, s, e) ==>
                  var flies := s.online && (e.n.qos == 0 || FlightRoom(l, s.counts));
                  && t.inserted == s.inserted + 1 && |t.All()| == |s.All()| + 1
                  && if flies then
                       && |t.inflight| > 0 && t.inflight[..|t.inflight| - 1] == s.inflight && t.queued == s.queued
                       && var m := t.inflight[|t.inflight| - 1];
                       && Ident(m) == Entry(s, e.n) && !m.dup
                       && if m.dir == Out then Due(m) == [SentPublish(m)] else Due(m) == [] && m.state == WaitForPubrel
                     else
                       && |t.queued| > 0 && t.queued[..|t.queued| - 1] == s.queued && t.inflight == s.inflight
                       && t.queued[|t.queued| - 1] == Entry(s, e.n))
  {
    hide ReadyForFlight, ReadyForQueue, QueueRoom, FlightRoom;
    ReadyIsRoom(l, s.counts, s.online, e.n.qos);
  }

  /** The counters of a message that is kept. */
  lemma InsertCounts(l: Limits, s: Session, e: Event)
    requires Admitted(l, s, e)
    ensures var c, d, n := s.counts, Step(l, s, e).session.counts, e.n.store.payloadlen;
            && d.count == c.count + 1 && d.bytes == c.bytes + n
            && d.count12 == c.count12 + (if e.n.qos > 0 then 1 else 0)
            && d.bytes12 == c.bytes12 + (if e.n.qos > 0 then n else 0)
  {
    hide ReadyForFlight, ReadyForQueue, QueueRoom, FlightRoom;
    ReadyIsRoom(l, s.counts, s.online, e.n.qos);
  }

  /** A message of QoS 1 or 2 for a known client, outbound or of QoS 2, not sent to it before. */
  predicate Ordinary(e: Event) {
    e.Inserting? && e.known && !e.already && 1 <= e.n.qos <= 2 && (e.n.dir == Out || e.n.qos == 2)
  }

  /** With limits on messages only: it is dropped exactly if the limits are used up, max_queued for a client
    * that is away, and max_inflight + max_queued for one that is connected. */
  lemma DroppedIff(l: Limits, s: Session, e: Event)
    requires Ordinary(e) && l.maxInflight > 0 && l.maxQueued > 0 && l.maxInflightBytes == 0 && l.maxQueuedBytes == 0
    ensures Step(l, s, e).session == s <==>
            s.counts.count12 >= if s.online then l.maxInflight + l.maxQueued else l.maxQueued
  {
    InsertIff(l, s, e);
  }

  /** Without limits on what may wait, or on what may be in flight for a connected client, nothing is dropped. */
  lemma NeverDropped(l: Limits, s: Session, e: Event)
    requires Ordinary(e)
    requires (l.maxQueued == 0 && l.maxQueuedBytes == 0)
             || (s.online && l.maxInflight == 0 && l.maxInflightBytes == 0)
    ensures Step(l, s, e).session != s
  {
    InsertIff(l, s, e);
  }

  /** With limits on octets, as long as the counters fit their words: a message may wait exactly if the octets
    * held are within the allowance for waiting messages, which for a connected client begins where that for
    * messages in flight ends.  Below that it is dropped although there is room. */
  lemma QueueBytesIff(l: Limits, c: Counts, online: bool)
    requires l.maxQueued == 0 && l.maxQueuedBytes > 0
    requires 0 <= c.bytes12 < 0x1_0000_0000_0000_0000
    requires l.maxInflightBytes + l.maxQueuedBytes <= 0x1_0000_0000_0000_0000
    ensures var least := if online then l.maxInflightBytes else 0;
            QueueRoom(l, c, online, 1) <==> least <= c.bytes12 < least + l.maxQueuedBytes
  {
    Wrapped(c.bytes12, if online then l.maxInflightBytes else 0, l.maxQueuedBytes);
  }

  lemma Wrapped(b: nat, least: nat, max: nat)
    requires b < 0x1_0000_0000_0000_0000 && least + max <= 0x1_0000_0000_0000_0000
    ensures (b - least) % 0x1_0000_0000_0000_0000 < max <==> least <= b < least + max
  {
    if b >= least {
      assert (b - least) % 0x1_0000_0000_0000_0000 == b - least;
    } else {
      assert (b - least) % 0x1_0000_0000_0000_0000 == b - least + 0x1_0000_0000_0000_0000;
    }
  }

  /** So a message is dropped although far fewer octets are held than may be, if the number of messages in
    * flight is used up and there is a limit on the octets of waiting ones. */
  lemma DroppedBelowLimits(l: Limits, s: Session, e: Event)
    requires Ordinary(e) && s.online && l.maxInflight > 0 && l.maxQueued == 0 && l.maxQueuedBytes > 0
    requires l.maxInflightBytes + l.maxQueuedBytes <= 0x1_0000_0000_0000_0000
    requires s.counts.count12 >= l.maxInflight && 0 <= s.counts.bytes12 < l.maxInflightBytes
    ensures Step(l, s, e).session == s
  {
    hide QueueRoom;
    InsertIff(l, s, e);
    QueueBytesIff(l, s.counts, true);
    SameRoomFor12(l, s.counts, true, e.n.qos);
  }

  lemma SameRoomFor12(l: Limits, c: Counts, online: bool, qos: int)
    requires qos > 0
    ensures QueueRoom(l, c, online, qos) == QueueRoom(l, c, online, 1)
  {
  }

  /** The return code: 0 for a message in flight, one that waits for a client that is away, and one that is
    * not for this client; 1 for an inbound one that is not held; 2 for one that waits or is dropped for want
    * of room. */
  lemma InsertReturns(l: Limits, s: Session, e: Event)
    requires e.Inserting?
    ensures var p := PlaceOf(l, s, e.n, e.known, e.already);
            (if p.ToFlight? then 0 else p.rc) ==
            if !e.known || e.already then 0
            else if s.online && (e.n.qos == 0 || FlightRoom(l, s.counts)) then
              if e.n.dir == In && e.n.qos != 2 then 1 else 0
            else if Admitted(l, s, e) && !s.online then 0 else 2
  {
    hide ReadyForFlight, ReadyForQueue, QueueRoom, FlightRoom;
    ReadyIsRoom(l, s.counts, s.online, e.n.qos);
  }

  // ----- how long a message stays -----

  /** It is new and kept. */
  predicate Enters(l: Limits, s: Session, e: Event, m: Msg) {
    e.Inserting? && Admitted(l, s, e) && m == Entry(s, e.n)
  }

  /** The session holds this message, in whatever state. */
  predicate Holds(s: Session, m: Msg) {
    m in Idents(s.All())
  }

  predicate Flies(s: Session, m: Msg) {
    m in Idents(s.inflight)
  }

  /** The message is in flight and its PUBACK, PUBCOMP or PUBREL comes, or it has QoS 0 and is sent; or the
    * session is cleared. */
  predicate Leaves(l: Limits, s: Session, e: Event, m: Msg) {
    e.Clearing?
    || (Flies(s, m)
        && ((m.dir == Out && e == Deleting(m.mid)) || (m.dir == In && e == Releasing(m.mid))
            || (m.qos == 0 && Publishes(Step(l, s, e).sent, m.serial))))
  }

  /** Messages of QoS 0, and no others, are published in the state for QoS 0. */
  predicate Plain(q: seq<Msg>) {
    forall i :: 0 <= i < |q| ==> PlainOne(q[i])
  }

  predicate PlainOne(m: Msg) {
    && (m.state == PublishQos0 ==> m.qos == 0)
    && (m.qos == 0 ==> m.state != PublishQos1 && m.state != PublishQos2)
  }

  lemma {:induction false} KeptPlain(q: seq<Msg>, mid: int, dir: Direction)
    requires Plain(q)
    ensures Plain(Kept(q, mid, dir))
  {
    hide PlainOne;
    if q != [] {
      KeptPlain(q[..|q| - 1], mid, dir);
    }
  }

  lemma {:induction false} RefillPlain(l: Limits, f: seq<Msg>, q: seq<Msg>, index: int)
    requires Plain(f) && Plain(q)
    ensures var r := Refill(l, f, q, index); Plain(r.inflight) && Plain(r.queued)
    decreases |q|
  {
    if q != [] && RoomAt(l, index) && !(q[0].dir == In && q[0].qos != 2) {
      var m := q[0].(state := if q[0].dir == Out then PublishState(q[0].qos) else WaitForPubrel);
      RefillPlain(l, f + [m], q[1..], index + 1);
    }
  }

  lemma {:induction false} WriteRefillPlain(l: Limits, f: seq<Msg>, q: seq<Msg>, index: int, sends: nat)
    requires Plain(f) && Plain(q)
    ensures var r := WriteRefill(l, f, q, index, sends); Plain(r.inflight) && Plain(r.queued)
    decreases |q|
  {
    if q != [] && RoomAt(l, index) && !(q[0].dir == In && q[0].qos != 2) && !(q[0].dir == In && sends == 0) {
      var m := q[0].(state := if q[0].dir == Out then PublishState(q[0].qos) else WaitForPubrel);
      WriteRefillPlain(l, f + [m], q[1..], index + 1, if q[0].dir == Out then sends else sends - 1);
    }
  }

  lemma {:induction false} WrittenPlain(q: seq<Msg>, sends: nat)
    requires Plain(q)
    ensures Plain(WriteInflight(q, sends).inflight)
    decreases |q|
  {
    if q != [] && (Due(q[0]) == [] || sends > 0) {
      WrittenPlain(q[1..], if Due(q[0]) == [] then sends else sends - 1);
    }
  }

  lemma {:induction false} UpdatePlain(q: seq<Msg>, mid: int)
    requires Plain(q)
    ensures Plain(Update(q, mid, Out, WaitForPubcomp))
  {
    if q != [] && !q[0].Is(mid, Out) {
      UpdatePlain(q[1..], mid);
    }
  }

  lemma {:induction false} ResetFlightPlain(q: seq<Msg>, c: Counts)
    requires Plain(q)
    ensures Plain(ResetFlight(q, c).kept)
    decreases |q|
  {
    hide Plus, Minus;
    if q != [] {
      if !Stray(q[0]) {
        ResetFlightPlain(q[1..], Plus(c, q[0]));
      } else if |q| > 1 {
        ResetFlightPlain(q[2..], Minus(Plus(c, q[0]), q[0]));
      }
    }
  }

  lemma {:induction false} ResetQueuePlain(l: Limits, f: seq<Msg>, q: seq<Msg>, i: nat, c: Counts)
    requires i <= |q| && Plain(f) && Plain(q)
    ensures var r := ResetQueue(l, f, q, i, c); Plain(r.0) && Plain(r.1)
    decreases |q|, |q| - i
  {
    hide Plus, ReadyForFlight;
    if i < |q| {
      var d := Plus(c, q[i]);
      if ReadyForFlight(l, d, q[i].qos) {
        var p := q[i := q[i].(state := PublishState(q[i].qos))];
        ResetQueuePlain(l, f + [p[0]], p[1..], 0, d);
      } else {
        ResetQueuePlain(l, f, q, i + 1, d);
      }
    }
  }

  predicate PlainSession(s: Session) {
    Plain(s.inflight) && Plain(s.queued)
  }

  lemma StepPlain(l: Limits, s: Session, e: Event)
    requires PlainSession(s)
    ensures PlainSession(Step(l, s, e).session)
  {
    hide PlainOne, Kept, Refill, Dropped, MinusAll, Update, PlaceOf;
    hide WriteInflight, WriteRefill, ResetFlight, ResetQueue;
    match e
    case Inserting(n, known, already) => MadePlain(s, n, PlaceOf(l, s, n, known, already));
    case Deleting(mid) =>
      KeptPlain(s.inflight, mid, Out);
      RefillPlain(l, Kept(s.inflight, mid, Out), s.queued, |Kept(s.inflight, mid, Out)|);
    case Releasing(mid) =>
      KeptPlain(s.inflight, mid, In);
      RefillPlain(l, Kept(s.inflight, mid, In), s.queued, |s.inflight|);
    case Updating(mid) => UpdatePlain(s.inflight, mid);
    case Writing(sends) =>
      var w := WriteInflight(s.inflight, sends);
      WrittenPlain(s.inflight, sends);
      WriteRefillPlain(l, w.inflight, s.queued, |s.inflight|, w.sends);
    case Offline =>
    case Back =>
      var g := ResetFlight(s.inflight, NONE);
      ResetFlightPlain(s.inflight, NONE);
      ResetQueuePlain(l, g.kept, s.queued, 0, g.counts);
    case Clearing =>
  }

  lemma MadePlain(s: Session, n: New, p: Place)
    ensures PlainOne(Made(s, n, p))
  {
  }

  // ----- membership -----

  lemma InIdents(q: seq<Msg>, m: Msg)
    ensures m in Idents(q) <==> exists i :: 0 <= i < |q| && Ident(q[i]) == m
  {
    if m in Idents(q) {
      var i :| 0 <= i < |q| && Idents(q)[i] == m;
    }
    if i :| 0 <= i < |q| && Ident(q[i]) == m {
      assert Idents(q)[i] == m;
    }
  }

  lemma HoldsParts(s: Session, m: Msg)
    ensures Holds(s, m) <==> Flies(s, m) || m in Idents(s.queued)
  {
    IdentsJoin(s.inflight, s.queued);
  }

  lemma {:induction false} KeptIdents(q: seq<Msg>, mid: int, dir: Direction, m: Msg)
    ensures m in Idents(Kept(q, mid, dir)) <==> m in Idents(q) && !m.Is(mid, dir)
  {
    hide Idents;
    if q == [] {
      InIdents(q, m);
    } else {
      var front, n := q[..|q| - 1], q[|q| - 1];
      KeptIdents(front, mid, dir, m);
      KeptLast(q, mid, dir);
      assert q == front + [n];
      IdentsJoin(front, [n]);
      IdentsJoin(Kept(front, mid, dir), [n]);
      OneIdent(n);
    }
  }

  lemma OneIdent(n: Msg)
    ensures Idents([n]) == [Ident(n)]
  {
  }

  /** The message is the `p`th, and the writer does not drop it. */
  predicate Remains(q: seq<Msg>, p: nat, sends: nat, m: Msg) {
    p < |q| && Ident(q[p]) == m && !(q[p].state == PublishQos0 && Reached(q, p, sends))
  }

  /** The writer leaves out exactly the messages in the state for QoS 0 that it gets to. */
  lemma {:induction false} WrittenIdents(q: seq<Msg>, sends: nat, m: Msg)
    ensures m in Idents(WriteInflight(q, sends).inflight) <==> exists p :: 0 <= p < |q| && Remains(q, p, sends, m)
    decreases |q|
  {
    hide Idents, AfterSend, Due, Remains, Reached;
    var w := WriteInflight(q, sends).inflight;
    if q == [] {
      InIdents(w, m);
    } else {
      var n, rest := q[0], q[1..];
      var left := if Due(n) == [] then sends else sends - 1;
      DueShapes(n);
      if Due(n) != [] && sends == 0 {
        AllRemain(q, m);
      } else {
        var v := WriteInflight(rest, left).inflight;
        WrittenIdents(rest, left, m);
        RemainsFirst(q, sends, m);
        RemainsNext(q, sends, left, m);
        if !(n.state == PublishQos0) {
          WrittenFirst(n, v, if Due(n) == [] then n else AfterSend(n), m);
        } else {
          assert w == v;
        }
      }
    }
  }

  lemma AllRemain(q: seq<Msg>, m: Msg)
    ensures m in Idents(q) <==> exists p :: 0 <= p < |q| && Remains(q, p, 0, m)
  {
    InIdents(q, m);
    if p :| 0 <= p < |q| && Ident(q[p]) == m {
      assert Remains(q, p, 0, m);
    }
  }

  lemma RemainsFirst(q: seq<Msg>, sends: nat, m: Msg)
    requires q != [] && (Due(q[0]) != [] ==> sends > 0)
    ensures Remains(q, 0, sends, m) <==> Ident(q[0]) == m && q[0].state != PublishQos0
  {
    assert q[..0] == [];
  }

  lemma RemainsNext(q: seq<Msg>, sends: nat, left: nat, m: Msg)
    requires q != [] && (Due(q[0]) != [] ==> sends > 0) && left == if Due(q[0]) == [] then sends else sends - 1
    ensures (exists p :: 0 <= p < |q| && Remains(q, p, sends, m)) <==>
            Remains(q, 0, sends, m) || exists p :: 0 <= p < |q[1..]| && Remains(q[1..], p, left, m)
  {
    hide Reached, Due;
    DueShapes(q[0]);
    forall p | 0 < p < |q| ensures Remains(q, p, sends, m) <==> Remains(q[1..], p - 1, left, m) {
      ReachedNext(q, p, sends);
    }
    if p :| 0 <= p < |q[1..]| && Remains(q[1..], p, left, m) {
      assert Remains(q, p + 1, sends, m);
    }
  }

  lemma DueShapes(n: Msg)
    ensures |Due(n)| <= 1 && (n.state == PublishQos0 ==> Due(n) != []) && Ident(AfterSend(n)) == Ident(n)
  {
  }

  lemma WrittenFirst(n: Msg, v: seq<Msg>, k: Msg, m: Msg)
    requires Ident(k) == Ident(n)
    ensures m in Idents([k] + v) <==> m == Ident(n) || m in Idents(v)
  {
    IdentsJoin([k], v);
    OneIdent(k);
  }

  lemma ReachedNext(q: seq<Msg>, p: nat, sends: nat)
    requires 0 < p < |q| && |Due(q[0])| <= 1 && (Due(q[0]) != [] ==> sends > 0)
    ensures Reached(q, p, sends) <==> Reached(q[1..], p - 1, if Due(q[0]) == [] then sends else sends - 1)
  {
    assert q[..p][0] == q[0] && q[..p][1..] == q[1..][..p - 1];
  }

  // ----- the steps -----

  /** Nothing in flight waits. */
  lemma OnlyFlies(s: Session, m: Msg)
    requires Numbered(s) && Flies(s, m)
    ensures m !in Idents(s.queued)
  {
    InIdents(s.inflight, m);
    InIdents(s.queued, m);
    var i :| 0 <= i < |s.inflight| && Ident(s.inflight[i]) == m;
    forall j | 0 <= j < |s.queued| ensures Ident(s.queued[j]) != m {
      assert s.inflight[i] in s.inflight && s.queued[j] in s.queued;
      NotBothLists(s, s.inflight[i], s.queued[j]);
    }
  }

  lemma InsertHolds(l: Limits, s: Session, e: Event, m: Msg)
    requires e.Inserting?
    ensures Holds(Step(l, s, e).session, m) <==> Holds(s, m) || Enters(l, s, e, m)
  {
    hide Admitted, Idents, Step, FlightRoom;
    var t := Step(l, s, e).session;
    InsertIff(l, s, e);
    HoldsParts(s, m);
    HoldsParts(t, m);
    if Admitted(l, s, e) {
      var q := if |t.inflight| > |s.inflight| then t.inflight else t.queued;
      var front, last := q[..|q| - 1], q[|q| - 1];
      assert q == front + [last];
      IdentsJoin(front, [last]);
      OneIdent(last);
    }
  }

  lemma TakenHolds(l: Limits, s: Session, mid: int, dir: Direction, index: int, m: Msg)
    requires Numbered(s)
    ensures Holds(Refilled(l, Taken(s, mid, dir), index), m) <==> Holds(s, m) && !(Flies(s, m) && m.Is(mid, dir))
  {
    hide Kept, Refill, Dropped, MinusAll, Idents, Numbered;
    var kept, t := Kept(s.inflight, mid, dir), Refilled(l, Taken(s, mid, dir), index);
    RefillSame(l, kept, s.queued, index);
    SameAlike(t.All(), kept + s.queued);
    SameIdents(t.All(), kept + s.queued);
    IdentsJoin(kept, s.queued);
    KeptIdents(s.inflight, mid, dir, m);
    HoldsParts(s, m);
    if Flies(s, m) {
      OnlyFlies(s, m);
    }
  }

  lemma WriteHolds(l: Limits, s: Session, sends: nat, m: Msg)
    requires Numbered(s) && PlainSession(s) && s.online
    ensures var o := Step(l, s, Writing(sends));
            Holds(o.session, m) <==> Holds(s, m) && !(Flies(s, m) && m.qos == 0 && Publishes(o.sent, m.serial))
  {
    hide WriteInflight, WriteRefill, Idents, MinusAll, Numbered, Publishes, Plain, Remains;
    var w, o := WriteInflight(s.inflight, sends), Step(l, s, Writing(sends));
    var t := o.session;
    if w.ok {
      WriteRefillSame(l, w.inflight, s.queued, |s.inflight|, w.sends);
      SameAlike(t.All(), w.inflight + s.queued);
      SameIdents(t.All(), w.inflight + s.queued);
    }
    IdentsJoin(w.inflight, s.queued);
    WrittenIdents(s.inflight, sends, m);
    HoldsParts(s, m);
    WrittenIff(l, s, sends, m);
    if Flies(s, m) {
      OnlyFlies(s, m);
    }
  }

  /** A message in flight is dropped by the writer exactly if it has QoS 0 and is sent. */
  lemma WrittenIff(l: Limits, s: Session, sends: nat, m: Msg)
    requires Numbered(s) && PlainSession(s) && s.online
    ensures (exists p :: 0 <= p < |s.inflight| && Remains(s.inflight, p, sends, m)) <==>
            Flies(s, m) && !(m.qos == 0 && Publishes(Step(l, s, Writing(sends)).sent, m.serial))
  {
    hide Step, Numbered, Publishes, Reached, Idents;
    var q := s.inflight;
    InIdents(q, m);
    NoneTwice(s);
    StepPublishesIff(l, s, Writing(sends), m.serial);
    if i :| 0 <= i < |q| && Ident(q[i]) == m {
      assert PlainOne(q[i]);
      assert PublishesAt(q, i, sends, m.serial) <==> Reached(q, i, sends) && ToPublish(q[i]);
      assert Remains(q, i, sends, m) <==> !(q[i].state == PublishQos0 && Reached(q, i, sends));
      forall p | 0 <= p < |q| && q[p].serial == m.serial ensures p == i {
      }
    }
  }

  /** The others keep every message. */
  lemma QuietHolds(l: Limits, s: Session, e: Event, m: Msg)
    requires Proper(s.inflight) && (e.Updating? || e.Offline? || e.Back? || (e.Writing? && !s.online))
    ensures Holds(Step(l, s, e).session, m) <==> Holds(s, m)
    ensures Step(l, s, e).sent == []
  {
    hide Idents, Update, ResetFlight, ResetQueue;
    var t := Step(l, s, e).session;
    match e
    case Updating(mid) =>
      UpdateSame(s.inflight, mid, Out, WaitForPubcomp);
      SameAlike(t.inflight, s.inflight);
      SameIdents(t.inflight, s.inflight);
      HoldsParts(s, m);
      HoldsParts(t, m);
    case Writing(sends) =>
    case Offline => assert t.All() == s.All();
    case Back => BackHolds(l, s);
  }

  lemma BackHolds(l: Limits, s: Session)
    requires Proper(s.inflight)
    ensures Idents(TakeOver(l, s).All()) == Idents(s.All())
  {
    hide Idents, ResetFlight, ResetQueue, Total, Add;
    var t, f := TakeOver(l, s), ResetInflight(s.inflight);
    if s.inflight != [] || s.queued != [] {
      ResetFlightIs(s.inflight, NONE);
      ResetQueueSame(l, f, s.queued, 0, Add(NONE, Total(s.inflight)));
      SameJoin(f, s.inflight, s.queued, s.queued);
      SameTrans(t.All(), f + s.queued, s.All());
      SameAlike(t.All(), s.All());
      SameIdents(t.All(), s.All());
    } else {
      assert t.All() == s.All();
    }
  }

  /** Every step: a session holds a message exactly if it held it before and the message does not leave, or
    * if it is new and admitted. */
  lemma StepHoldsIff(l: Limits, s: Session, e: Event, m: Msg)
    requires Numbered(s) && Proper(s.inflight) && PlainSession(s)
    ensures Holds(Step(l, s, e).session, m) <==>
            (Holds(s, m) && !Leaves(l, s, e, m)) || Enters(l, s, e, m)
  {
    hide Holds, Flies, Admitted, Publishes, Numbered, PlainSession, Refill, Kept, Dropped, MinusAll, Write, Insert;
    match e
    case Inserting(_, _, _) =>
      InsertHolds(l, s, e, m);
      NoneSent(m.serial);
    case Deleting(mid) =>
      var kept := Kept(s.inflight, mid, Out);
      TakenHolds(l, s, mid, Out, |kept|, m);
      PubrecsPublishNone(Refill(l, kept, s.queued, |kept|).pubrecs, m.serial);
    case Releasing(mid) =>
      TakenHolds(l, s, mid, In, |s.inflight|, m);
      PubrecsPublishNone(Refill(l, Kept(s.inflight, mid, In), s.queued, |s.inflight|).pubrecs, m.serial);
    case Writing(sends) =>
      NoneSent(m.serial);
      if s.online {
        WriteHolds(l, s, sends, m);
      } else {
        QuietHolds(l, s, e, m);
      }
    case Clearing => ClearHolds(s, m);
    case _ =>
      NoneSent(m.serial);
      QuietHolds(l, s, e, m);
  }

  lemma ClearHolds(s: Session, m: Msg)
    ensures !Holds(Clear(s), m)
  {
  }

  // ----- every run -----

  /** The message was admitted by the `j`th step and has not left before the `k`th. */
  predicate Stayed(l: Limits, s: Session, es: seq<Event>, j: nat, k: nat, m: Msg)
    requires j < k <= |es|
  {
    && Enters(l, Past(l, s, es, j), es[j], m)
    && forall i :: j < i < k ==> !Leaves(l, Past(l, s, es, i), es[i], m)
  }

  /** Nothing is lost and nothing is kept too long: from a new session on, over every run of legal steps, the
    * session holds exactly the messages that were admitted and have not left since. */
  lemma {:induction false} HeldIff(l: Limits, es: seq<Event>, k: nat, m: Msg)
    requires k <= |es| && forall i :: 0 <= i < |es| ==> Legal(es[i])
    ensures Holds(Past(l, FRESH, es, k), m) <==> exists j :: 0 <= j < k && Stayed(l, FRESH, es, j, k, m)
    decreases k
  {
    hide Holds, Enters, Leaves, Step, Past, Legal;
    PastStart(l, FRESH, es);
    if k == 0 {
      FreshHolds(m);
    } else {
      var i := k - 1;
      var u, e := Past(l, FRESH, es, i), es[i];
      HeldIff(l, es, i, m);
      PastKept(l, es, i);
      PastNext(l, FRESH, es, i);
      StepHoldsIff(l, u, e, m);
      if j :| 0 <= j < i && Stayed(l, FRESH, es, j, i, m) {
        assert !Leaves(l, u, e, m) ==> Stayed(l, FRESH, es, j, k, m);
      }
      assert Enters(l, u, e, m) ==> Stayed(l, FRESH, es, i, k, m);
      if j :| 0 <= j < k && Stayed(l, FRESH, es, j, k, m) {
        assert j < i ==> Stayed(l, FRESH, es, j, i, m) && !Leaves(l, u, e, m);
      }
    }
  }

  lemma FreshHolds(m: Msg)
    ensures !Holds(FRESH, m)
  {
  }

  lemma FreshSession()
    ensures Numbered(FRESH) && Proper(FRESH.All()) && PlainSession(FRESH)
  {
  }

  lemma {:induction false} PastKept(l: Limits, es: seq<Event>, k: nat)
    requires k <= |es| && forall i :: 0 <= i < |es| ==> Legal(es[i])
    ensures var u := Past(l, FRESH, es, k); Numbered(u) && Proper(u.All()) && Proper(u.inflight) && PlainSession(u)
    decreases k
  {
    hide Numbered, Step, Past, Legal, Proper, PlainSession;
    PastStart(l, FRESH, es);
    if k == 0 {
      FreshSession();
    } else {
      var u, e := Past(l, FRESH, es, k - 1), es[k - 1];
      PastKept(l, es, k - 1);
      PastNext(l, FRESH, es, k - 1);
      StepNumbered(l, u, e);
      StepProper(l, u, e);
      StepPlain(l, u, e);
    }
    ProperParts(Past(l, FRESH, es, k));
  }
}
