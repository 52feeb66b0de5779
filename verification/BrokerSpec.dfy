/** What the operations of database.c do to one client's two message lists and four counters, as
  * functions on values.  A message points to a store; only its constant fields are looked at here. */
module BrokerSpec {
  import opened Stores

  datatype Direction = In | Out

  /** mosquitto_msg_state. */
  datatype State =
    | PublishQos0 | PublishQos1 | WaitForPuback | PublishQos2 | WaitForPubrec | ResendPubrel
    | WaitForPubrel | ResendPubcomp | WaitForPubcomp | SendPubrec | Queued

  /** struct mosquitto_client_msg.  `serial` numbers the messages inserted for the client, so that the
    * order of insertion can be spoken of; the C struct has no such field. */
  datatype Msg = Msg(
    serial: nat, store: Store, mid: int, dir: Direction, qos: int, retain: bool, dup: bool, state: State)
  {
    predicate Is(mid: int, dir: Direction) { this.mid == mid && this.dir == dir }
  }

  /** msg_count, msg_bytes, msg_count12, msg_bytes12. */
  datatype Counts = Counts(count: int, bytes: int, count12: int, bytes12: int)

  const NONE := Counts(0, 0, 0, 0)

  function Plus(c: Counts, m: Msg): Counts {
    var n := m.store.payloadlen;
    if m.qos > 0 then Counts(c.count + 1, c.bytes + n, c.count12 + 1, c.bytes12 + n)
    else c.(count := c.count + 1, bytes := c.bytes + n)
  }

  function Minus(c: Counts, m: Msg): Counts {
    var n := m.store.payloadlen;
    if m.qos > 0 then Counts(c.count - 1, c.bytes - n, c.count12 - 1, c.bytes12 - n)
    else c.(count := c.count - 1, bytes := c.bytes - n)
  }

  /** The counters recomputed from a list, on top of `c`. */
  function Tally(c: Counts, q: seq<Msg>): Counts {
    if q == [] then c else Plus(Tally(c, q[..|q| - 1]), q[|q| - 1])
  }

  /** db__limits_set, and two configuration switches. */
  datatype Limits = Limits(
    maxInflight: nat, maxInflightBytes: nat, maxQueued: nat, maxQueuedBytes: nat,
    queueQos0: bool, allowDuplicates: bool)

  datatype Session = Session(inflight: seq<Msg>, queued: seq<Msg>, counts: Counts, online: bool, inserted: nat) {
    function All(): seq<Msg> { inflight + queued }
  }

  const FRESH := Session([], [], NONE, true, 0)

  function ReadyForFlight(l: Limits, c: Counts, qos: int): bool {
    if qos == 0 || (l.maxInflight == 0 && l.maxInflightBytes == 0) then true
    else if l.maxInflight == 0 then c.bytes12 < l.maxInflightBytes
    else if l.maxInflightBytes == 0 then c.count12 < l.maxInflight
    else c.bytes12 < l.maxInflightBytes && c.count12 < l.maxInflight
  }

  /** The byte counters are unsigned long. */
  function ReadyForQueue(l: Limits, c: Counts, online: bool, qos: int): bool {
    if l.maxQueued == 0 && l.maxQueuedBytes == 0 then true
    else
      var sourceBytes := if qos == 0 then c.bytes else c.bytes12;
      var sourceCount := if qos == 0 then c.count else c.count12;
      var adjustBytes := if online then l.maxInflightBytes else 0;
      var adjustCount := if online then l.maxInflight else 0;
      var validBytes := (sourceBytes - adjustBytes) % 0x1_0000_0000_0000_0000 < l.maxQueuedBytes;
      var validCount := sourceCount - adjustCount < l.maxQueued;
      if l.maxQueuedBytes == 0 then validCount
      else if l.maxQueued == 0 then validBytes
      else validBytes && validCount
  }

  // ----- db__message_insert -----

  /** What the caller hands over. */
  datatype New = New(store: Store, mid: int, dir: Direction, qos: int, retain: bool)

  function PublishState(qos: int): State {
    if qos == 0 then PublishQos0 else if qos == 1 then PublishQos1 else PublishQos2
  }

  /** Where a new message goes. */
  datatype Place = ToFlight | ToQueue(rc: int) | Nowhere(rc: int)

  /** `known` says that the context has an identifier, `already` that duplicates are off and the store
    * has been sent to this client before. */
  function PlaceOf(l: Limits, s: Session, n: New, known: bool, already: bool): Place {
    if !known || already then Nowhere(0)
    else if !s.online then
      if n.qos == 0 && !l.queueQos0 then Nowhere(2)
      else if ReadyForQueue(l, s.counts, false, n.qos) then ToQueue(0)
      else Nowhere(2)
    else if ReadyForFlight(l, s.counts, n.qos) then
      if n.dir == In && n.qos != 2 then Nowhere(1) else ToFlight
    else if ReadyForQueue(l, s.counts, true, n.qos) then ToQueue(2)
    else Nowhere(2)
  }

  function Made(s: Session, n: New, p: Place): Msg {
    Msg(s.inserted, n.store, n.mid, n.dir, n.qos, n.retain, false,
        if p.ToQueue? then Queued else if n.dir == Out then PublishState(n.qos) else WaitForPubrel)
  }

  function Placed(s: Session, n: New, p: Place): Session {
    var m := Made(s, n, p);
    match p
    case Nowhere(_) => s
    case ToFlight => s.(inflight := s.inflight + [m], counts := Plus(s.counts, m), inserted := s.inserted + 1)
    case ToQueue(_) => s.(queued := s.queued + [m], counts := Plus(s.counts, m), inserted := s.inserted + 1)
  }

  function Insert(l: Limits, s: Session, n: New, known: bool, already: bool): Session {
    Placed(s, n, PlaceOf(l, s, n, known, already))
  }

  // ----- db__message_delete and db__message_release -----

  function Kept(q: seq<Msg>, mid: int, dir: Direction): seq<Msg> {
    if q == [] then []
    else Kept(q[..|q| - 1], mid, dir) + (if q[|q| - 1].Is(mid, dir) then [] else [q[|q| - 1]])
  }

  function Dropped(q: seq<Msg>, mid: int, dir: Direction): seq<Msg> {
    if q == [] then []
    else Dropped(q[..|q| - 1], mid, dir) + (if q[|q| - 1].Is(mid, dir) then [q[|q| - 1]] else [])
  }

  function MinusAll(c: Counts, q: seq<Msg>): Counts {
    if q == [] then c else Minus(MinusAll(c, q[..|q| - 1]), q[|q| - 1])
  }

  datatype Filled = Filled(inflight: seq<Msg>, queued: seq<Msg>, pubrecs: seq<int>)

  predicate RoomAt(l: Limits, index: int) {
    l.maxInflight == 0 || index < l.maxInflight
  }

  /** The refill loop; `index` counts the messages in flight.  Inbound messages other than QoS 2 are
    * not moved: the C loop only counts on at them, so that nothing behind them is moved either. */
  function Refill(l: Limits, f: seq<Msg>, q: seq<Msg>, index: int): Filled
    decreases |q|
  {
    if q == [] || !RoomAt(l, index) || (q[0].dir == In && q[0].qos != 2) then Filled(f, q, [])
    else
      var m := q[0];
      if m.dir == Out then Refill(l, f + [m.(state := PublishState(m.qos))], q[1..], index + 1)
      else
        var r := Refill(l, f + [m.(state := WaitForPubrel)], q[1..], index + 1);
        r.(pubrecs := [m.mid] + r.pubrecs)
  }

  function Refilled(l: Limits, s: Session, index: int): Session {
    var r := Refill(l, s.inflight, s.queued, index);
    s.(inflight := r.inflight, queued := r.queued)
  }

  function Taken(s: Session, mid: int, dir: Direction): Session {
    s.(inflight := Kept(s.inflight, mid, dir), counts := MinusAll(s.counts, Dropped(s.inflight, mid, dir)))
  }

  function Delete(l: Limits, s: Session, mid: int, dir: Direction): Session {
    Refilled(l, Taken(s, mid, dir), |Kept(s.inflight, mid, dir)|)
  }

  /** db__message_release once the message has been passed to the subscribers; unlike
    * db__message_delete it also counts what it removes. */
  function Release(l: Limits, s: Session, mid: int, dir: Direction): Session {
    Refilled(l, Taken(s, mid, dir), |s.inflight|)
  }

  /** db__message_update: the first match in flight. */
  function Update(q: seq<Msg>, mid: int, dir: Direction, state: State): seq<Msg> {
    if q == [] then []
    else if q[0].Is(mid, dir) then [q[0].(state := state)] + q[1..]
    else [q[0]] + Update(q[1..], mid, dir, state)
  }

  // ----- db__message_write -----

  datatype Sent = SentPublish(m: Msg) | SentPubrec(mid: int) | SentPubrel(mid: int) | SentPubcomp(mid: int)

  /** The packet that is due for a message, if any. */
  function Due(m: Msg): seq<Sent> {
    match m.state
    case PublishQos0 => [SentPublish(m)]
    case PublishQos1 => [SentPublish(m)]
    case PublishQos2 => [SentPublish(m)]
    case SendPubrec => [SentPubrec(m.mid)]
    case ResendPubrel => [SentPubrel(m.mid)]
    case ResendPubcomp => [SentPubcomp(m.mid)]
    case _ => []
  }

  /** The message after its packet was sent. */
  function AfterSend(m: Msg): Msg {
    match m.state
    case PublishQos1 => m.(dup := true, state := WaitForPuback)
    case PublishQos2 => m.(dup := true, state := WaitForPubrec)
    case SendPubrec => m.(state := WaitForPubrel)
    case ResendPubrel => m.(state := WaitForPubcomp)
    case ResendPubcomp => m.(state := WaitForPubrel)
    case _ => m
  }

  /** `sends` counts the sends that still succeed before one fails; `sent` holds those that succeeded. */
  datatype Written = Written(inflight: seq<Msg>, dropped: seq<Msg>, sent: seq<Sent>, ok: bool, sends: nat)

  function Ahead(q: seq<Msg>, dropped: seq<Msg>, sent: seq<Sent>, w: Written): Written {
    w.(inflight := q + w.inflight, dropped := dropped + w.dropped, sent := sent + w.sent)
  }

  /** The first loop of db__message_write. */
  function WriteInflight(q: seq<Msg>, sends: nat): Written {
    if q == [] then Written([], [], [], true, sends)
    else if Due(q[0]) == [] then Ahead([q[0]], [], [], WriteInflight(q[1..], sends))
    else if sends == 0 then Written(q, [], [], false, 0)
    else if q[0].state == PublishQos0 then Ahead([], [q[0]], Due(q[0]), WriteInflight(q[1..], sends - 1))
    else Ahead([AfterSend(q[0])], [], Due(q[0]), WriteInflight(q[1..], sends - 1))
  }

  datatype Topped = Topped(inflight: seq<Msg>, queued: seq<Msg>, sent: seq<Sent>, ok: bool)

  /** Its second loop, which leaves an inbound message in state send_pubrec if the PUBREC is not sent. */
  function WriteRefill(l: Limits, f: seq<Msg>, q: seq<Msg>, index: int, sends: nat): Topped
    decreases |q|
  {
    if q == [] || !RoomAt(l, index) || (q[0].dir == In && q[0].qos != 2) then Topped(f, q, [], true)
    else
      var m := q[0];
      if m.dir == Out then WriteRefill(l, f + [m.(state := PublishState(m.qos))], q[1..], index + 1, sends)
      else if sends == 0 then Topped(f + [m.(state := SendPubrec)], q[1..], [], false)
      else
        var r := WriteRefill(l, f + [m.(state := WaitForPubrel)], q[1..], index + 1, sends - 1);
        r.(sent := [SentPubrec(m.mid)] + r.sent)
  }

  /** db__message_write for a connected client. */
  function Write(l: Limits, s: Session, sends: nat): (Session, seq<Sent>) {
    var w := WriteInflight(s.inflight, sends);
    var t := s.(inflight := w.inflight, counts := MinusAll(s.counts, w.dropped));
    if !w.ok then (t, w.sent)
    else
      var r := WriteRefill(l, w.inflight, s.queued, |s.inflight|, w.sends);
      (t.(inflight := r.inflight, queued := r.queued), w.sent + r.sent)
  }

  // ----- db__message_reconnect_reset -----

  /** The state change for a message in flight; inbound QoS 2 messages keep their state. */
  function ResetOne(m: Msg): Msg {
    if m.dir == In then m
    else if m.qos == 0 then m.(state := PublishQos0)
    else if m.qos == 1 then m.(state := PublishQos1)
    else if m.qos == 2 then m.(state := if m.state == WaitForPubcomp then ResendPubrel else PublishQos2)
    else m
  }

  /** The outcome of the first loop: what is left in flight, the counters, and what was dropped. */
  datatype Recounted = Recounted(kept: seq<Msg>, counts: Counts, dropped: seq<Msg>)

  /** An inbound message that a retry by the client covers.  db__message_insert puts none in flight. */
  predicate Stray(m: Msg) {
    m.dir == In && m.qos != 2
  }

  /** The loop over the messages in flight: a stray is dropped, counted and uncounted, and the loop then
    * passes over the message behind it. */
  function ResetFlight(q: seq<Msg>, c: Counts): Recounted {
    if q == [] then Recounted([], c, [])
    else if !Stray(q[0]) then
      var r := ResetFlight(q[1..], Plus(c, q[0]));
      r.(kept := [ResetOne(q[0])] + r.kept)
    else if |q| == 1 then Recounted([], Minus(Plus(c, q[0]), q[0]), [q[0]])
    else
      var r := ResetFlight(q[2..], Minus(Plus(c, q[0]), q[0]));
      Recounted([q[1]] + r.kept, r.counts, [q[0]] + r.dropped)
  }

  /** Whether the loop leaves the tail pointer at the last node: it does unless it passes over that one,
    * and then points to the stray that it has freed. */
  predicate TailKept(q: seq<Msg>) {
    |q| < 2 || if Stray(q[0]) then |q| > 2 && TailKept(q[2..]) else TailKept(q[1..])
  }

  /** The loop over the queue at position `i`, with the counters so far: every message is counted, and if
    * there is room for it, the loop moves the head of the queue and starts again behind it. */
  function ResetQueue(l: Limits, f: seq<Msg>, q: seq<Msg>, i: nat, c: Counts): (seq<Msg>, seq<Msg>, Counts)
    requires i <= |q|
    decreases |q|, |q| - i
  {
    if i == |q| then (f, q, c)
    else
      var d := Plus(c, q[i]);
      if ReadyForFlight(l, d, q[i].qos) then
        var p := q[i := q[i].(state := PublishState(q[i].qos))];
        ResetQueue(l, f + [p[0]], p[1..], 0, d)
      else ResetQueue(l, f, q, i + 1, d)
  }

  /** The loop over the queue finds no room for any message, and only counts. */
  predicate NoneMoves(l: Limits, q: seq<Msg>, i: nat, c: Counts)
    requires i <= |q|
    decreases |q| - i
  {
    i == |q| || (!ReadyForFlight(l, Plus(c, q[i]), q[i].qos) && NoneMoves(l, q, i + 1, Plus(c, q[i])))
  }

  /** The C code stays clear of the node that the first loop may leave the tail pointer at. */
  predicate ResetDefined(l: Limits, f: seq<Msg>, q: seq<Msg>) {
    TailKept(f) || NoneMoves(l, q, 0, ResetFlight(f, NONE).counts)
  }

  function Reset(l: Limits, s: Session): Session {
    var g := ResetFlight(s.inflight, NONE);
    var r := ResetQueue(l, g.kept, s.queued, 0, g.counts);
    s.(inflight := r.0, queued := r.1, counts := r.2)
  }

  /** The session of a client that comes back: handle__connect moves the lists of the old context to
    * the new one, whose counters are 0, and resets them unless both are empty. */
  function TakeOver(l: Limits, was: Session): Session {
    var s := was.(counts := NONE, online := true);
    if s.inflight != [] || s.queued != [] then Reset(l, s) else s
  }

  /** db__messages_delete. */
  function Clear(s: Session): Session {
    s.(inflight := [], queued := [], counts := NONE)
  }

  // ----- runs of one client's session -----

  datatype Event =
    | Inserting(n: New, known: bool, already: bool)
    | Deleting(mid: int)     // PUBACK or PUBCOMP
    | Releasing(mid: int)    // PUBREL, once the message has been passed on
    | Updating(mid: int)     // PUBREC
    | Writing(sends: nat)
    | Offline
    | Back                   // CONNECT without clean session
    | Clearing

  datatype Outcome = Outcome(session: Session, sent: seq<Sent>, dropped: seq<Msg>)

  function Pubrecs(mids: seq<int>): seq<Sent> {
    seq(|mids|, i requires 0 <= i < |mids| => SentPubrec(mids[i]))
  }

  function Step(l: Limits, s: Session, e: Event): Outcome {
    match e
    case Inserting(n, known, already) => Outcome(Insert(l, s, n, known, already), [], [])
    case Deleting(mid) =>
      var kept := Kept(s.inflight, mid, Out);
      Outcome(Delete(l, s, mid, Out), Pubrecs(Refill(l, kept, s.queued, |kept|).pubrecs), Dropped(s.inflight, mid, Out))
    case Releasing(mid) =>
      var kept := Kept(s.inflight, mid, In);
      Outcome(Release(l, s, mid, In), Pubrecs(Refill(l, kept, s.queued, |s.inflight|).pubrecs),
              Dropped(s.inflight, mid, In))
    case Updating(mid) => Outcome(s.(inflight := Update(s.inflight, mid, Out, WaitForPubcomp)), [], [])
    case Writing(sends) =>
      var w := Write(l, s, sends);
      Outcome(if s.online then w.0 else s, if s.online then w.1 else [],
              if s.online then WriteInflight(s.inflight, sends).dropped else [])
    case Offline => Outcome(s.(online := false), [], [])
    case Back => Outcome(TakeOver(l, s), [], ResetFlight(s.inflight, NONE).dropped)
    case Clearing => Outcome(Clear(s), [], s.All())
  }

  function Run(l: Limits, s: Session, es: seq<Event>): Session
    decreases |es|
  {
    if es == [] then s else Run(l, Step(l, s, es[0]).session, es[1..])
  }
}
