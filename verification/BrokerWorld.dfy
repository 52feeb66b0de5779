/** The message store shared by all sessions: over every run of all clients together, every reference
  * count is right and no message points to a store that has been removed. */
module BrokerWorld {
  import opened Stores
  import opened BrokerSpec
  import opened BrokerProofs

  // ----- the references of one session -----

  ghost function Held(q: seq<Msg>): multiset<Store> {
    if q == [] then multiset{} else Held(q[..|q| - 1]) + multiset{q[|q| - 1].store}
  }

  function StoresOf(q: seq<Msg>): seq<Store> {
    seq(|q|, i requires 0 <= i < |q| => q[i].store)
  }

  lemma HeldLast(q: seq<Msg>, m: Msg)
    ensures Held(q + [m]) == Held(q) + multiset{m.store}
  {
    assert (q + [m])[..|q|] == q;
  }

  lemma HeldNone()
    ensures Held([]) == multiset{}
  {
  }

  lemma {:induction false} HeldJoin(a: seq<Msg>, b: seq<Msg>)
    ensures Held(a + b) == Held(a) + Held(b)
    decreases |b|
  {
    hide Held;
    HeldNone();
    if b == [] {
      assert a + b == a;
    } else {
      var front, m := b[..|b| - 1], b[|b| - 1];
      assert a + b == (a + front) + [m] && b == front + [m];
      HeldLast(a + front, m);
      HeldLast(front, m);
      HeldJoin(a, front);
    }
  }

  lemma {:induction false} HeldAlike(a: seq<Msg>, b: seq<Msg>)
    requires Alike(a, b)
    ensures Held(a) == Held(b)
  {
    if a != [] {
      HeldAlike(a[..|a| - 1], b[..|b| - 1]);
      assert Ident(a[|a| - 1]) == Ident(b[|b| - 1]);
    }
  }

  lemma {:induction false} HeldStores(q: seq<Msg>)
    ensures Held(q) == multiset(StoresOf(q))
  {
    if q != [] {
      HeldStores(q[..|q| - 1]);
      assert StoresOf(q) == StoresOf(q[..|q| - 1]) + [q[|q| - 1].store];
    }
  }

  lemma {:induction false} HeldMember(q: seq<Msg>, i: nat)
    requires i < |q|
    ensures q[i].store in Held(q)
  {
    if i < |q| - 1 {
      HeldMember(q[..|q| - 1], i);
    }
  }

  lemma {:induction false} HeldKept(q: seq<Msg>, mid: int, dir: Direction)
    ensures Held(q) == Held(Kept(q, mid, dir)) + Held(Dropped(q, mid, dir))
  {
    hide Held, Kept, Dropped;
    HeldNone();
    if q == [] {
      KeptNone(mid, dir);
    } else {
      var front, m := q[..|q| - 1], q[|q| - 1];
      assert q == front + [m];
      HeldLast(front, m);
      HeldKept(front, mid, dir);
      KeptLast(q, mid, dir);
      HeldLast(Kept(front, mid, dir), m);
      HeldLast(Dropped(front, mid, dir), m);
    }
  }

  lemma {:induction false} WriteInflightHeld(q: seq<Msg>, sends: nat)
    ensures var w := WriteInflight(q, sends); Held(q) == Held(w.inflight) + Held(w.dropped)
    decreases |q|
  {
    hide Held;
    HeldNone();
    if q != [] && (Due(q[0]) == [] || sends > 0) {
      var m, rest, left := q[0], q[1..], if Due(q[0]) == [] then sends else sends - 1;
      var w, v := WriteInflight(q, sends), WriteInflight(rest, left);
      assert q == [m] + rest;
      HeldJoin([m], rest);
      WriteInflightHeld(rest, left);
      if Due(m) != [] && m.state == PublishQos0 {
        assert w.inflight == v.inflight;
        HeldJoin([m], v.dropped);
      } else {
        var n := if Due(m) == [] then m else AfterSend(m);
        assert w.dropped == v.dropped;
        HeldAlike([m], [n]);
        HeldJoin([n], v.inflight);
      }
    }
  }

  lemma {:induction false} ResetFlightHeld(q: seq<Msg>, c: Counts)
    ensures var r := ResetFlight(q, c); Held(q) == Held(r.kept) + Held(r.dropped)
    decreases |q|
  {
    hide Held;
    HeldNone();
    if q != [] {
      assert q == [q[0]] + q[1..];
      HeldJoin([q[0]], q[1..]);
      if !Stray(q[0]) {
        var r := ResetFlight(q[1..], Plus(c, q[0]));
        ResetFlightHeld(q[1..], Plus(c, q[0]));
        HeldJoin([ResetOne(q[0])], r.kept);
        HeldAlike([ResetOne(q[0])], [q[0]]);
      } else if |q| > 1 {
        var d := Minus(Plus(c, q[0]), q[0]);
        var r := ResetFlight(q[2..], d);
        ResetFlightHeld(q[2..], d);
        assert q[1..] == [q[1]] + q[2..];
        HeldJoin([q[1]], q[2..]);
        HeldJoin([q[1]], r.kept);
        HeldJoin([q[0]], r.dropped);
      } else {
        assert q == [q[0]];
      }
    }
  }

  lemma {:induction false} ResetQueueHeld(l: Limits, f: seq<Msg>, q: seq<Msg>, i: nat, c: Counts)
    requires i <= |q|
    ensures var r := ResetQueue(l, f, q, i, c); Held(r.0) + Held(r.1) == Held(f) + Held(q)
    decreases |q|, |q| - i
  {
    hide Held;
    if i < |q| {
      var d := Plus(c, q[i]);
      if ReadyForFlight(l, d, q[i].qos) {
        var p := q[i := q[i].(state := PublishState(q[i].qos))];
        ResetQueueHeld(l, f + [p[0]], p[1..], 0, d);
        assert Alike(p, q) && p == [p[0]] + p[1..];
        HeldAlike(p, q);
        HeldJoin(f, [p[0]]);
        HeldJoin([p[0]], p[1..]);
      } else {
        ResetQueueHeld(l, f, q, i + 1, d);
      }
    }
  }

  lemma BackHeld(l: Limits, s: Session)
    ensures Held(TakeOver(l, s).All()) + Held(ResetFlight(s.inflight, NONE).dropped) == Held(s.All())
  {
    hide Held, ResetFlight, ResetQueue;
    var g, t := ResetFlight(s.inflight, NONE), TakeOver(l, s);
    ResetFlightHeld(s.inflight, NONE);
    ResetQueueHeld(l, g.kept, s.queued, 0, g.counts);
    HeldJoin(s.inflight, s.queued);
    HeldJoin(t.inflight, t.queued);
    NothingFlies();
  }

  lemma NothingFlies()
    ensures ResetFlight([], NONE) == Recounted([], NONE, []) && Held([]) == multiset{}
  {
  }

  /** The reference that a step takes: an inserted message points to its store. */
  ghost function Takes(l: Limits, s: Session, e: Event): multiset<Store> {
    if e.Inserting? && !PlaceOf(l, s, e.n, e.known, e.already).Nowhere? then multiset{e.n.store} else multiset{}
  }

  /** Each step drops exactly the references of the messages that it removes. */
  lemma StepHeld(l: Limits, s: Session, e: Event)
    ensures var o := Step(l, s, e);
            Held(o.session.All()) + Held(o.dropped) == Held(s.All()) + Takes(l, s, e)
  {
    hide Held, Kept, Dropped, WriteInflight, WriteRefill, Refill, TakeOver, Update, ResetFlight;
    var o := Step(l, s, e);
    HeldNone();
    match e
    case Inserting(n, known, already) => InsertHeld(l, s, n, known, already);
    case Deleting(mid) => TakenHeld(l, s, mid, Out, |Kept(s.inflight, mid, Out)|);
    case Releasing(mid) => TakenHeld(l, s, mid, In, |s.inflight|);
    case Updating(mid) =>
      UpdateSame(s.inflight, mid, Out, WaitForPubcomp);
      SameJoin(o.session.inflight, s.inflight, s.queued, s.queued);
      SameAlike(o.session.All(), s.All());
      HeldAlike(o.session.All(), s.All());
    case Writing(sends) =>
      if s.online {
        WriteHeld(l, s, sends);
      }
    case Offline =>
    case Back => BackHeld(l, s);
    case Clearing => HeldJoin([], []);
  }

  lemma InsertHeld(l: Limits, s: Session, n: New, known: bool, already: bool)
    ensures Held(Insert(l, s, n, known, already).All()) == Held(s.All()) + Takes(l, s, Inserting(n, known, already))
  {
    hide Held, PlaceOf;
    var p, t := PlaceOf(l, s, n, known, already), Insert(l, s, n, known, already);
    var m := Made(s, n, p);
    HeldJoin(s.inflight, s.queued);
    HeldJoin(t.inflight, t.queued);
    HeldLast(s.inflight, m);
    HeldLast(s.queued, m);
  }

  lemma TakenHeld(l: Limits, s: Session, mid: int, dir: Direction, index: int)
    ensures Held(Refilled(l, Taken(s, mid, dir), index).All()) + Held(Dropped(s.inflight, mid, dir)) == Held(s.All())
  {
    hide Held, Kept, Dropped, Refill, MinusAll;
    var t, u := Refilled(l, Taken(s, mid, dir), index), Taken(s, mid, dir);
    RefillSame(l, u.inflight, u.queued, index);
    SameAlike(t.All(), u.All());
    HeldAlike(t.All(), u.All());
    HeldJoin(u.inflight, u.queued);
    HeldJoin(s.inflight, s.queued);
    HeldKept(s.inflight, mid, dir);
  }

  lemma WriteHeld(l: Limits, s: Session, sends: nat)
    ensures Held(Write(l, s, sends).0.All()) + Held(WriteInflight(s.inflight, sends).dropped) == Held(s.All())
  {
    hide Held, WriteInflight, WriteRefill, MinusAll;
    var w, t := WriteInflight(s.inflight, sends), Write(l, s, sends).0;
    WriteInflightHeld(s.inflight, sends);
    HeldJoin(s.inflight, s.queued);
    HeldJoin(w.inflight, s.queued);
    if w.ok {
      WriteRefillSame(l, w.inflight, s.queued, |s.inflight|, w.sends);
      SameAlike(t.All(), w.inflight + s.queued);
      HeldAlike(t.All(), w.inflight + s.queued);
    }
  }

  // ----- all clients -----

  /** `holds` are the references from outside the sessions: retained messages and the one that
    * sub__messages_queue takes while it passes a message on. */
  datatype World = World(db: Ledger, sessions: seq<Session>, holds: multiset<Store>)

  datatype Act =
    | Create(store: Store)         // db__message_store
    | Hold(store: Store)
    | Unhold(store: Store)
    | Connect                      // a client without an old session
    | Do(who: nat, e: Event)

  ghost function AllHeld(ss: seq<Session>): multiset<Store> {
    if ss == [] then multiset{} else AllHeld(ss[..|ss| - 1]) + Held(ss[|ss| - 1].All())
  }

  /** All references to the store. */
  ghost function References(w: World): multiset<Store> {
    w.holds + AllHeld(w.sessions)
  }

  /** A caller has a store at hand only while it is on the list. */
  ghost predicate Enabled(w: World, a: Act) {
    match a
    case Create(s) => s !in w.db.refs
    case Hold(s) => s in w.db.refs
    case Unhold(s) => s in w.holds
    case Connect => true
    case Do(who, e) => who < |w.sessions| && Legal(e) && (e.Inserting? ==> e.n.store in w.db.refs)
  }

  ghost function Next(l: Limits, w: World, a: Act): World {
    match a
    case Create(s) => w.(db := Added(w.db, s))
    case Hold(s) => w.(db := Ref(w.db, s), holds := w.holds + multiset{s})
    case Unhold(s) => w.(db := Deref(w.db, s), holds := w.holds - multiset{s})
    case Connect => w.(sessions := w.sessions + [FRESH])
    case Do(who, e) =>
      if who < |w.sessions| then
        var s := w.sessions[who];
        var o := Step(l, s, e);
        var db := if Takes(l, s, e) != multiset{} then Ref(w.db, e.n.store) else w.db;
        World(DerefAll(db, StoresOf(o.dropped)), w.sessions[who := o.session], w.holds)
      else w
  }

  ghost predicate Safe(l: Limits, w: World) {
    Balanced(w.db, References(w)) && forall i :: 0 <= i < |w.sessions| ==> Sound(l, w.sessions[i])
  }

  lemma Regroup(a: multiset<Store>, b: multiset<Store>, c: multiset<Store>)
    ensures a + b + c == a + c + b
  {
  }

  lemma {:induction false} AllHeldUpdate(ss: seq<Session>, i: nat, t: Session)
    requires i < |ss|
    ensures AllHeld(ss[i := t]) + Held(ss[i].All()) == AllHeld(ss) + Held(t.All())
    decreases |ss|
  {
    hide Held;
    var front := ss[..|ss| - 1];
    if i == |ss| - 1 {
      assert ss[i := t][..|ss| - 1] == front;
      assert AllHeld(ss[i := t]) == AllHeld(front) + Held(t.All());
    } else {
      assert ss[i := t][..|ss| - 1] == front[i := t];
      var last := Held(ss[|ss| - 1].All());
      assert AllHeld(ss[i := t]) == AllHeld(front[i := t]) + last && AllHeld(ss) == AllHeld(front) + last;
      AllHeldUpdate(front, i, t);
      Regroup(AllHeld(front[i := t]), last, Held(ss[i].All()));
      Regroup(AllHeld(front), last, Held(t.All()));
    }
  }

  lemma {:induction false} AllHeldMember(ss: seq<Session>, i: nat)
    requires i < |ss|
    ensures Held(ss[i].All()) <= AllHeld(ss)
  {
    hide Held;
    if i < |ss| - 1 {
      AllHeldMember(ss[..|ss| - 1], i);
    }
  }

  /** No message of any client points to a store that is not on the list. */
  lemma NoneDangling(l: Limits, w: World, i: nat, k: nat)
    requires Safe(l, w) && i < |w.sessions| && k < |w.sessions[i].All()|
    ensures w.sessions[i].All()[k].store in w.db.chain
    ensures 0 < w.db.refs[w.sessions[i].All()[k].store]
  {
    hide Distinct, Volume, Sound;
    AllHeldMember(w.sessions, i);
    HeldMember(w.sessions[i].All(), k);
  }

  lemma TakesOne(l: Limits, w: World, s: Session, e: Event)
    requires Balanced(w.db, References(w)) && (e.Inserting? ==> e.n.store in w.db.refs)
    ensures var took := Takes(l, s, e);
            var db := if took != multiset{} then Ref(w.db, e.n.store) else w.db;
            Balanced(db, References(w) + took) && (forall t :: t in db.refs <==> t in w.db.refs)
  {
    hide Balanced, AllHeld, PlaceOf;
    var took := Takes(l, s, e);
    if took != multiset{} {
      RefKeeps(w.db, References(w), e.n.store);
    } else {
      assert References(w) + took == References(w);
    }
  }

  /** Bookkeeping: the references of one session change, those of the others do not. */
  lemma Transfer(holds: multiset<Store>, all: multiset<Store>, now: multiset<Store>,
                 mine: multiset<Store>, next: multiset<Store>, gone: multiset<Store>, took: multiset<Store>)
    requires now + mine == all + next && next + gone == mine + took && mine <= all
    ensures gone <= holds + all + took
    ensures holds + now == holds + all + took - gone
  {
    forall t ensures gone[t] <= (holds + all + took)[t] && (holds + now)[t] == (holds + all + took - gone)[t] {
      assert (now + mine)[t] == (all + next)[t] && (next + gone)[t] == (mine + took)[t];
    }
  }

  /** Every step of every client keeps all reference counts right and all pointers valid, and a store
    * goes exactly when the step drops its last reference. */
  lemma NextSafe(l: Limits, w: World, a: Act)
    requires Safe(l, w) && !l.queueQos0 && Enabled(w, a)
    ensures Safe(l, Next(l, w, a))
    ensures forall t :: t in w.db.refs ==>
              (t !in Next(l, w, a).db.refs <==> t in References(w) && t !in References(Next(l, w, a)))
  {
    hide Balanced, Sound, Step, Held, AllHeld, DerefAll;
    match a
    case Create(s) => AddKeeps(w.db, References(w), s);
    case Hold(s) => HoldSafe(l, w, s);
    case Unhold(s) => UnholdSafe(l, w, s);
    case Connect => ConnectSafe(l, w);
    case Do(who, e) => DoSafe(l, w, who, e);
  }

  lemma ConnectSafe(l: Limits, w: World)
    requires Safe(l, w)
    ensures Safe(l, Next(l, w, Connect)) && References(Next(l, w, Connect)) == References(w)
  {
    hide Balanced, Sound, Held;
    FreshSound(l);
    HeldNone();
    assert FRESH.All() == [];
    assert (w.sessions + [FRESH])[..|w.sessions|] == w.sessions;
    assert References(Next(l, w, Connect)) == References(w);
  }

  lemma HoldSafe(l: Limits, w: World, s: Store)
    requires Safe(l, w) && s in w.db.refs
    ensures Safe(l, Next(l, w, Hold(s)))
    ensures forall t :: t in w.db.refs ==> t in Next(l, w, Hold(s)).db.refs
    ensures References(w) <= References(Next(l, w, Hold(s)))
  {
    hide Balanced, Sound, AllHeld;
    RefKeeps(w.db, References(w), s);
    assert References(w) + multiset{s} == References(Next(l, w, Hold(s)));
  }

  lemma UnholdSafe(l: Limits, w: World, s: Store)
    requires Safe(l, w) && s in w.holds
    ensures var v := Next(l, w, Unhold(s));
            && Safe(l, v)
            && forall t :: t in w.db.refs ==> (t !in v.db.refs <==> t in References(w) && t !in References(v))
  {
    hide Balanced, Sound, AllHeld, Deref;
    var v := Next(l, w, Unhold(s));
    DerefKeeps(w.db, References(w), s);
    assert References(w) - multiset{s} == References(v);
    assert forall t :: References(v)[t] == if t == s then References(w)[t] - 1 else References(w)[t];
  }

  lemma DoSafe(l: Limits, w: World, who: nat, e: Event)
    requires Safe(l, w) && !l.queueQos0 && Enabled(w, Do(who, e))
    ensures var v := Next(l, w, Do(who, e));
            && Safe(l, v)
            && forall t :: t in w.db.refs ==> (t !in v.db.refs <==> t in References(w) && t !in References(v))
  {
    hide Balanced, Sound, Step, Held, AllHeld, DerefAll, Legal;
    var s, v := w.sessions[who], Next(l, w, Do(who, e));
    var o, refs, took := Step(l, s, e), References(w), Takes(l, s, e);
    var gone := StoresOf(o.dropped);
    StepSound(l, s, e);
    StepHeld(l, s, e);
    HeldStores(o.dropped);
    AllHeldUpdate(w.sessions, who, o.session);
    AllHeldMember(w.sessions, who);
    TakesOne(l, w, s, e);
    Transfer(w.holds, AllHeld(w.sessions), AllHeld(v.sessions), Held(s.All()), Held(o.session.All()),
      multiset(gone), took);
    var db := if took != multiset{} then Ref(w.db, e.n.store) else w.db;
    DerefAllKeeps(db, refs + took, gone);
    NoneBoth(l, s, e);
    GoneIff(refs, took, multiset(gone));
  }

  lemma NoneBoth(l: Limits, s: Session, e: Event)
    ensures Takes(l, s, e) == multiset{} || StoresOf(Step(l, s, e).dropped) == []
  {
  }

  /** A store whose references all go in a step had some before it. */
  lemma GoneIff(refs: multiset<Store>, took: multiset<Store>, gone: multiset<Store>)
    requires gone <= refs + took && (took == multiset{} || gone == multiset{})
    ensures forall t :: (t in gone && gone[t] == (refs + took)[t]) <==> t in refs && t !in refs + took - gone
  {
  }

  ghost predicate EnabledRun(l: Limits, w: World, acts: seq<Act>)
    decreases |acts|
  {
    acts == [] || (Enabled(w, acts[0]) && EnabledRun(l, Next(l, w, acts[0]), acts[1..]))
  }

  ghost function RunAll(l: Limits, w: World, acts: seq<Act>): World
    decreases |acts|
  {
    if acts == [] then w else RunAll(l, Next(l, w, acts[0]), acts[1..])
  }

  /** Over every run of all clients. */
  lemma {:induction false} RunSafe(l: Limits, w: World, acts: seq<Act>)
    requires Safe(l, w) && !l.queueQos0 && EnabledRun(l, w, acts)
    ensures Safe(l, RunAll(l, w, acts))
    decreases |acts|
  {
    hide Safe, Next, Enabled;
    if acts != [] {
      NextSafe(l, w, acts[0]);
      RunSafe(l, Next(l, w, acts[0]), acts[1..]);
    }
  }

  const EMPTY := World(Ledger([], map[], 0, 0), [], multiset{})

  /** From a broker without clients and stores on. */
  lemma SafeAlways(l: Limits, acts: seq<Act>)
    requires !l.queueQos0 && EnabledRun(l, EMPTY, acts)
    ensures Safe(l, RunAll(l, EMPTY, acts))
  {
    hide Safe, RunAll, EnabledRun;
    StartSafe(l);
    RunSafe(l, EMPTY, acts);
  }

  lemma StartSafe(l: Limits)
    ensures Safe(l, EMPTY)
  {
  }

  /** What the methods on the lists in place demand of the store holds in every reachable state. */
  lemma SafeIsEnough(l: Limits, w: World, i: nat)
    requires Safe(l, w) && i < |w.sessions|
    ensures Enough(w.db, Held(w.sessions[i].inflight) + Held(w.sessions[i].queued))
  {
    hide Listed, Held, Sound;
    var s := w.sessions[i];
    HeldJoin(s.inflight, s.queued);
    AllHeldMember(w.sessions, i);
  }

  predicate Mentions(a: Act, s: Store) {
    a == Hold(s) || (a.Do? && a.e.Inserting? && a.e.n.store == s)
  }

  /** A store that nothing refers to is not removed: the inbound message that db__message_insert drops
    * leaves its store behind for good. */
  lemma {:induction false} UnreferencedStays(l: Limits, w: World, acts: seq<Act>, s: Store)
    requires Safe(l, w) && !l.queueQos0 && EnabledRun(l, w, acts)
    requires s in w.db.refs && s !in References(w) && forall a <- acts :: !Mentions(a, s)
    ensures s in RunAll(l, w, acts).db.refs
    decreases |acts|
  {
    hide Safe, Next, Enabled, References;
    if acts != [] {
      NextSafe(l, w, acts[0]);
      NoNewReference(l, w, acts[0], s);
      UnreferencedStays(l, Next(l, w, acts[0]), acts[1..], s);
    }
  }

  lemma NoNewReference(l: Limits, w: World, a: Act, s: Store)
    requires Safe(l, w) && Enabled(w, a) && s !in References(w) && !Mentions(a, s)
    ensures s !in References(Next(l, w, a))
  {
    hide Held, AllHeld, Step, Balanced, Sound, DerefAll;
    match a
    case Connect => ConnectSafe(l, w);
    case Do(who, e) =>
      var mine, o := w.sessions[who], Step(l, w.sessions[who], e);
      StepHeld(l, mine, e);
      AllHeldUpdate(w.sessions, who, o.session);
      AllHeldMember(w.sessions, who);
      assert (Held(o.session.All()) + Held(o.dropped))[s] == (Held(mine.All()) + Takes(l, mine, e))[s] == 0;
      assert (AllHeld(w.sessions[who := o.session]) + Held(mine.All()))[s]
        == (AllHeld(w.sessions) + Held(o.session.All()))[s] == 0;
    case _ =>
  }
}
