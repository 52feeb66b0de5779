/** A client's context in the broker as the C code keeps it: two linked lists with tail pointers and
  * four counters, changed in place by database.c and by the takeover in handle__connect. */
module Broker {
  import opened Bytes
  import opened LinkedLists
  import opened Stores
  import opened BrokerSpec
  import opened BrokerProofs
  import opened BrokerWorld

  class Context {
    const inflight: LinkedList<Msg>   // inflight_msgs, last_inflight_msg
    const queued: LinkedList<Msg>     // queued_msgs, last_queued_msg
    var id: Option<seq<char>>
    var msgCount: int
    var msgBytes: int
    var msgCount12: int
    var msgBytes12: int
    var online: bool                  // sock is valid
    var isDropping: bool
    var inserted: nat
    var wire: seq<Sent>               // packets handed to the network layer
    ghost var f: seq<Msg>
    ghost var q: seq<Msg>

    /** The two lists have no node in common; `f` and `q` are what they hold. */
    ghost predicate Apart()
      reads this`f, this`q, inflight`nodes, queued`nodes, inflight.nodes, queued.nodes
    {
      && inflight != queued
      && (forall i :: 0 <= i < |inflight.nodes| ==> inflight.nodes[i] !in queued.nodes)
      && (forall i :: 0 <= i < |queued.nodes| ==> queued.nodes[i] !in inflight.nodes)
      && f == inflight.Contents() && q == queued.Contents()
    }

    ghost predicate Valid()
      reads this`f, this`q, inflight, queued, inflight.nodes, queued.nodes
    {
      Apart() && inflight.Valid() && queued.Valid()
    }

    function Tallied(): Counts
      reads this`msgCount, this`msgBytes, this`msgCount12, this`msgBytes12
    {
      Counts(msgCount, msgBytes, msgCount12, msgBytes12)
    }

    ghost function Abs(): Session
      reads this
    {
      Session(f, q, Tallied(), online, inserted)
    }

    constructor ()
      ensures Valid() && Abs() == FRESH && id == None
      ensures fresh(inflight) && fresh(queued)
    {
      inflight := new LinkedList<Msg>();
      queued := new LinkedList<Msg>();
      id, online, isDropping, inserted, f, q := None, true, false, 0, [], [];
      msgCount, msgBytes, msgCount12, msgBytes12, wire := 0, 0, 0, 0, [];
    }

    // ----- counters -----

    method CountUp(m: Msg)
      modifies this`msgCount, this`msgBytes, this`msgCount12, this`msgBytes12
      ensures Tallied() == Plus(old(Tallied()), m)
    {
      msgCount := msgCount + 1;
      msgBytes := msgBytes + m.store.payloadlen;
      if m.qos > 0 {
        msgCount12 := msgCount12 + 1;
        msgBytes12 := msgBytes12 + m.store.payloadlen;
      }
    }

    method CountDown(m: Msg)
      modifies this`msgCount, this`msgBytes, this`msgCount12, this`msgBytes12
      ensures Tallied() == Minus(old(Tallied()), m)
    {
      msgCount := msgCount - 1;
      msgBytes := msgBytes - m.store.payloadlen;
      if m.qos > 0 {
        msgCount12 := msgCount12 - 1;
        msgBytes12 := msgBytes12 - m.store.payloadlen;
      }
    }

    // ----- db__message_insert -----

    /** The decision of db__message_insert for an identified context. */
    method Place(l: Limits, n: New) returns (p: Place)
      modifies this`isDropping
      ensures p == PlaceOf(l, old(Abs()), n, true, false)
    {
      if !online && n.qos == 0 && !l.queueQos0 {
        return Nowhere(2);
      }
      if online {
        if ReadyForFlight(l, Tallied(), n.qos) {
          if n.dir == In && n.qos != 2 {
            return Nowhere(1);
          }
          return ToFlight;
        } else if ReadyForQueue(l, Tallied(), true, n.qos) {
          return ToQueue(2);
        }
      } else if ReadyForQueue(l, Tallied(), false, n.qos) {
        return ToQueue(0);
      }
      isDropping := true;
      return Nowhere(2);
    }

    /** The duplicate check: has this store been sent to this client? */
    method SentBefore(stored: Store) returns (found: bool)
      requires id.Some?
      ensures found == (id.value in stored.destIds)
    {
      var i := 0;
      while i < |stored.destIds|
        invariant 0 <= i <= |stored.destIds| && id.value !in stored.destIds[..i]
      {
        if stored.destIds[i] == id.value {
          return true;
        }
        i := i + 1;
      }
      assert stored.destIds[..i] == stored.destIds;
      return false;
    }

    /** Append a message to one of the lists. */
    method Append(m: Msg, toQueue: bool)
      requires Valid()
      modifies this`f, this`q, inflight, queued, inflight.nodes, queued.nodes
      ensures Valid()
      ensures f == (if toQueue then old(f) else old(f) + [m])
      ensures q == (if toQueue then old(q) + [m] else old(q))
    {
      hide Context.Valid;
      if toQueue {
        AppendWaiting(m);
      } else {
        AppendFlight(m);
      }
    }

    method AppendFlight(m: Msg)
      requires Valid()
      modifies this`f, inflight, inflight.nodes
      ensures Valid() && f == old(f) + [m] && q == old(q)
    {
      hide LinkedList.Valid, LinkedList.Linked, LinkedList.Contents;
      var n := new Node(m);
      assert n !in inflight.nodes && n !in queued.nodes;
      inflight.Append(n);
      f := f + [m];
    }

    method AppendWaiting(m: Msg)
      requires Valid()
      modifies this`q, queued, queued.nodes
      ensures Valid() && f == old(f) && q == old(q) + [m]
    {
      hide LinkedList.Valid, LinkedList.Linked, LinkedList.Contents;
      var n := new Node(m);
      assert n !in inflight.nodes && n !in queued.nodes;
      queued.Append(n);
      q := q + [m];
    }

    /** Does the duplicate rule apply to this message? */
    static predicate Tracked(l: Limits, n: New) {
      !l.allowDuplicates && n.dir == Out && !n.retain
    }

    /** The part of db__message_insert that concerns the store. */
    method Refer(l: Limits, n: New, db: Database)
      requires db.Valid() && n.store in db.chain && id.Some?
      modifies db`refs, n.store`refCount, n.store`destIds
      ensures db.Valid() && db.Abs() == Ref(old(db.Abs()), n.store)
      ensures n.store.destIds == old(n.store.destIds) + if Tracked(l, n) then [id.value] else []
    {
      hide Database.Valid, Ref;
      db.AddRef(n.store);
      if Tracked(l, n) {
        n.store.destIds := n.store.destIds + [id.value];
      }
    }

    /** The part of db__message_insert that makes and links the message. */
    method PutIn(l: Limits, n: New, p: Place, db: Database)
      requires Valid() && db.Valid() && n.store in db.chain && id.Some? && !p.Nowhere?
      modifies this`f, this`q, this`inserted, this`msgCount, this`msgBytes, this`msgCount12, this`msgBytes12
      modifies inflight, queued, inflight.nodes, queued.nodes
      modifies db`refs, n.store`refCount, n.store`destIds
      ensures Valid() && db.Valid()
      ensures Abs() == Placed(old(Abs()), n, p) && db.Abs() == Ref(old(db.Abs()), n.store)
      ensures n.store.destIds == old(n.store.destIds) + if Tracked(l, n) then [id.value] else []
    {
      hide LinkedList.Valid, LinkedList.Contents, Context.Valid, Database.Valid, PublishState, Plus, Ref;
      var state := if p.ToQueue? then Queued else if n.dir == Out then PublishState(n.qos) else WaitForPubrel;
      var m := Msg(inserted, n.store, n.mid, n.dir, n.qos, n.retain, false, state);
      inserted := inserted + 1;
      Refer(l, n, db);
      CountUp(m);
      Append(m, p.ToQueue?);
      assert m == Made(old(Abs()), n, p);
    }

    /** db__message_insert.  The store gets a reference, and remembers the client, exactly if the message
      * is put on one of the lists. */
    method Insert(l: Limits, n: New, db: Database) returns (rc: int)
      requires Valid() && db.Valid() && n.store in db.chain && 0 <= n.qos <= 2
      modifies this, inflight, queued, inflight.nodes, queued.nodes
      modifies db`refs, n.store`refCount, n.store`destIds
      ensures Valid() && db.Valid() && id == old(id)
      ensures var tracked := !l.allowDuplicates && n.dir == Out && !n.retain;
              var already := id.Some? && tracked && id.value in old(n.store.destIds);
              var p := PlaceOf(l, old(Abs()), n, id.Some?, already);
              && Abs() == BrokerSpec.Insert(l, old(Abs()), n, id.Some?, already)
              && db.Abs() == (if p.Nowhere? then old(db.Abs()) else Ref(old(db.Abs()), n.store))
              && n.store.destIds == old(n.store.destIds) + (if !p.Nowhere? && tracked then [id.value] else [])
              && rc == if p.ToFlight? then 0 else p.rc
    {
      hide LinkedList.Valid, Context.Apart, Database.Valid, ReadyForFlight, ReadyForQueue, Placed;
      if id.None? {
        PlacedNowhere(Abs(), n, 0);
        return 0;
      }
      if Tracked(l, n) {
        var found := SentBefore(n.store);
        if found {
          PlacedNowhere(Abs(), n, 0);
          return 0;
        }
      }
      PlaceKnown(l, Abs(), n);
      var p := Place(l, n);
      if p.Nowhere? {
        PlacedNowhere(Abs(), n, p.rc);
        return p.rc;
      }
      PutIn(l, n, p, db);
      return if p.ToQueue? then p.rc else 0;
    }

    // ----- removing from the list in flight -----

    /** Unlink `cur`, the `k`th message in flight; `prev` is the node before it. */
    method TakeOut(prev: Node?<Msg>, cur: Node<Msg>, ghost k: nat)
      requires Apart() && inflight.Linked() && queued.Linked()
      requires k < |inflight.nodes| && cur == inflight.nodes[k] && prev == NodeAt(inflight.nodes, k - 1)
      modifies this`f, inflight, inflight.nodes
      ensures Apart() && inflight.Linked() && queued.Linked()
      ensures (old(inflight.Valid()) ==> inflight.Valid()) && (old(queued.Valid()) ==> queued.Valid())
      ensures f == old(f)[..k] + old(f)[k + 1..] && q == old(q)
      ensures inflight.nodes == old(inflight.nodes)[..k] + old(inflight.nodes)[k + 1..] && cur !in inflight.nodes
      ensures inflight.last == if k + 1 == |old(inflight.nodes)| then prev else old(inflight.last)
      ensures forall i :: 0 <= i < |inflight.nodes| ==> inflight.nodes[i] in old(inflight.nodes)
    {
      hide LinkedList.Valid, LinkedList.Linked, LinkedList.Contents;
      inflight.Unlink(prev, cur, k);
      f := f[..k] + f[k + 1..];
    }

    /** db__message_remove; the tail pointer in flight may be stale. */
    method MessageRemove(prev: Node?<Msg>, cur: Node<Msg>, ghost k: nat, db: Database) returns (next: Node?<Msg>)
      requires Apart() && inflight.Linked() && queued.Linked()
      requires k < |inflight.nodes| && cur == inflight.nodes[k] && prev == NodeAt(inflight.nodes, k - 1)
      requires db.Valid() && cur.data.store in db.chain
      modifies this`f, this`msgCount, this`msgBytes, this`msgCount12, this`msgBytes12
      modifies inflight, inflight.nodes
      modifies db, db.chain`prev, db.chain`next, db.chain`refCount
      ensures Apart() && inflight.Linked() && queued.Linked() && db.Valid()
      ensures (old(inflight.Valid()) ==> inflight.Valid()) && (old(queued.Valid()) ==> queued.Valid())
      ensures f == old(f)[..k] + old(f)[k + 1..] && q == old(q)
      ensures Tallied() == Minus(old(Tallied()), old(cur.data)) && db.Abs() == Deref(old(db.Abs()), old(cur.data.store))
      ensures |inflight.nodes| == old(|inflight.nodes|) - 1 && cur !in inflight.nodes
      ensures inflight.last == if k + 1 == |old(inflight.nodes)| then prev else old(inflight.last)
      ensures next == NodeAt(inflight.nodes, k) && prev == NodeAt(inflight.nodes, k - 1)
      ensures forall i :: 0 <= i < |inflight.nodes| ==> inflight.nodes[i] in old(inflight.nodes)
      ensures forall i :: 0 <= i < |db.chain| ==> db.chain[i] in old(db.chain)
    {
      hide LinkedList.Valid, LinkedList.Linked, LinkedList.Contents, Database.Valid, Minus, Deref, Context.Apart;
      CountDown(cur.data);
      Untouched(cur.data.store, db);
      TakeOut(prev, cur, k);
      inflight.LinkedHead();
      if prev != null {
        inflight.LinkedAt(k - 1);
        next := prev.next;
      } else {
        next := inflight.head;
      }
    }

    /** Drop a reference; the lists are not concerned. */
    method Untouched(store: Store, db: Database)
      requires Apart() && inflight.Linked() && queued.Linked() && db.Valid() && store in db.chain
      modifies db, db.chain`prev, db.chain`next, db.chain`refCount
      ensures Apart() && inflight.Linked() && queued.Linked() && db.Valid()
      ensures (old(inflight.Valid()) ==> inflight.Valid()) && (old(queued.Valid()) ==> queued.Valid())
      ensures db.Abs() == Deref(old(db.Abs()), store)
      ensures forall i :: 0 <= i < |db.chain| ==> db.chain[i] in old(db.chain)
    {
      hide Database.Valid, Deref;
      db.DropRef(store);
      assert forall i :: 0 <= i < |inflight.nodes| ==> inflight.nodes[i].next == old(inflight.nodes[i].next);
      assert forall i :: 0 <= i < |queued.nodes| ==> queued.nodes[i].next == old(queued.nodes[i].next);
    }

    lemma BothLinked()
      requires Valid()
      ensures Apart() && inflight.Linked() && queued.Linked() && inflight.Valid() && queued.Valid()
    {
    }

    /** The value of a node, and what comes after it. */
    lemma AtNode(k: nat)
      requires Apart() && (inflight.Valid() || inflight.Linked()) && k < |inflight.nodes|
      ensures |f| == |inflight.nodes| && inflight.nodes[k].data == f[k]
      ensures inflight.nodes[k].next == NodeAt(inflight.nodes, k + 1)
    {
    }

    /** One turn of the loop in Take: `tail` is the `k`th message in flight, the next to be looked at. */
    method TakeTurn(last: Node?<Msg>, tail: Node<Msg>, ghost k: nat, mid: int, dir: Direction, db: Database)
      returns (prev: Node?<Msg>, next: Node?<Msg>, found: bool, ghost at: nat)
      requires Valid() && db.Valid() && k < |inflight.nodes| && f[k].store in db.refs
      requires tail == NodeAt(inflight.nodes, k) && last == NodeAt(inflight.nodes, k - 1)
      modifies this`f, this`msgCount, this`msgBytes, this`msgCount12, this`msgBytes12
      modifies inflight, inflight.nodes
      modifies db, db.chain`prev, db.chain`next, db.chain`refCount
      ensures Valid() && db.Valid() && q == old(q)
      ensures forall i :: 0 <= i < |inflight.nodes| ==> inflight.nodes[i] in old(inflight.nodes)
      ensures forall i :: 0 <= i < |db.chain| ==> db.chain[i] in old(db.chain)
      ensures found == old(f)[k].Is(mid, dir) && at == if found then k else k + 1
      ensures next == NodeAt(inflight.nodes, at) && prev == NodeAt(inflight.nodes, at - 1)
      ensures if found then
                && f == old(f)[..k] + old(f)[k + 1..] && |inflight.nodes| == old(|inflight.nodes|) - 1
                && Tallied() == Minus(old(Tallied()), old(f)[k]) && db.Abs() == Deref(old(db.Abs()), old(f)[k].store)
              else
                f == old(f) && inflight.nodes == old(inflight.nodes)
                  && Tallied() == old(Tallied()) && db.Abs() == old(db.Abs())
    {
      hide LinkedList.Valid, LinkedList.Contents, Database.Valid, Context.Apart, Minus, Deref;
      AtNode(k);
      found, at := tail.data.Is(mid, dir), if tail.data.Is(mid, dir) then k else k + 1;
      if found {
        db.Recorded(tail.data.store);
        prev := last;
        BothLinked();
        next := MessageRemove(last, tail, k, db);
      } else {
        prev, next := tail, tail.next;
      }
    }

    /** The same turn, with `visited` messages looked at and `removed` of them removed before. */
    method TakePass(last: Node?<Msg>, tail: Node<Msg>, ghost k: nat, ghost visited: nat, ghost removed: nat,
                    mid: int, dir: Direction, ghost was: seq<Msg>, ghost c: Counts, ghost d: Ledger, db: Database)
      returns (prev: Node?<Msg>, next: Node?<Msg>, found: bool, ghost at: nat)
      requires Valid() && db.Valid() && k < |inflight.nodes| && visited < |was| && visited - removed == k
      requires |inflight.nodes| - k == |was| - visited
      requires tail == NodeAt(inflight.nodes, k) && last == NodeAt(inflight.nodes, k - 1)
      requires TakenAt(was, visited, mid, dir, c, d, removed, f, Tallied(), db.Abs())
      modifies this`f, this`msgCount, this`msgBytes, this`msgCount12, this`msgBytes12
      modifies inflight, inflight.nodes
      modifies db, db.chain`prev, db.chain`next, db.chain`refCount
      ensures Valid() && db.Valid() && q == old(q)
      ensures forall i :: 0 <= i < |inflight.nodes| ==> inflight.nodes[i] in old(inflight.nodes)
      ensures forall i :: 0 <= i < |db.chain| ==> db.chain[i] in old(db.chain)
      ensures at == (if found then k else k + 1) && at <= |inflight.nodes|
      ensures |inflight.nodes| - at == |was| - visited - 1
      ensures next == NodeAt(inflight.nodes, at) && prev == NodeAt(inflight.nodes, at - 1)
      ensures TakenAt(was, visited + 1, mid, dir, c, d, if found then removed + 1 else removed, f, Tallied(), db.Abs())
    {
      hide LinkedList.Valid, LinkedList.Contents, Database.Valid, Context.Valid, TakenAt, Minus, Deref;
      AtFlight(k);
      TakenTurn(was, visited, mid, dir, c, d, removed, k, f, Tallied(), db.Abs());
      prev, next, found, at := TakeTurn(last, tail, k, mid, dir, db);
    }

    /** The first loop of db__message_delete and of db__message_release: count the messages in flight and
      * remove those that match. */
    method Take(mid: int, dir: Direction, db: Database) returns (visited: nat, removed: nat)
      requires Valid() && db.Valid() && Enough(db.Abs(), Held(f))
      modifies this`f, this`msgCount, this`msgBytes, this`msgCount12, this`msgBytes12
      modifies inflight, inflight.nodes
      modifies db, db.chain`prev, db.chain`next, db.chain`refCount
      ensures Valid() && db.Valid() && q == old(q)
      ensures forall i :: 0 <= i < |inflight.nodes| ==> inflight.nodes[i] in old(inflight.nodes)
      ensures f == Kept(old(f), mid, dir) && Tallied() == MinusAll(old(Tallied()), Dropped(old(f), mid, dir))
      ensures db.Abs() == DerefAll(old(db.Abs()), StoresOf(Dropped(old(f), mid, dir)))
      ensures visited == |old(f)| && removed == |Dropped(old(f), mid, dir)| && |f| == visited - removed
    {
      hide LinkedList.Valid, LinkedList.Linked, LinkedList.Contents, Database.Valid, Context.Valid, Context.Apart;
      hide Minus, Deref, DerefAll, Kept, Dropped, MinusAll, Held, Enough, TakenAt, StoresOf;
      ghost var was, c, d := f, Tallied(), db.Abs();
      ghost var mine, stores := set n | n in inflight.nodes, set s | s in db.chain;
      var tail, last: Node?<Msg> := inflight.head, null;
      ghost var k := 0;
      visited, removed := 0, 0;
      HeadOf();
      TakenStart(was, mid, dir, c, d);
      while tail != null
        invariant Valid() && db.Valid() && q == old(q) && k <= |inflight.nodes|
        invariant tail == NodeAt(inflight.nodes, k) && last == NodeAt(inflight.nodes, k - 1)
        invariant visited <= |was| && |inflight.nodes| - k == |was| - visited && visited - removed == k
        invariant TakenAt(was, visited, mid, dir, c, d, removed, f, Tallied(), db.Abs())
        invariant forall i :: 0 <= i < |inflight.nodes| ==> inflight.nodes[i] in mine
        invariant forall i :: 0 <= i < |db.chain| ==> db.chain[i] in stores
        decreases |was| - visited
      {
        var found;
        last, tail, found, k := TakePass(last, tail, k, visited, removed, mid, dir, was, c, d, db);
        visited := visited + 1;
        if found {
          removed := removed + 1;
        }
      }
      TakenEnd(was, mid, dir, c, d, removed, f, Tallied(), db.Abs());
    }

    lemma AtFlight(k: nat)
      requires Valid() && k < |inflight.nodes|
      ensures |f| == |inflight.nodes| && inflight.nodes[k].data == f[k]
    {
    }

    lemma HeadOf()
      requires Valid()
      ensures inflight.head == NodeAt(inflight.nodes, 0) && |f| == |inflight.nodes|
    {
    }

    lemma SameLength()
      requires Apart() || Valid()
      ensures |f| == |inflight.nodes| && |q| == |queued.nodes|
    {
    }

    /** db__message_dequeue_first. */
    method DequeueFirst()
      requires Apart() && queued.Linked() && inflight.Valid() && queued.nodes != []
      modifies this`f, this`q, inflight, queued, inflight.nodes, queued.nodes
      ensures Apart() && queued.Linked() && inflight.Valid()
      ensures f == old(f) + [old(q)[0]] && q == old(q)[1..]
      ensures queued.nodes == old(queued.nodes)[1..] && inflight.nodes == old(inflight.nodes) + [old(queued.nodes)[0]]
      ensures queued.last == if old(queued.last) == old(queued.nodes)[0] then null else old(queued.last)
      ensures old(queued.Valid()) ==> queued.Valid()
    {
      hide LinkedList.Valid, LinkedList.Linked, LinkedList.Contents;
      var msg := queued.RemoveFirst();
      inflight.Append(msg);
      f, q := f + [q[0]], q[1..];
    }

    // ----- refilling -----

    /** The nodes of both lists. */
    ghost function Nodes(): set<Node<Msg>>
      reads inflight`nodes, queued`nodes
    {
      (set n | n in inflight.nodes) + (set n | n in queued.nodes)
    }

    /** Overwrite the `k`th message in flight. */
    method SetAt(n: Node<Msg>, ghost k: nat, m: Msg)
      requires Apart() && inflight.Linked() && k < |inflight.nodes| && n == inflight.nodes[k]
      modifies this`f, n
      ensures Apart() && inflight.Linked() && |f| == old(|f|) && k < |f| && f == old(f)[k := m]
      ensures old(inflight.Valid()) ==> inflight.Valid()
      ensures old(queued.Valid()) ==> queued.Valid()
      ensures old(queued.Linked()) ==> queued.Linked()
      ensures n.data == m
    {
      hide LinkedList.Contents, LinkedList.Valid, LinkedList.Linked;
      inflight.Put(n, k, m);
      f := f[k := m];
    }

    /** Give the first waiting message its new state and move it behind those in flight. */
    method MoveFirst(state: BrokerSpec.State)
      requires Valid() && queued.nodes != []
      modifies this`f, this`q, inflight, queued, Nodes()
      ensures Valid() && Nodes() == old(Nodes()) && old(q) != []
      ensures f == old(f) + [old(q)[0].(state := state)] && q == old(q)[1..]
    {
      hide LinkedList.Contents, LinkedList.Linked, Values;
      var n := queued.head;
      queued.Head();
      SameLength();
      queued.Links(0);
      queued.Write(n, 0, n.data.(state := state));
      q := q[0 := n.data];
      ghost var was := queued.nodes;
      DequeueFirst();
      assert was == [was[0]] + was[1..];
    }

    /** The refill loop of db__message_delete and db__message_release.  Without a limit it ends only
      * because inbound messages have QoS 2. */
    method Refill(l: Limits, start: nat) returns (pubrecs: seq<int>)
      requires Valid()
      requires l.maxInflight == 0 ==> forall i :: 0 <= i < |q| && q[i].dir == In ==> q[i].qos == 2
      modifies this`f, this`q, inflight, queued, Nodes()
      ensures Valid() && Abs() == Refilled(l, old(Abs()), start)
      ensures pubrecs == BrokerSpec.Refill(l, old(f), old(q), start).pubrecs
    {
      hide LinkedList.Valid, Context.Apart, Context.Nodes, BrokerSpec.Refill;
      ghost var r := BrokerSpec.Refill(l, f, q, start);
      var index := start;
      pubrecs := [];
      assert [] + r.pubrecs == r.pubrecs;
      FirstOf();
      while queued.head != null && (l.maxInflight == 0 || index < l.maxInflight)
        invariant Valid() && Nodes() == old(Nodes()) && (queued.head == null <==> q == [])
        invariant l.maxInflight == 0 ==> forall i :: 0 <= i < |q| && q[i].dir == In ==> q[i].qos == 2
        invariant RefillsTo(l, f, q, index, pubrecs, r)
        decreases |q|, l.maxInflight - index
      {
        FirstOf();
        RefillTurn(l, f, q, index, pubrecs, r);
        index := index + 1;
        var m := queued.head.data;
        if m.dir == Out {
          MoveFirst(PublishState(m.qos));
        } else if m.qos == 2 {
          pubrecs := pubrecs + [m.mid];
          MoveFirst(WaitForPubrel);
        }
        FirstOf();
      }
      RefillEnd(l, f, q, index, pubrecs, r);
    }

    lemma FirstOf()
      requires Valid()
      ensures queued.head == null <==> q == []
      ensures q != [] ==> queued.nodes != [] && queued.head == queued.nodes[0] && queued.head.data == q[0]
    {
    }

    /** db__message_delete. */
    method Delete(l: Limits, mid: int, dir: Direction, db: Database) returns (pubrecs: seq<int>)
      requires Valid() && db.Valid() && Enough(db.Abs(), Held(f))
      requires l.maxInflight == 0 ==> forall i :: 0 <= i < |q| && q[i].dir == In ==> q[i].qos == 2
      modifies this, inflight, queued, inflight.nodes, queued.nodes
      modifies db, db.chain`prev, db.chain`next, db.chain`refCount
      ensures Valid() && db.Valid()
      ensures Abs() == BrokerSpec.Delete(l, old(Abs()), mid, dir)
      ensures db.Abs() == DerefAll(old(db.Abs()), StoresOf(Dropped(old(f), mid, dir)))
      ensures var kept := Kept(old(f), mid, dir); pubrecs == BrokerSpec.Refill(l, kept, old(q), |kept|).pubrecs
    {
      hide LinkedList.Valid, LinkedList.Contents, Context.Apart, Database.Valid, Enough, Held;
      hide BrokerSpec.Refill, Kept, Dropped, MinusAll, DerefAll;
      var visited, removed := Take(mid, dir, db);
      pubrecs := Refill(l, visited - removed);
    }

    /** db__message_release, once sub__messages_queue has passed the message on to the subscribers. */
    method Release(l: Limits, mid: int, dir: Direction, db: Database) returns (rc: int, pubrecs: seq<int>)
      requires Valid() && db.Valid() && Enough(db.Abs(), Held(f))
      requires l.maxInflight == 0 ==> forall i :: 0 <= i < |q| && q[i].dir == In ==> q[i].qos == 2
      modifies this, inflight, queued, inflight.nodes, queued.nodes
      modifies db, db.chain`prev, db.chain`next, db.chain`refCount
      ensures Valid() && db.Valid()
      ensures Abs() == BrokerSpec.Release(l, old(Abs()), mid, dir)
      ensures db.Abs() == DerefAll(old(db.Abs()), StoresOf(Dropped(old(f), mid, dir)))
      ensures pubrecs == BrokerSpec.Refill(l, Kept(old(f), mid, dir), old(q), |old(f)|).pubrecs
      ensures rc == if Dropped(old(f), mid, dir) == [] then 1 else 0
    {
      hide LinkedList.Valid, LinkedList.Contents, Context.Apart, Database.Valid, Enough, Held;
      hide BrokerSpec.Refill, Kept, Dropped, MinusAll, DerefAll;
      var visited, removed := Take(mid, dir, db);
      pubrecs := Refill(l, visited);
      rc := if removed > 0 then 0 else 1;
    }

    /** db__message_update. */
    method Update(mid: int, dir: Direction, state: BrokerSpec.State) returns (found: bool)
      requires Valid()
      modifies this`f, inflight.nodes
      ensures Valid() && f == BrokerSpec.Update(old(f), mid, dir, state) && q == old(q)
      ensures found <==> exists i :: 0 <= i < |old(f)| && old(f)[i].Is(mid, dir)
    {
      hide LinkedList.Valid, Context.Apart, BrokerSpec.Update;
      var tail := inflight.head;
      ghost var k := 0;
      inflight.Head();
      SameLength();
      while tail != null
        invariant Valid() && k <= |f| == |inflight.nodes| && tail == NodeAt(inflight.nodes, k)
            && f == old(f) && q == old(q)
        invariant forall i :: 0 <= i < k ==> !f[i].Is(mid, dir)
        decreases |f| - k
      {
        AtNode(k);
        if tail.data.Is(mid, dir) {
          UpdateAt(f, k, mid, dir, state);
          inflight.ValidLinked();
          SetAt(tail, k, tail.data.(state := state));
          return true;
        }
        tail := tail.next;
        k := k + 1;
      }
      UpdateAt(f, k, mid, dir, state);
      return false;
    }

    /** The first loop of db__message_store_find. */
    method FindFlight(mid: int) returns (stored: Store?)
      requires Valid()
      ensures stored == null <==> forall i :: 0 <= i < |f| ==> !Came(f[i], mid)
      ensures stored != null ==> exists i :: 0 <= i < |f| && Came(f[i], mid) && f[i].store == stored
    {
      hide LinkedList.Valid, LinkedList.Linked, LinkedList.Contents, Context.Apart;
      var tail := inflight.head;
      ghost var k := 0;
      HeadOf();
      while tail != null
        invariant k <= |inflight.nodes| && tail == NodeAt(inflight.nodes, k)
        invariant forall i :: 0 <= i < k ==> !Came(f[i], mid)
        decreases |f| - k
      {
        AtNode(k);
        if Came(tail.data, mid) {
          return tail.data.store;
        }
        tail := tail.next;
        k := k + 1;
      }
      return null;
    }

    /** The second loop of db__message_store_find. */
    method FindWaiting(mid: int) returns (stored: Store?)
      requires Apart() && queued.Linked()
      ensures stored == null <==> forall i :: 0 <= i < |q| ==> !Came(q[i], mid)
      ensures stored != null ==> exists i :: 0 <= i < |q| && Came(q[i], mid) && q[i].store == stored
    {
      hide LinkedList.Valid, LinkedList.Linked, LinkedList.Contents, Context.Apart;
      var tail := queued.head;
      ghost var k := 0;
      HeadWaiting();
      while tail != null
        invariant k <= |queued.nodes| && tail == NodeAt(queued.nodes, k)
        invariant forall i :: 0 <= i < k ==> !Came(q[i], mid)
        decreases |q| - k
      {
        AtWaiting(k);
        if Came(tail.data, mid) {
          return tail.data.store;
        }
        tail := tail.next;
        k := k + 1;
      }
      return null;
    }

    /** db__message_store_find: the store of an inbound message by the publisher's identifier, null if
      * there is none in either list. */
    method StoreFind(mid: int) returns (stored: Store?)
      requires Valid()
      ensures stored == null <==>
                (forall i :: 0 <= i < |f| ==> !Came(f[i], mid)) && (forall i :: 0 <= i < |q| ==> !Came(q[i], mid))
      ensures stored != null ==>
                (exists i :: 0 <= i < |f| && Came(f[i], mid) && f[i].store == stored)
                || (exists i :: 0 <= i < |q| && Came(q[i], mid) && q[i].store == stored)
    {
      hide LinkedList.Valid, LinkedList.Linked, LinkedList.Contents, Context.Apart;
      stored := FindFlight(mid);
      if stored == null {
        EmptyLists();
        stored := FindWaiting(mid);
      }
    }

    // ----- db__message_write -----

    /** Hand a packet to the network layer; `left` counts the sends that still succeed. */
    method Send(p: Sent, left: nat) returns (ok: bool)
      modifies this`wire
      ensures ok == (left > 0) && wire == if ok then old(wire) + [p] else old(wire)
    {
      ok := left > 0;
      if ok {
        wire := wire + [p];
      }
    }

    /** Send a packet and, if that succeeds, give the `k`th message in flight its new value. */
    method Mark(tail: Node<Msg>, ghost k: nat, p: Sent, m: Msg, left: nat) returns (ok: bool)
      requires Valid() && k < |inflight.nodes| && tail == inflight.nodes[k]
      modifies this`f, this`wire, tail
      ensures Valid() && |old(f)| == |inflight.nodes| && ok == (left > 0)
      ensures f == (if ok then old(f)[k := m] else old(f)) && wire == if ok then old(wire) + [p] else old(wire)
    {
      hide LinkedList.Valid, LinkedList.Linked, Context.Apart;
      AtNode(k);
      ok := Send(p, left);
      if ok {
        inflight.ValidLinked();
        SetAt(tail, k, m);
      }
    }

    /** Send what is due for `tail`, the `k`th message in flight, unless it has QoS 0. */
    method MarkTurn(tail: Node<Msg>, ghost k: nat, left: nat) returns (ok: bool)
      requires Valid() && k < |inflight.nodes| && tail == inflight.nodes[k] && tail.data.state != PublishQos0
      modifies this`f, this`wire, tail
      ensures Valid() && |old(f)| == |inflight.nodes|
      ensures ok == (Due(old(f)[k]) == [] || left > 0)
      ensures wire == if ok then old(wire) + Due(old(f)[k]) else old(wire)
      ensures f == if ok then old(f)[k := AfterSend(old(f)[k])] else old(f)
    {
      hide LinkedList.Valid, Context.Apart;
      AtNode(k);
      var m := tail.data;
      if m.state == PublishQos1 {
        ok := Mark(tail, k, SentPublish(m), m.(dup := true, state := WaitForPuback), left);
      } else if m.state == PublishQos2 {
        ok := Mark(tail, k, SentPublish(m), m.(dup := true, state := WaitForPubrec), left);
      } else if m.state == SendPubrec {
        ok := Mark(tail, k, SentPubrec(m.mid), m.(state := WaitForPubrel), left);
      } else if m.state == ResendPubrel {
        ok := Mark(tail, k, SentPubrel(m.mid), m.(state := WaitForPubcomp), left);
      } else if m.state == ResendPubcomp {
        ok := Mark(tail, k, SentPubcomp(m.mid), m.(state := WaitForPubrel), left);
      } else {
        ok := true;
        assert f == f[k := AfterSend(m)] && wire == wire + [];
      }
    }

    /** One turn of the first loop of db__message_write: `tail` is the `k`th message in flight. */
    method WriteTurn(last: Node?<Msg>, tail: Node<Msg>, ghost k: nat, db: Database, left: nat)
      returns (ok: bool, prev: Node?<Msg>, next: Node?<Msg>, ghost at: nat)
      requires Valid() && db.Valid() && k < |inflight.nodes| && f[k].store in db.refs
      requires tail == NodeAt(inflight.nodes, k) && last == NodeAt(inflight.nodes, k - 1)
      modifies this`f, this`msgCount, this`msgBytes, this`msgCount12, this`msgBytes12, this`wire
      modifies inflight, inflight.nodes
      modifies db, db.chain`prev, db.chain`next, db.chain`refCount
      ensures Valid() && db.Valid() && q == old(q)
      ensures forall i :: 0 <= i < |inflight.nodes| ==> inflight.nodes[i] in old(inflight.nodes)
      ensures forall i :: 0 <= i < |db.chain| ==> db.chain[i] in old(db.chain)
      ensures ok == (!IsDue(old(f)[k]) || left > 0)
      ensures wire == if ok then old(wire) + Due(old(f)[k]) else old(wire)
      ensures at == if old(f)[k].state == PublishQos0 then k else k + 1
      ensures ok ==> next == NodeAt(inflight.nodes, at) && prev == NodeAt(inflight.nodes, at - 1)
      ensures if ok && old(f)[k].state == PublishQos0 then
                && f == old(f)[..k] + old(f)[k + 1..] && |inflight.nodes| == old(|inflight.nodes|) - 1
                && Tallied() == Minus(old(Tallied()), old(f)[k]) && db.Abs() == Deref(old(db.Abs()), old(f)[k].store)
              else
                && f == (if ok then old(f)[k := AfterSend(old(f)[k])] else old(f))
                && inflight.nodes == old(inflight.nodes) && Tallied() == old(Tallied()) && db.Abs() == old(db.Abs())
    {
      hide LinkedList.Valid, LinkedList.Linked, LinkedList.Contents, Database.Valid, Context.Apart, Minus, Deref;
      hide AfterSend;
      AtNode(k);
      prev, next := last, null;
      if tail.data.state == PublishQos0 {
        at := k;
        ok := Send(SentPublish(tail.data), left);
        if ok {
          db.Recorded(tail.data.store);
          BothLinked();
          next := MessageRemove(last, tail, k, db);
        }
      } else {
        at := k + 1;
        ok := MarkTurn(tail, k, left);
        AtNode(k);
        prev, next := tail, tail.next;
      }
    }

    /** The first loop of db__message_write; `left` sends succeed before one fails. */
    method WriteFlight(db: Database, sends: nat) returns (ok: bool, left: nat, visited: nat)
      requires Valid() && db.Valid() && Enough(db.Abs(), Held(f))
      modifies this`f, this`msgCount, this`msgBytes, this`msgCount12, this`msgBytes12, this`wire
      modifies inflight, inflight.nodes
      modifies db, db.chain`prev, db.chain`next, db.chain`refCount
      ensures Valid() && db.Valid() && q == old(q)
      ensures forall i :: 0 <= i < |inflight.nodes| ==> inflight.nodes[i] in old(inflight.nodes)
      ensures var w := WriteInflight(old(f), sends);
              && f == w.inflight && Tallied() == MinusAll(old(Tallied()), w.dropped) && wire == old(wire) + w.sent
              && db.Abs() == DerefAll(old(db.Abs()), StoresOf(w.dropped))
              && ok == w.ok && (ok ==> left == w.sends && visited == |old(f)|)
    {
      hide LinkedList.Valid, LinkedList.Contents, Database.Valid, Context.Valid;
      hide Minus, Deref, DerefAll, WriteInflight, MinusAll, Held, Enough, WritesTo, Due, IsDue, AfterSend, Gone;
      ghost var c, d, base, length := Tallied(), db.Abs(), wire, |f|;
      ghost var gone, sent: seq<Sent> := [], [];
      ghost var w := WriteInflight(f, sends);
      ghost var mine, stores := set n | n in inflight.nodes, set s | s in db.chain;
      var tail, last: Node?<Msg> := inflight.head, null;
      ghost var k := 0;
      ok, left, visited := true, sends, 0;
      HeadOf();
      WriteStart(f, sends, c, d, base);
      while tail != null
        invariant Valid() && db.Valid() && q == old(q) && k <= |inflight.nodes|
        invariant tail == NodeAt(inflight.nodes, k) && last == NodeAt(inflight.nodes, k - 1)
        invariant |inflight.nodes| - k == length - visited && visited <= length
        invariant WritesTo(w, c, d, base, gone, sent, k, left, f, Tallied(), db.Abs(), wire)
        invariant forall i :: 0 <= i < |inflight.nodes| ==> inflight.nodes[i] in mine
        invariant forall i :: 0 <= i < |db.chain| ==> db.chain[i] in stores
        decreases length - visited
      {
        AtFlight(k);
        WriteTurnIs(w, c, d, base, gone, sent, k, left, f, Tallied(), db.Abs(), wire);
        var m := tail.data;
        ok, last, tail, k := WriteTurn(last, tail, k, db, left);
        if !ok {
          return;
        }
        visited, left := visited + 1, if IsDue(m) then left - 1 else left;
        gone, sent := gone + Gone(m), sent + Due(m);
      }
      HeadOf();
      WriteEnd(w, c, d, base, gone, sent, left, f, Tallied(), db.Abs(), wire);
    }

    /** The second loop of db__message_write. */
    method WriteWaiting(l: Limits, start: nat, sends: nat) returns (ok: bool)
      requires Valid()
      requires l.maxInflight == 0 ==> forall i :: 0 <= i < |q| && q[i].dir == In ==> q[i].qos == 2
      modifies this`f, this`q, this`wire, inflight, queued, Nodes()
      ensures Valid()
      ensures var r := WriteRefill(l, old(f), old(q), start, sends);
              f == r.inflight && q == r.queued && wire == old(wire) + r.sent && ok == r.ok
    {
      hide LinkedList.Valid, Context.Apart, Context.Nodes, WriteRefill;
      ghost var r, sent: seq<Sent> := WriteRefill(l, f, q, start, sends), [];
      var index, left := start, sends;
      assert [] + r.sent == r.sent && wire == old(wire) + sent;
      FirstOf();
      while queued.head != null && (l.maxInflight == 0 || index < l.maxInflight)
        invariant Valid() && Nodes() == old(Nodes()) && (queued.head == null <==> q == [])
        invariant l.maxInflight == 0 ==> forall i :: 0 <= i < |q| && q[i].dir == In ==> q[i].qos == 2
        invariant TopsTo(l, f, q, index, left, sent, r) && wire == old(wire) + sent
        decreases |q|, l.maxInflight - index
      {
        FirstOf();
        TopTurn(l, f, q, index, left, sent, r);
        index := index + 1;
        var m := queued.head.data;
        if m.dir == Out {
          MoveFirst(PublishState(m.qos));
        } else if m.qos == 2 {
          ok := Send(SentPubrec(m.mid), left);
          // The C code moves the message before it sends, with a state that a failed send leaves behind.
          MoveFirst(if ok then WaitForPubrel else BrokerSpec.SendPubrec);
          if !ok {
            return;
          }
          left := left - 1;
          sent := sent + [SentPubrec(m.mid)];
        }
        FirstOf();
      }
      TopEnd(l, f, q, index, left, sent, r);
      return true;
    }

    /** db__message_write for a connected client; `sends` sends succeed before one fails. */
    method Write(l: Limits, db: Database, sends: nat) returns (rc: Rc)
      requires Valid() && db.Valid() && Enough(db.Abs(), Held(f))
      requires l.maxInflight == 0 ==> forall i :: 0 <= i < |q| && q[i].dir == In ==> q[i].qos == 2
      modifies this, inflight, queued, Nodes()
      modifies db, db.chain`prev, db.chain`next, db.chain`refCount
      ensures Valid() && db.Valid() && id == old(id)
      ensures rc == Inval <==> !old(online) || id.None?
      ensures rc == Inval ==> Abs() == old(Abs()) && db.Abs() == old(db.Abs()) && wire == old(wire)
      ensures rc != Inval ==>
                var w := BrokerSpec.Write(l, old(Abs()), sends);
                Abs() == w.0 && wire == old(wire) + w.1
      ensures rc != Inval ==> db.Abs() == DerefAll(old(db.Abs()), StoresOf(WriteInflight(old(f), sends).dropped))
    {
      hide LinkedList.Valid, LinkedList.Linked, LinkedList.Contents, Context.Apart, Database.Valid, Enough, Held;
      hide WriteRefill, WriteInflight, MinusAll, DerefAll, StoresOf;
      if !online || id.None? {
        return Inval;
      }
      ghost var w := WriteInflight(f, sends);
      var ok, left, visited := WriteFlight(db, sends);
      if !ok {
        return NoConn;
      }
      ok := WriteWaiting(l, visited, left);
      assert old(wire) + w.sent + WriteRefill(l, w.inflight, q, visited, left).sent ==
             old(wire) + (w.sent + WriteRefill(l, w.inflight, q, visited, left).sent);
      return if ok then Success else NoConn;
    }

    // ----- db__message_reconnect_reset -----

    /** Give a counted message in flight the state for a retry. */
    method ResetState(n: Node<Msg>, ghost k: nat)
      requires Apart() && inflight.Linked() && queued.Linked() && k < |inflight.nodes| && n == inflight.nodes[k]
      modifies this`f, n
      ensures Apart() && inflight.Linked() && queued.Linked()
      ensures k < |f| == |old(f)| && f == old(f)[k := ResetOne(old(f)[k])]
    {
      hide LinkedList.Linked, LinkedList.Valid, Context.Apart;
      AtNode(k);
      var m := n.data;
      if m.dir == Out {
        if m.qos == 0 {
          SetAt(n, k, m.(state := PublishQos0));
        } else if m.qos == 1 {
          SetAt(n, k, m.(state := PublishQos1));
        } else if m.qos == 2 {
          SetAt(n, k, m.(state := if m.state == WaitForPubcomp then ResendPubrel else PublishQos2));
        } else {
          assert f == f[k := ResetOne(m)];
        }
      } else {
        // Inbound QoS 2 messages keep their state.
        assert f == f[k := ResetOne(m)];
      }
    }

    /** Both lists are linked, whatever their tail pointers. */
    ghost predicate Loose()
      reads this`f, this`q, inflight`head, inflight`nodes, queued`head, queued`nodes, inflight.nodes, queued.nodes
    {
      Apart() && inflight.Linked() && queued.Linked()
    }

    /** The tail pointer of the list in flight is right. */
    ghost predicate TailRight()
      reads inflight`last, inflight`nodes
    {
      inflight.last == NodeAt(inflight.nodes, |inflight.nodes| - 1)
    }

    lemma LooseHead()
      requires Loose()
      ensures inflight.head == NodeAt(inflight.nodes, 0) && |f| == |inflight.nodes|
      ensures inflight.Valid() <==> TailRight()
      ensures inflight.nodes == [] && inflight.last == null ==> TailRight()
    {
    }

    /** One turn of the loop of db__message_reconnect_reset over the messages in flight, `msg` being the
      * `k`th; `at` is the position of the next one to be looked at. */
    method ResetTurn(last: Node?<Msg>, msg: Node<Msg>, ghost k: nat, db: Database)
      returns (prev: Node?<Msg>, next: Node?<Msg>, ghost at: nat, ghost ok: bool)
      requires Loose() && db.Valid() && k < |inflight.nodes| && |f| == |inflight.nodes| && f[k].store in db.refs
      requires msg == inflight.nodes[k] && last == NodeAt(inflight.nodes, k - 1)
      modifies this`f, this`msgCount, this`msgBytes, this`msgCount12, this`msgBytes12
      modifies inflight, inflight.nodes
      modifies db, db.chain`prev, db.chain`next, db.chain`refCount
      ensures Loose() && db.Valid() && |f| == |inflight.nodes|
      ensures forall i :: 0 <= i < |inflight.nodes| ==> inflight.nodes[i] in old(inflight.nodes)
      ensures forall i :: 0 <= i < |db.chain| ==> db.chain[i] in old(db.chain)
      ensures at <= |f| && next == NodeAt(inflight.nodes, at)
          && (next != null ==> prev == NodeAt(inflight.nodes, at - 1))
      ensures |f| <= |old(f)| && |f| - at < |old(f)| - k
      ensures Turned(old(f), k, old(Tallied()), old(db.Abs()), f, at, Tallied(), db.Abs(), ok)
      ensures ok <==> TailRight()
    {
      hide LinkedList.Linked, LinkedList.Valid, LinkedList.Contents, Context.Apart, Database.Valid, Plus, Minus, Deref;
      HeadWaiting();
      AtNode(k);
      inflight.last := msg;
      CountUp(msg.data);
      if Stray(msg.data) {
        db.Recorded(msg.data.store);
        next := MessageRemove(last, msg, k, db);
        FirstLinked();
        prev, at := next, k;
        if next != null {
          AtNode(k);
          next, at := next.next, k + 1;
        }
      } else {
        ResetState(msg, k);
        FirstLinked();
        AtNode(k);
        prev, next, at := msg, msg.next, k + 1;
      }
      ok := TailRight();
    }

    /** The same turn, on the way to the outcome `g`. */
    method ResetPass(last: Node?<Msg>, msg: Node<Msg>, ghost g: Recounted, ghost kept: bool, ghost d: Ledger,
                     ghost gone: seq<Msg>, ghost k: nat, ghost ok: bool, db: Database)
      returns (prev: Node?<Msg>, next: Node?<Msg>, ghost at: nat, ghost right: bool, ghost more: seq<Msg>)
      requires Loose() && db.Valid() && k < |inflight.nodes| && |f| == |inflight.nodes|
      requires msg == inflight.nodes[k] && last == NodeAt(inflight.nodes, k - 1)
      requires ResetsTo(g, kept, d, gone, k, f, Tallied(), db.Abs(), ok)
      modifies this`f, this`msgCount, this`msgBytes, this`msgCount12, this`msgBytes12
      modifies inflight, inflight.nodes
      modifies db, db.chain`prev, db.chain`next, db.chain`refCount
      ensures Loose() && db.Valid() && |f| == |inflight.nodes|
      ensures forall i :: 0 <= i < |inflight.nodes| ==> inflight.nodes[i] in old(inflight.nodes)
      ensures forall i :: 0 <= i < |db.chain| ==> db.chain[i] in old(db.chain)
      ensures at <= |f| && next == NodeAt(inflight.nodes, at)
      ensures next != null ==> prev == NodeAt(inflight.nodes, at - 1)
      ensures |f| - at < |old(f)| - k && (right <==> TailRight())
      ensures ResetsTo(g, kept, d, more, at, f, Tallied(), db.Abs(), right)
    {
      hide LinkedList.Linked, LinkedList.Valid, LinkedList.Contents, Context.Loose, Context.TailRight, Database.Valid;
      hide ResetsTo, Turned, Stray;
      ghost var was, now, b := f, Tallied(), db.Abs();
      ResetHas(g, kept, d, gone, k, f, now, b, ok);
      prev, next, at, right := ResetTurn(last, msg, k, db);
      ResetTurnIs(g, kept, d, gone, k, was, now, b, ok, f, at, Tallied(), db.Abs(), right);
      more := gone + if Stray(was[k]) then [was[k]] else [];
    }

    /** The loop of db__message_reconnect_reset over the messages in flight.  The tail pointer is right at
      * the end exactly if the loop does not pass over the last message. */
    method ResetFlight(db: Database)
      requires Loose() && (inflight.nodes == [] ==> inflight.last == null)
      requires db.Valid() && Enough(db.Abs(), Held(f))
      modifies this`f, this`msgCount, this`msgBytes, this`msgCount12, this`msgBytes12
      modifies inflight, inflight.nodes
      modifies db, db.chain`prev, db.chain`next, db.chain`refCount
      ensures Loose() && db.Valid()
      ensures forall i :: 0 <= i < |inflight.nodes| ==> inflight.nodes[i] in old(inflight.nodes)
      ensures var g := BrokerSpec.ResetFlight(old(f), NONE);
              f == g.kept && Tallied() == g.counts && db.Abs() == DerefAll(old(db.Abs()), StoresOf(g.dropped))
      ensures inflight.Valid() <==> TailKept(old(f))
    {
      hide LinkedList.Linked, LinkedList.Valid, LinkedList.Contents, Context.Loose, Context.TailRight, Context.Apart;
      hide Database.Valid, DerefAll, Enough, Held, BrokerSpec.ResetFlight, TailKept, ResetsTo, Turned, Stray, StoresOf;
      ghost var g, d, kept := BrokerSpec.ResetFlight(f, NONE), db.Abs(), TailKept(f);
      ghost var gone: seq<Msg> := [];
      ghost var mine, stores := set n | n in inflight.nodes, set s | s in db.chain;
      var prev: Node?<Msg>, msg := null, inflight.head;
      ghost var k: nat := 0;
      msgBytes, msgBytes12, msgCount, msgCount12 := 0, 0, 0, 0;
      LooseHead();
      ghost var ok := TailRight();
      ResetStart(f, d);
      while msg != null
        invariant Loose() && db.Valid() && k <= |f| && |f| == |inflight.nodes|
        invariant msg == NodeAt(inflight.nodes, k) && (msg != null ==> prev == NodeAt(inflight.nodes, k - 1))
        invariant ok <==> TailRight()
        invariant ResetsTo(g, kept, d, gone, k, f, Tallied(), db.Abs(), ok)
        invariant forall i :: 0 <= i < |inflight.nodes| ==> inflight.nodes[i] in mine
        invariant forall i :: 0 <= i < |db.chain| ==> db.chain[i] in stores
        decreases |f| - k
      {
        prev, msg, k, ok, gone := ResetPass(prev, msg, g, kept, d, gone, k, ok, db);
      }
      ResetEnd(g, kept, d, gone, f, Tallied(), db.Abs(), ok);
      LooseHead();
    }

    lemma FirstLinked()
      requires Apart() && inflight.Linked()
      ensures inflight.head == NodeAt(inflight.nodes, 0) && |f| == |inflight.nodes|
    {
    }

    /** The value of a waiting node, and what comes after it. */
    lemma AtWaiting(k: nat)
      requires Apart() && queued.Linked() && k < |queued.nodes|
      ensures |q| == |queued.nodes| && queued.nodes[k].data == q[k]
      ensures queued.nodes[k].next == NodeAt(queued.nodes, k + 1)
      ensures queued.head == queued.nodes[0]
    {
    }

    lemma HeadWaiting()
      requires Apart() && queued.Linked()
      ensures queued.head == NodeAt(queued.nodes, 0) && |q| == |queued.nodes| && inflight != queued
    {
    }

    /** There is room: give the message at position `k` its state and move the head of the queue. */
    method ResetMove(n: Node<Msg>, ghost k: nat)
      requires Apart() && queued.Linked() && inflight.Valid() && k < |queued.nodes| && n == queued.nodes[k]
      requires queued.last == n
      modifies this`f, this`q, inflight, queued, Nodes()
      ensures Apart() && queued.Linked() && inflight.Valid() && Nodes() == old(Nodes()) && k < |old(q)|
      ensures var p := old(q)[k := old(q)[k].(state := PublishState(old(q)[k].qos))];
              f == old(f) + [p[0]] && q == p[1..]
      ensures queued.nodes == [] ==> queued.last == null
    {
      hide LinkedList.Linked, LinkedList.Valid, LinkedList.Contents;
      AtWaiting(k);
      queued.Put(n, k, n.data.(state := PublishState(n.data.qos)));
      q := q[k := n.data];
      ghost var was := queued.nodes;
      DequeueFirst();
      assert was == [was[0]] + was[1..];
    }

    /** The loop of db__message_reconnect_reset over the queue.  The tail pointer of the list in flight is
      * used only if a message is moved. */
    method ResetWaiting(l: Limits)
      requires Loose() && (queued.nodes == [] ==> queued.last == null)
      requires inflight.Valid() || NoneMoves(l, q, 0, Tallied())
      modifies this`f, this`q, this`msgCount, this`msgBytes, this`msgCount12, this`msgBytes12
      modifies inflight, queued, Nodes()
      ensures Loose() && queued.Valid() && (inflight.Valid() <==> old(inflight.Valid()))
      ensures (f, q, Tallied()) == ResetQueue(l, old(f), old(q), 0, old(Tallied()))
    {
      hide LinkedList.Linked, LinkedList.Valid, Context.Apart, Context.Nodes, ResetQueue, NoneMoves, Plus;
      hide ReadyForFlight;
      ghost var r := ResetQueue(l, f, q, 0, Tallied());
      ghost var whole := inflight.Valid();
      var msg := queued.head;
      ghost var k := 0;
      HeadWaiting();
      while msg != null
        invariant Apart() && queued.Linked() && inflight.Linked() && Nodes() == old(Nodes())
        invariant k <= |queued.nodes| == |q| && msg == NodeAt(queued.nodes, k)
        invariant k > 0 ==> queued.last == queued.nodes[k - 1]
        invariant queued.nodes == [] ==> queued.last == null
        invariant r == ResetQueue(l, f, q, k, Tallied())
        invariant whole <==> inflight.Valid()
        invariant whole || NoneMoves(l, q, k, Tallied())
        decreases |q|, |q| - k
      {
        AtWaiting(k);
        ResetQueueTurn(l, f, q, k, Tallied());
        queued.last := msg;
        CountUp(msg.data);
        if ReadyForFlight(l, Tallied(), msg.data.qos) {
          ResetMove(msg, k);
          inflight.ValidLinked();
          msg := queued.head;
          k := 0;
          HeadWaiting();
        } else {
          msg := msg.next;
          k := k + 1;
        }
      }
      queued.TailSet();
      ResetQueueEnd(l, f, q, Tallied());
    }

    /** db__message_reconnect_reset, also with tail pointers left over from another life of the context:
      * afterwards the counters are the specified ones, and both lists are valid exactly if the first loop
      * keeps the tail.  If it does not and messages wait, the code goes on with a pointer to freed memory. */
    method ReconnectReset(l: Limits, db: Database)
      requires Apart() && inflight.Linked() && queued.Linked()
      requires inflight.nodes == [] ==> inflight.last == null
      requires queued.nodes == [] ==> queued.last == null
      requires db.Valid() && Enough(db.Abs(), Held(f)) && ResetDefined(l, f, q)
      modifies this`f, this`q, this`msgCount, this`msgBytes, this`msgCount12, this`msgBytes12
      modifies inflight, queued, Nodes()
      modifies db, db.chain`prev, db.chain`next, db.chain`refCount
      ensures Abs() == Reset(l, old(Abs())) && (Valid() <==> TailKept(old(f)))
      ensures db.Valid() && db.Abs() == DerefAll(old(db.Abs()), StoresOf(BrokerSpec.ResetFlight(old(f), NONE).dropped))
    {
      hide LinkedList.Linked, LinkedList.Valid, Context.Apart, Database.Valid, Enough, Held, DerefAll;
      hide ResetQueue, NoneMoves, BrokerSpec.ResetFlight, TailKept, StoresOf;
      HeadWaiting();
      ResetFlight(db);
      HeadWaiting();
      if queued.head != null {
        ResetWaiting(l);
      } else {
        NothingWaits(l, f, Tallied());
        queued.TailSet();
      }
    }

    ghost predicate Foreign(found: Context) {
      && found != this && found.inflight != inflight && found.inflight != queued
      && found.queued != inflight && found.queued != queued
    }

    lemma EmptyLists()
      requires Valid()
      ensures inflight.Linked() && queued.Linked() && inflight != queued
      ensures (inflight.head == null <==> f == []) && (queued.head == null <==> q == [])
      ensures f == [] ==> inflight.last == null
      ensures q == [] ==> queued.last == null
    {
    }

    /** Move the lists of another context to this one; all tail pointers stay as they are. */
    method MoveLists(found: Context)
      requires inflight != queued && Foreign(found) && found.Apart() && found.inflight.Linked() && found.queued.Linked()
      modifies this`f, this`q, found`f, found`q
      modifies inflight`head, inflight`nodes, queued`head, queued`nodes
      modifies found.inflight`head, found.inflight`nodes, found.queued`head, found.queued`nodes
      ensures Apart() && inflight.Linked() && queued.Linked() && f == old(found.f) && q == old(found.q)
      ensures Nodes() == old(found.Nodes())
      ensures found.Apart() && found.inflight.Linked() && found.queued.Linked() && found.f == [] && found.q == []
      ensures found.inflight.nodes == [] && found.queued.nodes == []
    {
      hide LinkedList.Linked;
      inflight.MoveFrom(found.inflight);
      queued.MoveFrom(found.queued);
      f, q := found.f, found.q;
      found.f, found.q := [], [];
    }

    /** The takeover in handle__connect by a new context, neither side having asked for a clean session.
      * The old context keeps its tail pointers and counters. */
    method TakeOver(l: Limits, found: Context, db: Database)
      requires Valid() && f == [] && q == [] && Tallied() == NONE && online
      requires Foreign(found) && found.Valid()
      requires db.Valid() && Enough(db.Abs(), Held(found.f)) && ResetDefined(l, found.f, found.q)
      modifies this, inflight, queued, found`f, found`q, found.inflight, found.queued, found.Nodes()
      modifies db, db.chain`prev, db.chain`next, db.chain`refCount
      ensures Abs() == BrokerSpec.TakeOver(l, old(found.Abs())) && (Valid() <==> TailKept(old(found.f)))
      ensures db.Valid()
      ensures db.Abs() == DerefAll(old(db.Abs()), StoresOf(BrokerSpec.ResetFlight(old(found.f), NONE).dropped))
      ensures found.Apart() && found.inflight.Linked() && found.queued.Linked() && found.f == [] && found.q == []
    {
      hide LinkedList.Valid, LinkedList.Linked, LinkedList.Contents, Context.Apart, Context.Nodes, Database.Valid;
      hide Enough, Held, DerefAll, StoresOf, Reset, ResetDefined, BrokerSpec.ResetFlight, TailKept;
      EmptyLists();
      found.EmptyLists();
      inserted := found.inserted;
      if found.inflight.head != null || found.queued.head != null {
        MoveLists(found);
        ReconnectReset(l, db);
      } else {
        NothingFlew(db.Abs());
      }
    }

    // ----- db__messages_delete -----

    /** Drop one reference; the lists are not concerned. */
    method DropOne(list: LinkedList<Msg>, other: LinkedList<Msg>, store: Store, db: Database)
      requires list.Linked() && other.Linked() && db.Valid() && store in db.chain
      modifies db, db.chain`prev, db.chain`next, db.chain`refCount
      ensures list.Linked() && list.Contents() == old(list.Contents())
      ensures other.Linked() && other.Contents() == old(other.Contents())
      ensures db.Valid() && db.Abs() == Deref(old(db.Abs()), store)
      ensures forall i :: 0 <= i < |db.chain| ==> db.chain[i] in old(db.chain)
    {
      hide Database.Valid, Deref;
      db.DropRef(store);
      assert forall i :: 0 <= i < |list.nodes| ==> list.nodes[i].next == old(list.nodes[i].next);
      assert forall i :: 0 <= i < |other.nodes| ==> other.nodes[i].next == old(other.nodes[i].next);
    }

    /** Drop the references of one list. */
    method DropRefs(list: LinkedList<Msg>, other: LinkedList<Msg>, ghost vals: seq<Msg>, ghost rest: multiset<Store>,
                    db: Database)
      requires list.Linked() && other.Linked() && vals == list.Contents()
      requires db.Valid() && Enough(db.Abs(), Held(vals) + rest)
      modifies db, db.chain`prev, db.chain`next, db.chain`refCount
      ensures db.Valid() && db.Abs() == DerefAll(old(db.Abs()), StoresOf(vals)) && Enough(db.Abs(), rest)
      ensures list.Linked() && other.Linked() && other.Contents() == old(other.Contents())
      ensures forall i :: 0 <= i < |db.chain| ==> db.chain[i] in old(db.chain)
    {
      hide LinkedList.Linked, LinkedList.Contents, Database.Valid, DerefAll, Deref, Held, Enough, DropsAt;
      ghost var d, others, stores := db.Abs(), other.Contents(), set s | s in db.chain;
      var tail := list.head;
      ghost var k := 0;
      list.LinkedHead();
      DropStart(vals, rest, d);
      while tail != null
        invariant list.Linked() && vals == list.Contents() && db.Valid() && k <= |vals| == |list.nodes|
        invariant other.Linked() && other.Contents() == others
        invariant tail == NodeAt(list.nodes, k)
        invariant DropsAt(vals, k, rest, d, db.Abs())
        invariant forall i :: 0 <= i < |db.chain| ==> db.chain[i] in stores
        decreases |vals| - k
      {
        list.LinkedAt(k);
        DropTurn(vals, k, rest, d, db.Abs());
        db.Recorded(tail.data.store);
        DropOne(list, other, tail.data.store, db);
        tail := tail.next;
        k := k + 1;
      }
      DropEnd(vals, rest, d, db.Abs());
    }

    method Forget()
      requires inflight != queued
      modifies this`f, this`q, this`msgCount, this`msgBytes, this`msgCount12, this`msgBytes12, inflight, queued
      ensures Valid() && Abs() == Clear(old(Abs()))
    {
      inflight.Drop();
      queued.Drop();
      f, q := [], [];
      msgBytes, msgBytes12, msgCount, msgCount12 := 0, 0, 0, 0;
    }

    lemma Holdings()
      requires Apart()
      ensures f == inflight.Contents() && q == queued.Contents() && inflight != queued
    {
    }

    /** db__messages_delete, also with tail pointers left over from a takeover. */
    method MessagesDelete(db: Database)
      requires Apart() && inflight.Linked() && queued.Linked()
      requires db.Valid() && Enough(db.Abs(), Held(f) + Held(q))
      modifies this`f, this`q, this`msgCount, this`msgBytes, this`msgCount12, this`msgBytes12
      modifies inflight, queued
      modifies db, db.chain`prev, db.chain`next, db.chain`refCount
      ensures Valid() && db.Valid() && Abs() == Clear(old(Abs()))
      ensures db.Abs() == DerefAll(DerefAll(old(db.Abs()), StoresOf(old(f))), StoresOf(old(q)))
    {
      hide LinkedList.Linked, LinkedList.Valid, LinkedList.Contents, Context.Apart, Database.Valid, DerefAll, Held;
      hide Enough;
      Holdings();
      DropRefs(inflight, queued, f, Held(q), db);
      assert Held(q) + multiset{} == Held(q);
      DropRefs(queued, inflight, q, multiset{}, db);
      Forget();
    }
  }

  /** An inbound message that came with this identifier. */
  predicate Came(m: Msg, mid: int) {
    m.dir == In && m.store.sourceMid == mid
  }

  lemma PlacedNowhere(s: Session, n: New, rc: int)
    ensures Placed(s, n, Nowhere(rc)) == s
  {
  }

  lemma PlaceKnown(l: Limits, s: Session, n: New)
    ensures PlaceOf(l, s, n, false, true).Nowhere? && PlaceOf(l, s, n, true, true) == Nowhere(0)
  {
  }

  // ----- the removal loop at position `j` -----

  ghost predicate TakenAt(was: seq<Msg>, j: nat, mid: int, dir: Direction, c: Counts, d: Ledger, removed: nat,
                          f: seq<Msg>, now: Counts, db: Ledger)
  {
    && j <= |was|
    && f == Kept(was[..j], mid, dir) + was[j..]
    && now == MinusAll(c, Dropped(was[..j], mid, dir))
    && db == DerefAll(d, StoresOf(Dropped(was[..j], mid, dir)))
    && Enough(db, Held(f)) && removed == |Dropped(was[..j], mid, dir)|
  }

  lemma TakenStart(was: seq<Msg>, mid: int, dir: Direction, c: Counts, d: Ledger)
    requires Enough(d, Held(was))
    ensures TakenAt(was, 0, mid, dir, c, d, 0, was, c, d)
  {
    assert was[..0] == [] && [] + was[0..] == was;
  }

  lemma StoresLast(q: seq<Msg>, m: Msg)
    ensures StoresOf(q + [m]) == StoresOf(q) + [m.store]
  {
  }

  lemma {:induction false} KeptDropped(q: seq<Msg>, mid: int, dir: Direction)
    ensures |Kept(q, mid, dir)| + |Dropped(q, mid, dir)| == |q|
  {
    if q != [] {
      KeptDropped(q[..|q| - 1], mid, dir);
    }
  }

  lemma HeldWithout(f: seq<Msg>, k: nat)
    requires k < |f|
    ensures f[k].store in Held(f) && Held(f[..k] + f[k + 1..]) == Held(f) - multiset{f[k].store}
  {
    hide Held;
    assert f == f[..k] + ([f[k]] + f[k + 1..]);
    HeldJoin(f[..k], [f[k]] + f[k + 1..]);
    HeldJoin([f[k]], f[k + 1..]);
    HeldJoin(f[..k], f[k + 1..]);
    HeldNone();
    HeldLast([], f[k]);
    assert [] + [f[k]] == [f[k]];
  }

  /** One turn. */
  lemma TakenTurn(was: seq<Msg>, j: nat, mid: int, dir: Direction, c: Counts, d: Ledger, removed: nat, k: int,
                  f: seq<Msg>, now: Counts, db: Ledger)
    requires j < |was| && TakenAt(was, j, mid, dir, c, d, removed, f, now, db) && k == j - removed
    ensures 0 <= k < |f| && f[k] == was[j] && f[k].store in db.refs
    ensures if f[k].Is(mid, dir)
            then TakenAt(was, j + 1, mid, dir, c, d, removed + 1, f[..k] + f[k + 1..],
              Minus(now, f[k]), Deref(db, f[k].store))
            else TakenAt(was, j + 1, mid, dir, c, d, removed, f, now, db)
  {
    hide Held, Kept, Dropped, Minus, Deref, MinusAll, DerefAll, Enough, StoresOf;
    var front, m := was[..j], was[j];
    var kept, gone, rest := Kept(front, mid, dir), Dropped(front, mid, dir), was[j + 1..];
    KeptDropped(front, mid, dir);
    assert was[..j + 1] == front + [m] && (front + [m])[..j] == front;
    assert was[j..] == [m] + rest;
    KeptLast(was[..j + 1], mid, dir);
    HeldWithout(f, |kept|);
    EnoughHas(db, Held(f), m.store);
    Around(kept, m, rest);
    if m.Is(mid, dir) {
      MinusLast(c, gone, m);
      StoresLast(gone, m);
      DerefAllAppend(d, StoresOf(gone), m.store);
      EnoughAfterDeref(db, Held(f), m.store);
    }
  }

  lemma Around(a: seq<Msg>, m: Msg, b: seq<Msg>)
    ensures var f := a + ([m] + b);
            f[|a|] == m && f[..|a|] + f[|a| + 1..] == a + b && f == a + [m] + b
  {
  }

  lemma EnoughHas(d: Ledger, held: multiset<Store>, s: Store)
    requires Enough(d, held) && s in held
    ensures s in d.refs
  {
  }

  lemma MinusLast(c: Counts, q: seq<Msg>, m: Msg)
    ensures MinusAll(c, q + [m]) == Minus(MinusAll(c, q), m)
  {
    assert (q + [m])[..|q|] == q;
  }

  lemma TakenEnd(was: seq<Msg>, mid: int, dir: Direction, c: Counts, d: Ledger, removed: nat,
                 f: seq<Msg>, now: Counts, db: Ledger)
    requires TakenAt(was, |was|, mid, dir, c, d, removed, f, now, db)
    ensures f == Kept(was, mid, dir) && now == MinusAll(c, Dropped(was, mid, dir))
    ensures db == DerefAll(d, StoresOf(Dropped(was, mid, dir))) && was[..|was|] == was
    ensures removed == |Dropped(was, mid, dir)| && |f| == |was| - removed
  {
    assert was[..|was|] == was && was[|was|..] == [];
    KeptDropped(was, mid, dir);
  }

  // ----- the refill loop -----

  ghost predicate RefillsTo(l: Limits, f: seq<Msg>, q: seq<Msg>, index: int, pubrecs: seq<int>, r: Filled) {
    var rest := BrokerSpec.Refill(l, f, q, index);
    r == rest.(pubrecs := pubrecs + rest.pubrecs)
  }

  lemma RefillTurn(l: Limits, f: seq<Msg>, q: seq<Msg>, index: int, pubrecs: seq<int>, r: Filled)
    requires q != [] && RoomAt(l, index) && RefillsTo(l, f, q, index, pubrecs, r)
    ensures var m := q[0];
            if m.dir == Out then RefillsTo(l, f + [m.(state := PublishState(m.qos))], q[1..], index + 1, pubrecs, r)
            else if m.qos == 2 then
              RefillsTo(l, f + [m.(state := WaitForPubrel)], q[1..], index + 1, pubrecs + [m.mid], r)
            else RefillsTo(l, f, q, index + 1, pubrecs, r)
  {
    var m := q[0];
    if m.dir == In && m.qos == 2 {
      var rest := BrokerSpec.Refill(l, f + [m.(state := WaitForPubrel)], q[1..], index + 1);
      assert pubrecs + ([m.mid] + rest.pubrecs) == pubrecs + [m.mid] + rest.pubrecs;
    }
  }

  lemma RefillEnd(l: Limits, f: seq<Msg>, q: seq<Msg>, index: int, pubrecs: seq<int>, r: Filled)
    requires RefillsTo(l, f, q, index, pubrecs, r) && (q == [] || !RoomAt(l, index))
    ensures r == Filled(f, q, pubrecs)
  {
    assert pubrecs + [] == pubrecs;
  }

  lemma {:induction false} UpdateAt(q: seq<Msg>, k: nat, mid: int, dir: Direction, state: BrokerSpec.State)
    requires k <= |q| && (forall i :: 0 <= i < k ==> !q[i].Is(mid, dir)) && (k < |q| ==> q[k].Is(mid, dir))
    ensures BrokerSpec.Update(q, mid, dir, state) == if k == |q| then q else q[k := q[k].(state := state)]
  {
    if k > 0 {
      UpdateAt(q[1..], k - 1, mid, dir, state);
      assert q == [q[0]] + q[1..];
    }
  }

  // ----- the loops of db__message_write -----

  function IsDue(m: Msg): bool { Due(m) != [] }

  /** With `k` messages dealt with, `gone` removed, `sent` sent and `left` sends left, the loop is on the
    * way to `w`. */
  ghost predicate WritesTo(w: Written, c: Counts, d: Ledger, base: seq<Sent>, gone: seq<Msg>, sent: seq<Sent>, k: int,
                           left: nat, f: seq<Msg>, now: Counts, db: Ledger, wire: seq<Sent>)
  {
    && 0 <= k <= |f| && w == Ahead(f[..k], gone, sent, WriteInflight(f[k..], left))
    && now == MinusAll(c, gone) && db == DerefAll(d, StoresOf(gone)) && wire == base + sent
    && Enough(db, Held(f))
  }

  lemma WriteStart(f: seq<Msg>, sends: nat, c: Counts, d: Ledger, base: seq<Sent>)
    requires Enough(d, Held(f))
    ensures WritesTo(WriteInflight(f, sends), c, d, base, [], [], 0, sends, f, c, d, base)
  {
    var w := WriteInflight(f, sends);
    assert f[..0] == [] && f[0..] == f && base + [] == base;
    assert [] + w.inflight == w.inflight && [] + w.dropped == w.dropped && [] + w.sent == w.sent;
  }

  function Gone(m: Msg): seq<Msg> {
    if m.state == PublishQos0 then [m] else []
  }

  lemma WriteTurnIs(w: Written, c: Counts, d: Ledger, base: seq<Sent>, gone: seq<Msg>, sent: seq<Sent>,
      k: nat, left: nat,
                    f: seq<Msg>, now: Counts, db: Ledger, wire: seq<Sent>)
    requires k < |f| && WritesTo(w, c, d, base, gone, sent, k, left, f, now, db, wire)
    ensures f[k].store in db.refs
    ensures var m := f[k];
            if IsDue(m) && left == 0 then
              && f == w.inflight && now == MinusAll(c, w.dropped) && db == DerefAll(d, StoresOf(w.dropped))
              && wire == base + w.sent && !w.ok
            else
              var more, then' := sent + Due(m), if IsDue(m) then left - 1 else left;
              if m.state == PublishQos0 then
                WritesTo(w, c, d, base, gone + Gone(m), more, k, then', f[..k] + f[k + 1..], Minus(now, m),
                         Deref(db, m.store), wire + Due(m))
              else WritesTo(w, c, d, base, gone + Gone(m), more,
                k + 1, then', f[k := AfterSend(m)], now, db, wire + Due(m))
  {
    hide Minus, Deref, DerefAll, MinusAll, Held, Enough, StoresOf;
    var m, rest := f[k], f[k + 1..];
    HeldWithout(f, k);
    EnoughHas(db, Held(f), m.store);
    assert f[k..] == [m] + rest && f == f[..k] + ([m] + rest);
    assert base + sent + Due(m) == base + (sent + Due(m));
    if Due(m) == [] || left > 0 {
      WriteOneMore(f[..k], gone, sent, m, rest, left);
      if m.state == PublishQos0 {
        MinusLast(c, gone, m);
        StoresLast(gone, m);
        DerefAllAppend(d, StoresOf(gone), m.store);
        EnoughAfterDeref(db, Held(f), m.store);
        assert (f[..k] + rest)[..k] == f[..k] && (f[..k] + rest)[k..] == rest;
      } else {
        assert gone + [] == gone;
        var g := f[k := AfterSend(m)];
        assert g[..k + 1] == f[..k] + [AfterSend(m)] && g[k + 1..] == rest;
        assert Alike(g, f);
        HeldAlike(g, f);
      }
    } else {
      assert f[..k] + f[k..] == f && gone + [] == gone && sent + [] == sent;
    }
  }

  /** One message dealt with. */
  lemma WriteOneMore(front: seq<Msg>, gone: seq<Msg>, sent: seq<Sent>, m: Msg, rest: seq<Msg>, left: nat)
    requires Due(m) == [] || left > 0
    ensures var w := Ahead(front, gone, sent, WriteInflight([m] + rest, left));
            var v := WriteInflight(rest, if IsDue(m) then left - 1 else left);
            if m.state == PublishQos0 then w == Ahead(front, gone + Gone(m), sent + Due(m), v)
            else w == Ahead(front + [AfterSend(m)], gone + Gone(m), sent + Due(m), v)
  {
    var v := WriteInflight(rest, if IsDue(m) then left - 1 else left);
    var now := if m.state == PublishQos0 then [] else [AfterSend(m)];
    WriteFirst(m, rest, left);
    hide WriteInflight, Due, AfterSend, Gone;
    assert front + (now + v.inflight) == front + now + v.inflight;
    assert sent + (Due(m) + v.sent) == sent + Due(m) + v.sent;
    assert gone + (Gone(m) + v.dropped) == gone + Gone(m) + v.dropped;
    assert front + [] == front;
  }

  lemma WriteFirst(m: Msg, rest: seq<Msg>, left: nat)
    requires Due(m) == [] || left > 0
    ensures var v := WriteInflight(rest, if IsDue(m) then left - 1 else left);
            WriteInflight([m] + rest, left) ==
            Ahead(if m.state == PublishQos0 then [] else [AfterSend(m)], Gone(m), Due(m), v)
  {
    assert ([m] + rest)[1..] == rest;
  }

  lemma WriteEnd(w: Written, c: Counts, d: Ledger, base: seq<Sent>, gone: seq<Msg>, sent: seq<Sent>, left: nat,
                 f: seq<Msg>, now: Counts, db: Ledger, wire: seq<Sent>)
    requires WritesTo(w, c, d, base, gone, sent, |f|, left, f, now, db, wire)
    ensures f == w.inflight && now == MinusAll(c, w.dropped) && db == DerefAll(d, StoresOf(w.dropped))
    ensures wire == base + w.sent && w.ok && w.sends == left
  {
    assert f[..|f|] == f && f[|f|..] == [];
    assert f + [] == f && gone + [] == gone && sent + [] == sent;
  }

  ghost predicate TopsTo(l: Limits, f: seq<Msg>, q: seq<Msg>, index: int, left: nat, sent: seq<Sent>, r: Topped) {
    var rest := WriteRefill(l, f, q, index, left);
    r == rest.(sent := sent + rest.sent)
  }

  lemma TopTurn(l: Limits, f: seq<Msg>, q: seq<Msg>, index: int, left: nat, sent: seq<Sent>, r: Topped)
    requires q != [] && RoomAt(l, index) && TopsTo(l, f, q, index, left, sent, r)
    ensures var m := q[0];
            if m.dir == Out then TopsTo(l, f + [m.(state := PublishState(m.qos))], q[1..], index + 1, left, sent, r)
            else if m.qos != 2 then TopsTo(l, f, q, index + 1, left, sent, r)
            else if left == 0 then r == Topped(f + [m.(state := SendPubrec)], q[1..], sent, false)
            else TopsTo(l, f + [m.(state := WaitForPubrel)], q[1..], index + 1, left - 1, sent + [SentPubrec(m.mid)], r)
  {
    var m := q[0];
    assert sent + [] == sent;
    if m.dir == In && m.qos == 2 && left > 0 {
      var rest := WriteRefill(l, f + [m.(state := WaitForPubrel)], q[1..], index + 1, left - 1);
      assert sent + ([SentPubrec(m.mid)] + rest.sent) == sent + [SentPubrec(m.mid)] + rest.sent;
    }
  }

  lemma TopEnd(l: Limits, f: seq<Msg>, q: seq<Msg>, index: int, left: nat, sent: seq<Sent>, r: Topped)
    requires TopsTo(l, f, q, index, left, sent, r) && (q == [] || !RoomAt(l, index))
    ensures r == Topped(f, q, sent, true)
  {
    assert sent + [] == sent;
  }

  // ----- the loops of db__message_reconnect_reset -----

  /** With `k` messages dealt with and `gone` dropped, the loop is on the way to `g`.  `kept` says whether
    * the tail pointer will be right at the end, `ok` whether it is now. */
  ghost predicate ResetsTo(g: Recounted, kept: bool, d: Ledger, gone: seq<Msg>, k: int, f: seq<Msg>, now: Counts,
                           db: Ledger, ok: bool)
  {
    && 0 <= k <= |f|
    && (var r := BrokerSpec.ResetFlight(f[k..], now); g == Recounted(f[..k] + r.kept, r.counts, gone + r.dropped))
    && kept == (if k < |f| then TailKept(f[k..]) else ok)
    && db == DerefAll(d, StoresOf(gone)) && Enough(db, Held(f))
  }

  lemma ResetStart(f: seq<Msg>, d: Ledger)
    requires Enough(d, Held(f))
    ensures ResetsTo(BrokerSpec.ResetFlight(f, NONE), TailKept(f), d, [], 0, f, NONE, d, true)
    ensures f != [] ==> ResetsTo(BrokerSpec.ResetFlight(f, NONE), TailKept(f), d, [], 0, f, NONE, d, false)
  {
    var g := BrokerSpec.ResetFlight(f, NONE);
    assert f[0..] == f && f[..0] == [] && [] + g.kept == g.kept && [] + g.dropped == g.dropped;
  }

  /** One turn: from the `k`th of `f` to position `at` of `e`.  `ok` says whether the tail is right then, as
    * far as it can be told. */
  ghost predicate Turned(f: seq<Msg>, k: nat, now: Counts, db: Ledger, e: seq<Msg>, at: nat, then': Counts, b: Ledger,
                         ok: bool)
    requires k < |f|
  {
    if Stray(f[k]) then
      && e == f[..k] + f[k + 1..] && at == (if k < |e| then k + 1 else k)
      && then' == Minus(Plus(now, f[k]), f[k]) && b == Deref(db, f[k].store) && (at == |e| ==> ok == (k == |e|))
    else
      && e == f[k := ResetOne(f[k])] && at == k + 1
      && then' == Plus(now, f[k]) && b == db && (at == |e| ==> ok)
  }

  lemma ResetHas(g: Recounted, kept: bool, d: Ledger, gone: seq<Msg>, k: nat, f: seq<Msg>, now: Counts,
      db: Ledger, ok: bool)
    requires k < |f| && ResetsTo(g, kept, d, gone, k, f, now, db, ok)
    ensures f[k].store in db.refs
  {
    hide Held, Enough;
    HeldWithout(f, k);
    EnoughHas(db, Held(f), f[k].store);
  }

  lemma ResetTurnIs(g: Recounted, kept: bool, d: Ledger, gone: seq<Msg>, k: nat, f: seq<Msg>, now: Counts, db: Ledger,
                    ok: bool, e: seq<Msg>, at: nat, then': Counts, b: Ledger, next: bool)
    requires k < |f| && ResetsTo(g, kept, d, gone, k, f, now, db, ok) && Turned(f, k, now, db, e, at, then', b, next)
    ensures ResetsTo(g, kept, d, gone + (if Stray(f[k]) then [f[k]] else []), at, e, then', b, next)
  {
    hide Plus, Minus, Deref, DerefAll, Enough, Held, StoresOf;
    var m, rest := f[k], f[k + 1..];
    assert f[k..] == [m] + rest && f[k..][1..] == rest;
    if Stray(m) {
      HeldWithout(f, k);
      StoresLast(gone, m);
      DerefAllAppend(d, StoresOf(gone), m.store);
      EnoughAfterDeref(db, Held(f), m.store);
      if rest != [] {
        assert f[k..][2..] == e[k + 1..] && e[..k + 1] == f[..k] + [rest[0]];
      } else {
        assert e[k..] == [] && e[..k] == f[..k];
      }
    } else {
      assert e[k + 1..] == rest && e[..k + 1] == f[..k] + [ResetOne(m)];
      assert Alike(e, f);
      HeldAlike(e, f);
      assert gone + [] == gone;
    }
  }

  lemma ResetEnd(g: Recounted, kept: bool, d: Ledger, gone: seq<Msg>, f: seq<Msg>, now: Counts, db: Ledger, ok: bool)
    requires ResetsTo(g, kept, d, gone, |f|, f, now, db, ok)
    ensures f == g.kept && now == g.counts && db == DerefAll(d, StoresOf(g.dropped)) && kept == ok
  {
    assert f[|f|..] == [] && f[..|f|] == f && f + [] == f && gone + [] == gone;
  }

  lemma NothingWaits(l: Limits, f: seq<Msg>, c: Counts)
    ensures ResetQueue(l, f, [], 0, c) == (f, [], c)
  {
  }

  lemma NothingFlew(d: Ledger)
    ensures DerefAll(d, StoresOf(BrokerSpec.ResetFlight([], NONE).dropped)) == d && TailKept([])
  {
  }

  lemma ResetQueueTurn(l: Limits, f: seq<Msg>, q: seq<Msg>, k: nat, c: Counts)
    requires k < |q|
    ensures var d := Plus(c, q[k]);
            ResetQueue(l, f, q, k, c) ==
            if ReadyForFlight(l, d, q[k].qos) then
              var p := q[k := q[k].(state := PublishState(q[k].qos))];
              ResetQueue(l, f + [p[0]], p[1..], 0, d)
            else ResetQueue(l, f, q, k + 1, d)
    ensures NoneMoves(l, q, k, c) ==>
              !ReadyForFlight(l, Plus(c, q[k]), q[k].qos) && NoneMoves(l, q, k + 1, Plus(c, q[k]))
  {
  }

  lemma ResetQueueEnd(l: Limits, f: seq<Msg>, q: seq<Msg>, c: Counts)
    ensures ResetQueue(l, f, q, |q|, c) == (f, q, c)
  {
  }

  ghost predicate DropsAt(vals: seq<Msg>, k: nat, rest: multiset<Store>, d: Ledger, db: Ledger) {
    k <= |vals| && db == DerefAll(d, StoresOf(vals[..k])) && Enough(db, Held(vals[k..]) + rest)
  }

  lemma DropStart(vals: seq<Msg>, rest: multiset<Store>, d: Ledger)
    requires Enough(d, Held(vals) + rest)
    ensures DropsAt(vals, 0, rest, d, d)
  {
    assert vals[0..] == vals && vals[..0] == [];
  }

  lemma DropTurn(vals: seq<Msg>, k: nat, rest: multiset<Store>, d: Ledger, db: Ledger)
    requires k < |vals| && DropsAt(vals, k, rest, d, db)
    ensures vals[k].store in db.refs && DropsAt(vals, k + 1, rest, d, Deref(db, vals[k].store))
  {
    hide Held, Enough, Deref, DerefAll;
    var s, more := vals[k].store, vals[k + 1..];
    HeldWithout(vals[k..], 0);
    assert vals[k..][..0] + vals[k..][1..] == more;
    assert Held(more) + rest == Held(vals[k..]) + rest - multiset{s};
    EnoughHas(db, Held(vals[k..]) + rest, s);
    EnoughAfterDeref(db, Held(vals[k..]) + rest, s);
    StoresLast(vals[..k], vals[k]);
    assert vals[..k + 1] == vals[..k] + [vals[k]];
    DerefAllAppend(d, StoresOf(vals[..k]), s);
  }

  lemma DropEnd(vals: seq<Msg>, rest: multiset<Store>, d: Ledger, db: Ledger)
    requires DropsAt(vals, |vals|, rest, d, db)
    ensures db == DerefAll(d, StoresOf(vals)) && Enough(db, rest)
  {
    assert vals[..|vals|] == vals && vals[|vals|..] == [];
    HeldNone();
    assert Held([]) + rest == rest;
  }
}
