/** The broker's message store: reference-counted messages on a doubly linked list, shared by all clients
  * (db__msg_store_* and db__message_store of database.c). */
module Stores {

  class Store {
    const sourceMid: int
    const qos: int
    const payloadlen: nat
    const topic: seq<char>
    var refCount: int
    var destIds: seq<seq<char>>
    var prev: Store?
    var next: Store?

    constructor (sourceMid: int, qos: int, payloadlen: nat, topic: seq<char>)
      ensures refCount == 0 && destIds == [] && prev == null && next == null
      ensures this.sourceMid == sourceMid && this.qos == qos && this.payloadlen == payloadlen && this.topic == topic
    {
      this.sourceMid, this.qos, this.payloadlen, this.topic := sourceMid, qos, payloadlen, topic;
      refCount, destIds, prev, next := 0, [], null, null;
    }
  }

  // ----- the store as a value -----

  datatype Ledger = Ledger(chain: seq<Store>, refs: map<Store, int>, count: int, bytes: int)

  ghost function Volume(chain: seq<Store>): nat {
    if chain == [] then 0 else chain[0].payloadlen + Volume(chain[1..])
  }

  ghost function Without(chain: seq<Store>, s: Store): seq<Store> {
    if chain == [] then [] else if chain[0] == s then chain[1..] else [chain[0]] + Without(chain[1..], s)
  }

  /** db__message_store. */
  ghost function Added(d: Ledger, s: Store): Ledger {
    Ledger([s] + d.chain, d.refs[s := 0], d.count + 1, d.bytes + s.payloadlen)
  }

  /** db__msg_store_remove. */
  ghost function Removed(d: Ledger, s: Store): Ledger {
    Ledger(Without(d.chain, s), d.refs - {s}, d.count - 1, d.bytes - s.payloadlen)
  }

  ghost function Ref(d: Ledger, s: Store): Ledger {
    if s !in d.refs then d else d.(refs := d.refs[s := d.refs[s] + 1])
  }

  /** db__msg_store_deref. */
  ghost function Deref(d: Ledger, s: Store): Ledger {
    if s !in d.refs then d
    else
      var e := d.(refs := d.refs[s := d.refs[s] - 1]);
      if e.refs[s] == 0 then Removed(e, s) else e
  }

  ghost function DerefAll(d: Ledger, ss: seq<Store>): Ledger {
    if ss == [] then d else Deref(DerefAll(d, ss[..|ss| - 1]), ss[|ss| - 1])
  }

  lemma DerefAllAppend(d: Ledger, ss: seq<Store>, s: Store)
    ensures DerefAll(d, ss + [s]) == Deref(DerefAll(d, ss), s)
  {
    assert (ss + [s])[..|ss|] == ss;
  }

  /** There is a reference on record for each occurrence in `held`. */
  ghost predicate Enough(d: Ledger, held: multiset<Store>) {
    forall s :: s in held ==> s in d.refs && held[s] <= d.refs[s]
  }

  lemma EnoughAfterDeref(d: Ledger, held: multiset<Store>, s: Store)
    requires Enough(d, held) && s in held
    ensures Enough(Deref(d, s), held - multiset{s})
  {
    var left := held - multiset{s};
    forall t | t in left ensures t in Deref(d, s).refs && left[t] <= Deref(d, s).refs[t] {
      assert t in held;
      assert left[t] == if t == s then held[t] - 1 else held[t];
    }
  }

  // ----- what every step keeps -----

  ghost predicate Distinct(chain: seq<Store>) {
    chain == [] || (chain[0] !in chain[1..] && Distinct(chain[1..]))
  }

  /** The list has no repetition, the counts are those of its members, and the totals are those of the list. */
  ghost predicate Listed(d: Ledger) {
    && Distinct(d.chain)
    && (forall s :: s in d.refs ==> s in d.chain) && (forall s :: s in d.chain ==> s in d.refs)
    && d.count == |d.chain| && d.bytes == Volume(d.chain)
  }

  /** Every count is the number of references in `refs`, and every reference is to a store on the list. */
  ghost predicate RefsCounted(d: Ledger, refs: multiset<Store>) {
    && (forall s :: s in d.refs ==> d.refs[s] == refs[s])
    && (forall s :: s in refs ==> s in d.refs)
  }

  ghost predicate Balanced(d: Ledger, refs: multiset<Store>) {
    Listed(d) && RefsCounted(d, refs)
  }

  lemma {:induction false} WithoutMembers(chain: seq<Store>, s: Store, t: Store)
    requires Distinct(chain)
    ensures t in Without(chain, s) <==> t in chain && t != s
  {
    if chain != [] {
      var rest := chain[1..];
      assert chain == [chain[0]] + rest;
      if chain[0] != s {
        WithoutMembers(rest, s, t);
      }
    }
  }

  lemma {:induction false} WithoutDistinct(chain: seq<Store>, s: Store)
    requires Distinct(chain)
    ensures Distinct(Without(chain, s))
  {
    if chain != [] && chain[0] != s {
      var left := Without(chain[1..], s);
      WithoutDistinct(chain[1..], s);
      WithoutMembers(chain[1..], s, chain[0]);
      assert ([chain[0]] + left)[1..] == left;
    }
  }

  lemma {:induction false} WithoutTotals(chain: seq<Store>, s: Store)
    requires s in chain
    ensures |Without(chain, s)| == |chain| - 1 && Volume(Without(chain, s)) == Volume(chain) - s.payloadlen
  {
    if chain[0] != s {
      assert chain == [chain[0]] + chain[1..];
      WithoutTotals(chain[1..], s);
      assert ([chain[0]] + Without(chain[1..], s))[1..] == Without(chain[1..], s);
    }
  }

  lemma AddKeeps(d: Ledger, refs: multiset<Store>, s: Store)
    requires Balanced(d, refs) && s !in d.refs
    ensures Balanced(Added(d, s), refs)
  {
    assert ([s] + d.chain)[1..] == d.chain;
  }

  lemma RefKeeps(d: Ledger, refs: multiset<Store>, s: Store)
    requires Balanced(d, refs) && s in d.refs
    ensures Balanced(Ref(d, s), refs + multiset{s})
  {
  }

  lemma RemoveKeepsList(d: Ledger, s: Store)
    requires Listed(d) && s in d.refs
    ensures Listed(Removed(d, s)) && Removed(d, s).refs == d.refs - {s}
  {
    hide Without;
    WithoutDistinct(d.chain, s);
    WithoutTotals(d.chain, s);
    forall t ensures t in Without(d.chain, s) <==> t in d.chain && t != s {
      WithoutMembers(d.chain, s, t);
    }
    var e := Removed(d, s);
    assert Distinct(e.chain);
    assert e.count == |e.chain|;
    assert e.bytes == Volume(e.chain);
    assert forall t :: t in e.refs ==> t in e.chain;
    assert forall t :: t in e.chain ==> t in e.refs;
  }

  lemma DerefKeepsList(d: Ledger, s: Store)
    requires Listed(d) && s in d.refs
    ensures Listed(Deref(d, s))
    ensures var e := d.(refs := d.refs[s := d.refs[s] - 1]);
            Deref(d, s).refs == if e.refs[s] == 0 then e.refs - {s} else e.refs
  {
    hide Distinct, Volume;
    var e := d.(refs := d.refs[s := d.refs[s] - 1]);
    if e.refs[s] == 0 {
      RemoveKeepsList(e, s);
    }
  }

  /** Dropping a reference; the store goes exactly if it was the last one. */
  lemma DerefKeeps(d: Ledger, refs: multiset<Store>, s: Store)
    requires Balanced(d, refs) && s in refs
    ensures Balanced(Deref(d, s), refs - multiset{s})
    ensures forall t :: t in Deref(d, s).refs <==> t in d.refs && !(t == s && refs[s] == 1)
  {
    hide Listed, Deref;
    DerefKeepsList(d, s);
    var left := refs - multiset{s};
    assert forall t :: left[t] == if t == s then refs[t] - 1 else refs[t];
  }

  /** Dropping several: a store goes exactly if all its references are among them. */
  lemma {:induction false} DerefAllKeeps(d: Ledger, refs: multiset<Store>, ss: seq<Store>)
    requires Balanced(d, refs) && multiset(ss) <= refs
    ensures Balanced(DerefAll(d, ss), refs - multiset(ss))
    ensures forall t :: t in DerefAll(d, ss).refs <==> t in d.refs && !(t in ss && multiset(ss)[t] == refs[t])
    decreases |ss|
  {
    hide Balanced, Deref;
    if ss != [] {
      var front, s := ss[..|ss| - 1], ss[|ss| - 1];
      assert ss == front + [s];
      assert multiset(ss) == multiset(front) + multiset{s};
      DerefAllKeeps(d, refs, front);
      DerefKeeps(DerefAll(d, front), refs - multiset(front), s);
      assert refs - multiset(front) - multiset{s} == refs - multiset(ss);
    } else {
      assert refs - multiset(ss) == refs;
    }
  }

  // ----- the list in place -----

  ghost function At(chain: seq<Store>, i: int): Store? {
    if 0 <= i < |chain| then chain[i] else null
  }

  /** Taking out the `k`th store and joining its neighbours keeps the rest linked. */
  lemma LinkedWithout(was: seq<Store>, k: nat, now: seq<Store>)
    requires k < |was| && now == was[..k] + was[k + 1..]
    requires forall i :: 0 <= i < |was| && i != k - 1 ==> was[i].next == At(was, i + 1)
    requires forall i :: 0 <= i < |was| && i != k + 1 ==> was[i].prev == At(was, i - 1)
    requires k > 0 ==> was[k - 1].next == At(was, k + 1)
    requires k + 1 < |was| ==> was[k + 1].prev == At(was, k - 1)
    requires forall i, j :: 0 <= i < j < |was| ==> was[i] != was[j]
    ensures forall i, j :: 0 <= i < j < |now| ==> now[i] != now[j]
    ensures forall i :: 0 <= i < |now| ==> now[i].next == At(now, i + 1)
    ensures forall i :: 0 <= i < |now| ==> now[i].prev == At(now, i - 1)
  {
    forall i | 0 <= i < |now|
      ensures now[i].next == At(now, i + 1) && now[i].prev == At(now, i - 1)
    {
      assert now[i] == was[if i < k then i else i + 1];
      assert At(now, i + 1) == At(was, if i + 1 < k then i + 1 else i + 2);
      assert At(now, i - 1) == At(was, if i - 1 < k then i - 1 else i);
    }
  }

  class Database {
    var msgStore: Store?
    var msgStoreCount: int
    var msgStoreBytes: int
    ghost var chain: seq<Store>
    ghost var refs: map<Store, int>

    /** The list runs through `chain` in both directions. */
    ghost predicate Linked()
      reads this`msgStore, this`chain, chain`prev, chain`next
    {
      && msgStore == At(chain, 0)
      && (forall i :: 0 <= i < |chain| ==> chain[i].next == At(chain, i + 1))
      && (forall i :: 0 <= i < |chain| ==> chain[i].prev == At(chain, i - 1))
      && (forall i, j :: 0 <= i < j < |chain| ==> chain[i] != chain[j])
    }

    /** `refs` records the reference counts. */
    ghost predicate Tied()
      reads this`refs, this`chain, chain`refCount
    {
      && (forall s :: s in refs ==> s in chain) && (forall s :: s in chain ==> s in refs)
      && (forall s :: s in chain ==> refs[s] == s.refCount)
    }

    ghost predicate Valid()
      reads this`msgStore, this`refs, this`chain, chain`prev, chain`next, chain`refCount
    {
      Linked() && Tied()
    }

    ghost function Abs(): Ledger
      reads this
    {
      Ledger(chain, refs, msgStoreCount, msgStoreBytes)
    }

    constructor ()
      ensures Valid() && Abs() == Ledger([], map[], 0, 0)
    {
      msgStore, msgStoreCount, msgStoreBytes, chain, refs := null, 0, 0, [], map[];
    }

    lemma Recorded(s: Store)
      requires Valid() && s in refs
      ensures s in chain
    {
    }

    /** db__msg_store_add. */
    method Add(store: Store)
      requires Valid() && store !in chain
      modifies this`msgStore, this`chain, this`refs, store`prev, store`next, chain`prev, chain`next
      ensures Valid() && chain == [store] + old(chain) && refs == old(refs)[store := store.refCount]
    {
      store.next := msgStore;
      store.prev := null;
      if msgStore != null {
        msgStore.prev := store;
      }
      msgStore := store;
      chain, refs := [store] + chain, refs[store := store.refCount];
    }

    /** db__message_store with the fields that the model keeps; the reference count starts at 0. */
    method MessageStore(sourceMid: int, qos: int, payloadlen: nat, topic: seq<char>) returns (stored: Store)
      requires Valid()
      modifies this, chain`prev, chain`next
      ensures Valid() && fresh(stored) && Abs() == Added(old(Abs()), stored)
      ensures stored.sourceMid == sourceMid && stored.qos == qos
      ensures stored.payloadlen == payloadlen && stored.topic == topic && stored.destIds == []
    {
      stored := new Store(sourceMid, qos, payloadlen, topic);
      msgStoreCount := msgStoreCount + 1;
      msgStoreBytes := msgStoreBytes + payloadlen;
      Add(stored);
    }

    /** The relinking of db__msg_store_remove; `store` is the `k`th. */
    method Unlink(store: Store, ghost k: nat)
      requires Linked() && k < |chain| && chain[k] == store
      modifies this`msgStore, this`chain, chain`prev, chain`next
      ensures Linked() && chain == old(chain)[..k] + old(chain)[k + 1..]
    {
      ghost var was := chain;
      assert store.prev == At(was, k - 1) && store.next == At(was, k + 1);
      if store.prev != null {
        store.prev.next := store.next;
        if store.next != null {
          store.next.prev := store.prev;
        }
      } else {
        msgStore := store.next;
        if store.next != null {
          store.next.prev := null;
        }
      }
      chain := was[..k] + was[k + 1..];
      LinkedWithout(was, k, chain);
    }

    /** A new reference. */
    method AddRef(store: Store)
      requires Valid() && store in chain
      modifies this`refs, store`refCount
      ensures Valid() && Abs() == Ref(old(Abs()), store)
    {
      hide Linked;
      store.refCount := store.refCount + 1;
      refs := refs[store := store.refCount];
    }

    /** db__msg_store_remove. */
    method Remove(store: Store)
      requires Valid() && store in chain
      modifies this, chain`prev, chain`next
      ensures Valid() && Abs() == Removed(old(Abs()), store)
      ensures forall s <- chain :: s in old(chain)
    {
      hide Linked, Without;
      ghost var k :| 0 <= k < |chain| && chain[k] == store;
      RemovalFacts(k);
      Unlink(store, k);
      assert chain == Without(old(chain), store);
      msgStoreCount := msgStoreCount - 1;
      msgStoreBytes := msgStoreBytes - store.payloadlen;
      refs := refs - {store};
    }

    lemma RemovalFacts(k: nat)
      requires Linked() && k < |chain|
      ensures Without(chain, chain[k]) == chain[..k] + chain[k + 1..]
      ensures forall s :: s in Without(chain, chain[k]) <==> s in chain && s != chain[k]
    {
      WithoutAt(chain, k);
      MembersWithout(chain, k);
    }

    /** db__msg_store_deref. */
    method DropRef(store: Store)
      requires Valid() && store in chain
      modifies this, chain`prev, chain`next, chain`refCount
      ensures Valid() && Abs() == Deref(old(Abs()), store)
      ensures forall s <- chain :: s in old(chain)
    {
      hide Removed, Linked;
      store.refCount := store.refCount - 1;
      refs := refs[store := store.refCount];
      if store.refCount == 0 {
        Remove(store);
      }
    }
  }

  lemma MembersWithout(chain: seq<Store>, k: nat)
    requires k < |chain| && forall i, j :: 0 <= i < j < |chain| ==> chain[i] != chain[j]
    ensures forall s :: s in chain[..k] + chain[k + 1..] <==> s in chain && s != chain[k]
  {
    var left := chain[..k] + chain[k + 1..];
    forall s ensures s in left <==> s in chain && s != chain[k] {
      if s in chain && s != chain[k] {
        var i :| 0 <= i < |chain| && chain[i] == s;
        assert left[if i < k then i else i - 1] == s;
      }
    }
  }

  lemma {:induction false} WithoutAt(chain: seq<Store>, k: nat)
    requires k < |chain| && forall i, j :: 0 <= i < j < |chain| ==> chain[i] != chain[j]
    ensures Without(chain, chain[k]) == chain[..k] + chain[k + 1..]
  {
    if k > 0 {
      WithoutAt(chain[1..], k - 1);
    }
  }
}
