/** Which implicit producer belongs to which thread: a chain of hash tables, the newest first, of which
    the older ones are kept because entries move to the newest only when they are looked up. Each call is
    one step. */
module ThreadHash {
  import opened Common
  import opened HashTables

  class HashTable {
    var keys: seq<Key>
    var values: seq<nat>
    const prev: HashTable?

    constructor (capacity: nat, prev: HashTable?)
      ensures keys == seq(capacity, _ => Empty) && |values| == capacity && this.prev == prev
    {
      keys := seq(capacity, _ => Empty);
      values := seq(capacity, _ => 0);
      this.prev := prev;
    }
  }

  // ---- what a table holds ----

  /** Every id in the table is a live one, with its producer. */
  ghost predicate Agrees(keys: seq<Key>, values: seq<nat>, owners: map<nat, nat>) {
    && |values| == |keys|
    && (forall s :: 0 <= s < |keys| && keys[s].Id? ==> keys[s].id in owners && values[s] == owners[keys[s].id])
  }

  ghost predicate TableOk(t: HashTable, hash: nat -> nat, owners: map<nat, nat>)
    reads t
  {
    Probed(t.keys, hash) && Agrees(t.keys, t.values, owners)
  }

  ghost predicate AllTablesOk(tables: seq<HashTable>, hash: nat -> nat, owners: map<nat, nat>)
    reads tables
  {
    forall i :: 0 <= i < |tables| ==> TableOk(tables[i], hash, owners)
  }

  function Nth(tables: seq<HashTable>, i: nat): HashTable? { if i < |tables| then tables[i] else null }

  /** The tables are chained, newest first. */
  ghost predicate Chained(tables: seq<HashTable>) {
    Distinct(tables) && forall i :: 0 <= i < |tables| ==> tables[i].prev == Nth(tables, i + 1)
  }

  ghost predicate Somewhere(tables: seq<HashTable>, id: nat)
    reads tables
  {
    exists i :: 0 <= i < |tables| && Id(id) in tables[i].keys
  }

  /** No two live threads share a producer. */
  predicate Injective(owners: map<nat, nat>) {
    forall x, y :: x in owners && y in owners && owners[x] == owners[y] ==> x == y
  }

  /** The live ids that are not in the newest table. */
  function Missing(owners: map<nat, nat>, keys: seq<Key>): set<nat> { set x | x in owners && Id(x) !in keys }

  /** The count leaves room in the newest table for every live id that is not there yet. */
  predicate Roomy(owners: map<nat, nat>, keys: seq<Key>, count: nat) {
    Used(keys) + |Missing(owners, keys)| <= count && (count == 0 || count < |keys| / 2)
  }

  lemma Subsets(a: set<nat>, b: set<nat>)
    requires a <= b
    ensures |a| <= |b|
  {
    assert b == a + (b - a);
  }

  /** There are no more live ids than the count says. */
  lemma LiveBound(owners: map<nat, nat>, keys: seq<Key>, count: nat)
    requires Roomy(owners, keys, count)
    ensures |owners.Keys| <= count
  {
    var m, ids := Missing(owners, keys), Ids(keys);
    IdsBound(keys);
    Subsets(owners.Keys, m + ids);
    assert |m + ids| <= |m| + |ids|;
  }

  /** Moving a live id into the newest table. */
  lemma MovedIn(owners: map<nat, nat>, keys: seq<Key>, keys': seq<Key>, count: nat, id: nat, slot: nat)
    requires Roomy(owners, keys, count) && id in owners && Id(id) !in keys
    requires slot < |keys| && !keys[slot].Id? && keys' == keys[slot := Id(id)]
    ensures Roomy(owners, keys', count)
  {
    UsedUpdate(keys, slot, Id(id));
    KeysUpdated(keys, slot, id);
    assert Missing(owners, keys') == Missing(owners, keys) - {id};
    assert id in Missing(owners, keys);
  }

  /** Adding a new id; a reused slot has been counted already. */
  lemma AddedNew(owners: map<nat, nat>, keys: seq<Key>, keys': seq<Key>, count: nat, id: nat, slot: nat, p: nat)
    requires Used(keys) + |Missing(owners, keys)| <= count && id !in owners && Id(id) !in keys && count + 1 < |keys| / 2
    requires slot < |keys| && !keys[slot].Id? && keys' == keys[slot := Id(id)]
    ensures Roomy(owners[id := p], keys', if keys[slot].Empty? then count + 1 else count)
  {
    UsedUpdate(keys, slot, Id(id));
    KeysUpdated(keys, slot, id);
    assert Missing(owners[id := p], keys') == Missing(owners, keys);
  }

  lemma KeysUpdated(keys: seq<Key>, slot: nat, id: nat)
    requires slot < |keys| && !keys[slot].Id?
    ensures forall x :: Id(x) in keys[slot := Id(id)] <==> x == id || Id(x) in keys
  {
    var keys' := keys[slot := Id(id)];
    assert keys'[slot] == Id(id);
    forall x | Id(x) in keys ensures Id(x) in keys' {
      var s :| 0 <= s < |keys| && keys[s] == Id(x);
      assert keys'[s] == Id(x);
    }
  }

  /** The slot taken by an id gets its producer. */
  lemma AgreesMore(keys: seq<Key>, values: seq<nat>, owners: map<nat, nat>, slot: nat, id: nat, p: nat)
    requires Agrees(keys, values, owners) && slot < |keys| && (id in owners ==> owners[id] == p)
    ensures Agrees(keys[slot := Id(id)], values[slot := p], owners[id := p])
  {
  }

  lemma AgreesSize(keys: seq<Key>, values: seq<nat>, owners: map<nat, nat>)
    requires Agrees(keys, values, owners)
    ensures |values| == |keys|
  {
  }

  lemma AgreesStill(keys: seq<Key>, values: seq<nat>, owners: map<nat, nat>, id: nat, p: nat)
    requires Agrees(keys, values, owners) && (id in owners ==> owners[id] == p)
    ensures Agrees(keys, values, owners[id := p])
  {
  }

  lemma ValueOf(keys: seq<Key>, values: seq<nat>, owners: map<nat, nat>, slot: nat)
    requires Agrees(keys, values, owners) && slot < |keys| && keys[slot].Id?
    ensures slot < |values| && keys[slot].id in owners && values[slot] == owners[keys[slot].id]
  {
  }

  lemma AllStill(tables: seq<HashTable>, hash: nat -> nat, owners: map<nat, nat>, id: nat, p: nat)
    requires AllTablesOk(tables, hash, owners) && (id in owners ==> owners[id] == p)
    ensures AllTablesOk(tables, hash, owners[id := p])
  {
    forall i | 0 <= i < |tables| ensures TableOk(tables[i], hash, owners[id := p]) {
      assert TableOk(tables[i], hash, owners);
      AgreesStill(tables[i].keys, tables[i].values, owners, id, p);
    }
  }

  /** Taking a slot loses no id. */
  lemma StillThere(keys: seq<Key>, keys': seq<Key>, id: nat, x: nat)
    requires exists slot :: 0 <= slot < |keys| && !keys[slot].Id? && keys' == keys[slot := Id(id)]
    ensures Id(id) in keys' && (Id(x) in keys ==> Id(x) in keys')
  {
    var slot :| 0 <= slot < |keys| && !keys[slot].Id? && keys' == keys[slot := Id(id)];
    KeysUpdated(keys, slot, id);
  }

  lemma NotEmpty(keys: seq<Key>, hash: nat -> nat)
    requires Probed(keys, hash)
    ensures |keys| > 0
  {
  }

  /** In an empty table every live id is missing. */
  lemma NoneIn(n: nat, owners: map<nat, nat>)
    ensures Missing(owners, seq(n, _ => Empty)) == owners.Keys
    ensures forall values: seq<nat> :: |values| == n ==> Agrees(seq(n, _ => Empty), values, owners)
  {
  }

  lemma InFront(t: HashTable, tables: seq<HashTable>)
    requires Chained(tables) && t !in tables && t.prev == Nth(tables, 0)
    ensures Chained([t] + tables)
  {
    var all := [t] + tables;
    forall i | 0 <= i < |all| ensures all[i].prev == Nth(all, i + 1) {
      if i > 0 {
        assert tables[i - 1].prev == Nth(tables, i);
      }
    }
  }

  lemma AllWith(t: HashTable, tables: seq<HashTable>, hash: nat -> nat, owners: map<nat, nat>)
    requires TableOk(t, hash, owners) && AllTablesOk(tables, hash, owners)
    ensures AllTablesOk([t] + tables, hash, owners)
  {
  }

  lemma Further(t: HashTable, tables: seq<HashTable>, x: nat)
    requires Id(x) in t.keys || Somewhere(tables, x)
    ensures Somewhere([t] + tables, x)
  {
    var all := [t] + tables;
    if Id(x) in t.keys {
      assert Id(x) in all[0].keys;
    } else {
      var i :| 0 <= i < |tables| && Id(x) in tables[i].keys;
      assert Id(x) in all[i + 1].keys;
    }
  }

  /** Burying an id in one table; it is no longer live. */
  lemma AgreesLess(keys: seq<Key>, values: seq<nat>, owners: map<nat, nat>, slot: nat, id: nat)
    requires Agrees(keys, values, owners) && slot < |keys| && keys[slot] == Id(id) && Id(id) !in keys[slot := Tombstone]
    ensures Agrees(keys[slot := Tombstone], values, owners - {id})
  {
    var keys' := keys[slot := Tombstone];
    forall s | 0 <= s < |keys'| && keys'[s].Id? ensures keys'[s].id in owners - {id} && values[s] == owners[keys'[s].id] {
      assert keys[s] == keys'[s];
      assert keys'[s] in keys';
    }
  }

  lemma AgreesWithout(keys: seq<Key>, values: seq<nat>, owners: map<nat, nat>, id: nat)
    requires Agrees(keys, values, owners) && Id(id) !in keys
    ensures Agrees(keys, values, owners - {id})
  {
    forall s | 0 <= s < |keys| && keys[s].Id? ensures keys[s].id in owners - {id} {
      assert keys[s] in keys;
    }
  }

  lemma Links(tables: seq<HashTable>, i: nat)
    requires Chained(tables) && i < |tables|
    ensures tables[i].prev == Nth(tables, i + 1)
    ensures forall j :: 0 <= j < |tables| && j != i ==> tables[j] != tables[i]
  {
  }

  lemma AllOfThem(t: HashTable, tables: seq<HashTable>, hash: nat -> nat, owners: map<nat, nat>)
    requires TableOk(t, hash, owners) && AllTablesOk(tables, hash, owners)
    ensures var all := [t] + tables; forall i :: 0 <= i < |all| ==> TableOk(all[i], hash, owners)
  {
  }

  /** Every other id is in the one if it is in the other, and as many slots are not empty. */
  ghost predicate SameBut(keys: seq<Key>, keys': seq<Key>, id: nat) {
    && |keys'| == |keys| && Used(keys') == Used(keys)
    && (forall x :: x != id ==> (Id(x) in keys' <==> Id(x) in keys))
  }

  lemma ExitRoomy(owners: map<nat, nat>, keys: seq<Key>, keys': seq<Key>, count: nat, id: nat)
    requires Roomy(owners, keys, count) && SameBut(keys, keys', id)
    ensures Roomy(owners - {id}, keys', count)
  {
    Subsets(Missing(owners - {id}, keys'), Missing(owners, keys));
  }

  lemma BuriedSame(keys: seq<Key>, slot: nat, id: nat)
    requires slot < |keys| && keys[slot] == Id(id)
    ensures SameBut(keys, keys[slot := Tombstone], id)
  {
    var keys' := keys[slot := Tombstone];
    UsedUpdate(keys, slot, Tombstone);
    forall x | x != id && Id(x) in keys ensures Id(x) in keys' {
      var s :| 0 <= s < |keys| && keys[s] == Id(x);
      assert keys'[s] == Id(x);
    }
  }

  /** Replace an id by a tombstone, if it is there. */
  method Bury(t: HashTable, hash: nat -> nat, id: nat, ghost owners: map<nat, nat>)
    requires TableOk(t, hash, owners)
    modifies t`keys
    ensures TableOk(t, hash, owners - {id}) && SameBut(old(t.keys), t.keys, id)
  {
    hide Agrees, Probed;
    var slot := Find(t.keys, hash, id);
    if slot.Some? {
      Buried(t.keys, hash, slot.value);
      BuriedSame(t.keys, slot.value, id);
      AgreesLess(t.keys, t.values, owners, slot.value, id);
      t.keys := t.keys[slot.value := Tombstone];
    } else {
      AgreesWithout(t.keys, t.values, owners, id);
    }
  }

  // ---- the hash ----

  /** `p` was the latest inactive producer, or it is a new one and there was none. */
  ghost predicate Latest(before: seq<bool>, after: seq<bool>, p: nat) {
    if p < |before| then before[p] && (forall j :: p < j < |before| ==> !before[j]) && after == before[p := false]
    else p == |before| && (forall j :: 0 <= j < |before| ==> !before[j]) && after == before + [false]
  }

  class ThreadMap {
    const hash: nat -> nat
    var main: HashTable                  // implicitProducerHash
    var count: nat                       // implicitProducerHashCount
    var inactive: seq<bool>              // the implicit producers created so far, oldest first

    ghost var older: seq<HashTable>      // the tables before it, newest first
    ghost var owners: map<nat, nat>      // the live ids and their producers

    ghost predicate ProducersOk()
      reads `inactive, `owners
    {
      Injective(owners) && forall x :: x in owners ==> owners[x] < |inactive| && !inactive[owners[x]]
    }

    /** Every live id is in some table, with its producer, and no other id is in any. */
    ghost predicate ChainOk()
      reads `main, `older, `owners, main, older
    {
      && Chained([main] + older) && TableOk(main, hash, owners) && AllTablesOk(older, hash, owners)
      && (forall x :: x in owners ==> Id(x) in main.keys || Somewhere(older, x))
    }

    ghost predicate Valid()
      reads this, main, older
    {
      ProducersOk() && ChainOk() && Roomy(owners, main.keys, count)
    }

    constructor (hash: nat -> nat, capacity: nat)
      requires capacity > 0
      ensures Valid() && owners == map[] && this.hash == hash && fresh(main) && older == []
      ensures |main.keys| == capacity && count == 0 && inactive == []
    {
      this.hash := hash;
      main := new HashTable(capacity, null);
      count, inactive, older, owners := 0, [], [], map[];
      new;
      AllEmpty(capacity, hash);
    }

    /** No producer is waiting to be used again. */
    predicate AllActive()
      reads `inactive
    {
      forall i :: 0 <= i < |inactive| ==> !inactive[i]
    }

    /** recycle_or_create_producer: an inactive producer, latest first, or a new one. */
    method RecycleOrCreate(creates: bool) returns (p: Option<nat>)
      requires ProducersOk()
      modifies `inactive
      ensures ProducersOk()
      ensures p == None <==> !creates && old(AllActive())
      ensures p.Some? ==> p.value < |inactive| && !inactive[p.value] && forall x :: x in owners ==> owners[x] != p.value
      ensures p == None ==> inactive == old(inactive)
      ensures p.Some? ==> Latest(old(inactive), inactive, p.value)
    {
      var i := |inactive| - 1;
      while i >= 0
        invariant -1 <= i < |inactive| && inactive == old(inactive)
        invariant forall j :: i < j < |inactive| ==> !inactive[j]
      {
        if inactive[i] {
          inactive := inactive[i := false];
          return Some(i);
        }
        i := i - 1;
      }
      if !creates {
        return None;
      }
      inactive := inactive + [false];
      return Some(|inactive| - 1);
    }

    /** Look for an id in all tables, newest first. */
    method LookUp(id: nat) returns (value: Option<nat>, hit: HashTable?)
      requires ChainOk()
      ensures value.Some? <==> id in owners
      ensures value.Some? ==> value == Some(owners[id]) && hit != null && (hit == main <==> Id(id) in main.keys)
    {
      hide Agrees, Probed;
      ghost var all := [main] + older;
      var t: HashTable? := main;
      ghost var i := 0;
      while t != null
        invariant i <= |all| && t == Nth(all, i)
        invariant forall j :: 0 <= j < i ==> Id(id) !in all[j].keys
        decreases |all| - i
      {
        assert TableOk(all[i], hash, owners);
        var slot := Find(t.keys, hash, id);
        if slot.Some? {
          ValueOf(t.keys, t.values, owners, slot.value);
          return Some(t.values[slot.value]), t;
        }
        t := t.prev;
        i := i + 1;
      }
      Nowhere(id);
      return None, null;
    }

    lemma Nowhere(id: nat)
      requires ChainOk() && forall j :: 0 <= j < |[main] + older| ==> Id(id) !in ([main] + older)[j].keys
      ensures id !in owners
    {
      assert ([main] + older)[0] == main;
      forall i | 0 <= i < |older| ensures Id(id) !in older[i].keys {
        assert ([main] + older)[i + 1] == older[i];
      }
    }

    /** Put an id that is not there into the newest table. */
    method Insert(id: nat, p: nat) returns (reused: bool)
      requires ChainOk() && Id(id) !in main.keys && Used(main.keys) + 1 < |main.keys|
      requires id in owners ==> owners[id] == p
      modifies main`keys, main`values, `owners
      ensures ChainOk() && owners == old(owners)[id := p]
      ensures exists slot :: 0 <= slot < |old(main.keys)| && !old(main.keys)[slot].Id? && main.keys == old(main.keys)[slot := Id(id)]
                             && (reused <==> old(main.keys)[slot].Tombstone?)
    {
      hide Agrees, Probed, Distinct;
      ghost var keys := main.keys;
      AllStill(older, hash, owners, id, p);
      MainNotOlder();
      reused := PutIn(main, hash, id, p, owners);
      owners := owners[id := p];
      forall x | x in owners ensures Id(x) in main.keys || Somewhere(older, x) {
        StillThere(keys, main.keys, id, x);
      }
    }

    lemma MainNotOlder()
      requires Chained([main] + older)
      ensures main !in older
    {
      DistinctParts([main], older);
    }

    /** The part of an insertion that makes sure that the newest table is less than half full, or will
        not be more: it may put a larger table, empty so far, in front of the chain. */
    method MakeRoom(newCount: nat, allocates: bool) returns (ok: bool)
      requires ChainOk() && newCount > 0 && Roomy(owners, main.keys, newCount - 1)
      modifies `main, `older
      ensures ChainOk() && ok == (newCount < |old(main.keys)| / 2 || allocates)
      ensures Used(main.keys) + |Missing(owners, main.keys)| <= newCount - 1
      ensures ok ==> newCount < |main.keys| / 2
      ensures !ok || newCount < |old(main.keys)| / 2 ==> main == old(main)
      ensures main == old(main) || (fresh(main) && Used(main.keys) == 0 && (|main.keys| == 2 * |old(main.keys)| || |main.keys| / 4 <= newCount))
    {
      hide Agrees, Probed, Used, Missing, Distinct;
      if newCount < |main.keys| / 2 {
        return true;
      }
      assert TableOk(main, hash, owners) && |main.keys| > 0 by { NotEmpty(main.keys, hash); }
      var newCapacity := 2 * |main.keys|;
      while newCount >= newCapacity / 2
        invariant newCapacity > 0 && (newCapacity == 2 * |main.keys| || newCapacity / 4 <= newCount)
        decreases 2 * newCount + 2 - newCapacity
      {
        newCapacity := 2 * newCapacity;
      }
      if !allocates {
        return false;
      }
      LiveBound(owners, main.keys, newCount - 1);
      AllEmpty(newCapacity, hash);
      NoneIn(newCapacity, owners);
      var newHash := new HashTable(newCapacity, main);
      InFront(newHash, [main] + older);
      AllWith(main, older, hash, owners);
      forall x | x in owners ensures Somewhere([main] + older, x) {
        Further(main, older, x);
      }
      older := [main] + older;
      main := newHash;
      return true;
    }

    /** get_or_add_implicit_producer: a live id gets the producer it has, and a new one a producer that no
        live id has. It fails exactly if a larger table or another producer is needed and cannot be had;
        then only a larger table may have joined the chain. */
    method GetOrAdd(id: nat, allocates: bool, creates: bool) returns (p: Option<nat>)
      requires Valid()
      modifies this`main, this`count, this`inactive, this`older, this`owners, main`keys, main`values
      ensures Valid()
      ensures p == None <==> id !in old(owners) && ((old(1 + count >= |main.keys| / 2) && !allocates) || (old(AllActive()) && !creates))
      ensures p == None ==> owners == old(owners) && count == old(count) && inactive == old(inactive)
      ensures p.Some? ==> owners == old(owners)[id := p.value]
      ensures id in old(owners) ==> p == Some(old(owners[id]))
      ensures p.Some? && id !in old(owners) ==> p.value !in old(owners).Values && Latest(old(inactive), inactive, p.value)
      ensures p.Some? ==> Id(id) in main.keys
      ensures id in old(owners) ==> inactive == old(inactive) && count == old(count)
      ensures p.Some? && id !in old(owners) ==>
                count - old(count) == Used(main.keys) - (if main == old(main) then old(Used(main.keys)) else 0)
      ensures main == old(main) || (fresh(main) && old(count + 1 >= |main.keys| / 2))
    {
      hide ChainOk, Roomy, Missing, Used, Injective, AllActive, Latest;
      var value, hit := LookUp(id);
      if value.Some? {
        if hit != main {
          ghost var keys, owners0 := main.keys, owners;
          RoomFor(id);
          var reused := Insert(id, value.value);
          assert owners == owners0;
          StillRoomy(keys, main.keys, id);
          StillThere(keys, main.keys, id, id);
        }
        assert owners == old(owners)[id := value.value];
        return value;
      }
      var newCount := 1 + count;
      count := newCount;
      var ok := MakeRoom(newCount, allocates);
      if !ok {
        count := count - 1;
        return None;
      }
      p := Add(id, creates);
    }

    /** The part of an insertion after there is room: get a producer and take a slot. */
    method Add(id: nat, creates: bool) returns (p: Option<nat>)
      requires ProducersOk() && ChainOk() && id !in owners && 0 < count < |main.keys| / 2
      requires Used(main.keys) + |Missing(owners, main.keys)| <= count - 1
      modifies this`count, this`inactive, this`owners, main`keys, main`values
      ensures Valid()
      ensures p == None <==> !creates && old(AllActive())
      ensures p == None ==> owners == old(owners) && count == old(count) - 1 && inactive == old(inactive)
      ensures p.Some? ==> owners == old(owners)[id := p.value] && p.value !in old(owners).Values && Id(id) in main.keys
      ensures p.Some? ==> count == old(count) - 1 + Used(main.keys) - old(Used(main.keys))
      ensures p.Some? ==> Latest(old(inactive), inactive, p.value)
    {
      hide ChainOk, Missing, Used, AllActive, Latest;
      p := RecycleOrCreate(creates);
      if p == None {
        count := count - 1;
        return;
      }
      ghost var keys, owners0 := main.keys, owners;
      NotIn(id);
      var reused := Insert(id, p.value);
      ghost var slot :| 0 <= slot < |keys| && !keys[slot].Id? && main.keys == keys[slot := Id(id)]
                        && (reused <==> keys[slot].Tombstone?);
      AddedNew(owners0, keys, main.keys, count - 1, id, slot, p.value);
      UsedUpdate(keys, slot, Id(id));
      StillThere(keys, main.keys, id, id);
      if reused {
        count := count - 1;
      }
    }

    lemma NotIn(id: nat)
      requires ChainOk() && id !in owners
      ensures Id(id) !in main.keys
    {
    }

    /** There is room in the newest table for a live id that is not there yet. */
    lemma RoomFor(id: nat)
      requires Valid() && id in owners && Id(id) !in main.keys
      ensures Used(main.keys) + 1 < |main.keys|
    {
      assert id in Missing(owners, main.keys);
    }

    lemma StillRoomy(keys: seq<Key>, keys': seq<Key>, id: nat)
      requires Roomy(owners, keys, count) && id in owners && Id(id) !in keys
      requires exists slot :: 0 <= slot < |keys| && !keys[slot].Id? && keys' == keys[slot := Id(id)]
      ensures Roomy(owners, keys', count)
    {
      var slot :| 0 <= slot < |keys| && !keys[slot].Id? && keys' == keys[slot := Id(id)];
      MovedIn(owners, keys, keys', count, id, slot);
    }

    /** implicit_producer_thread_exited: the id is gone from every table, and its producer can be used
        again. All other live ids keep theirs. */
    method ThreadExited(id: nat, p: nat)
      requires Valid() && id in owners && p == owners[id]
      modifies this`inactive, this`owners, main`keys, older`keys
      ensures Valid() && owners == old(owners) - {id} && inactive == old(inactive)[p := true]
    {
      hide TableOk, Roomy, Chained, AllTablesOk;
      BuryAll(id);
      ExitRoomy(owners, old(main.keys), main.keys, count, id);
      owners := owners - {id};
      inactive := inactive[p := true];
    }

    /** The loop over the tables. */
    method BuryAll(id: nat)
      requires ChainOk()
      modifies main`keys, older`keys
      ensures TableOk(main, hash, owners - {id}) && AllTablesOk(older, hash, owners - {id})
      ensures forall x :: x in owners - {id} ==> Id(x) in main.keys || Somewhere(older, x)
      ensures SameBut(old(main.keys), main.keys, id)
    {
      hide TableOk, Chained;
      ghost var all, gone := [main] + older, owners - {id};
      AllOfThem(main, older, hash, owners);
      var t: HashTable? := main;
      ghost var i := 0;
      while t != null
        invariant i <= |all| && t == Nth(all, i)
        invariant forall j :: 0 <= j < i ==> TableOk(all[j], hash, gone)
        invariant forall j :: i <= j < |all| ==> TableOk(all[j], hash, owners)
        invariant forall j :: 0 <= j < |all| ==> SameBut(old(all[j].keys), all[j].keys, id)
        decreases |all| - i
      {
        Links(all, i);
        Bury(t, hash, id, owners);
        t := t.prev;
        i := i + 1;
      }
      assert SameBut(old(all[0].keys), all[0].keys, id);
      forall x | x in gone ensures Id(x) in main.keys || Somewhere(older, x) {
        if Id(x) !in old(main.keys) {
          assert old(Somewhere(older, x));
          ghost var j :| 0 <= j < |older| && Id(x) in old(older[j].keys);
          assert SameBut(old(all[j + 1].keys), all[j + 1].keys, id);
        }
      }
      forall j | 0 <= j < |older| ensures TableOk(older[j], hash, gone) {
        assert TableOk(all[j + 1], hash, gone);
      }
    }
  }

  /** The table's part of that. */
  method PutIn(t: HashTable, hash: nat -> nat, id: nat, p: nat, ghost owners: map<nat, nat>) returns (reused: bool)
    requires TableOk(t, hash, owners) && Id(id) !in t.keys && Used(t.keys) + 1 < |t.keys| && (id in owners ==> owners[id] == p)
    modifies t`keys, t`values
    ensures TableOk(t, hash, owners[id := p])
    ensures exists slot :: 0 <= slot < |old(t.keys)| && !old(t.keys)[slot].Id? && t.keys == old(t.keys)[slot := Id(id)]
                           && (reused <==> old(t.keys)[slot].Tombstone?)
  {
    hide Agrees, Probed;
    ghost var k;
    var slot;
    slot, k := FreeSlot(t.keys, hash, id);
    Inserted(t.keys, hash, id, k);
    AgreesMore(t.keys, t.values, owners, slot, id, p);
    AgreesSize(t.keys, t.values, owners);
    reused := t.keys[slot].Tombstone?;
    t.keys := t.keys[slot := Id(id)];
    t.values := t.values[slot := p];
  }
}
