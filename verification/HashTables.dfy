/** Linear probing with tombstones, in one table. */
module HashTables {
  import opened Common
  import opened Sums

  datatype Key = Empty | Tombstone | Id(id: nat)

  function Weight(k: Key): nat { if k.Empty? then 0 else 1 }

  /** How many slots are not empty. */
  function Used(keys: seq<Key>): nat { Sum(keys, k => Weight(k)) }

  lemma {:induction false} UsedBound(keys: seq<Key>)
    ensures Used(keys) <= |keys|
    ensures Used(keys) < |keys| <==> exists i :: 0 <= i < |keys| && keys[i].Empty?
  {
    if keys != [] {
      var rest := keys[1..];
      UsedBound(rest);
      assert Used(keys) == Weight(keys[0]) + Used(rest);
      if i :| 0 <= i < |rest| && rest[i].Empty? {
        assert keys[i + 1].Empty?;
      }
      if j :| 0 <= j < |keys| && keys[j].Empty? {
        if j > 0 {
          assert rest[j - 1].Empty?;
        }
      }
    }
  }

  lemma UsedUpdate(keys: seq<Key>, s: nat, k: Key)
    requires s < |keys|
    ensures Used(keys[s := k]) + Weight(keys[s]) == Used(keys) + Weight(k)
  {
    SumUpdate(keys, s, k, x => Weight(x));
  }

  /** The ids in a table. */
  function Ids(keys: seq<Key>): (ids: set<nat>)
    ensures forall x :: x in ids <==> Id(x) in keys
  {
    if keys == [] then {} else Ids(keys[1..]) + if keys[0].Id? then {keys[0].id} else {}
  }

  lemma {:induction false} IdsBound(keys: seq<Key>)
    ensures |Ids(keys)| <= Used(keys)
  {
    if keys != [] {
      IdsBound(keys[1..]);
    }
  }

  // ---- probing ----

  /** The slot `k` probes after `home`, by masking. */
  function Probe(home: nat, cap: nat, k: nat): (r: nat)
    requires home < cap && k <= cap
    ensures r < cap
  {
    if home + k < cap then home + k else home + k - cap
  }

  /** Every slot is reached within one round. */
  lemma Reach(home: nat, cap: nat, s: nat) returns (k: nat)
    requires home < cap && s < cap
    ensures k < cap && Probe(home, cap, k) == s
  {
    k := if home <= s then s - home else s + cap - home;
  }

  /** An id is in at most one slot, and on the way there from its home no slot is empty. */
  ghost predicate Found(keys: seq<Key>, home: nat, id: nat, k: nat)
    requires home < |keys|
  {
    && k < |keys| && keys[Probe(home, |keys|, k)] == Id(id)
    && (forall j :: 0 <= j < k ==> !keys[Probe(home, |keys|, j)].Empty?)
    && (forall s :: 0 <= s < |keys| && keys[s] == Id(id) ==> s == Probe(home, |keys|, k))
  }

  /** `hash` may be any function from ids to numbers. */
  function Home(hash: nat -> nat, id: nat, cap: nat): (h: nat)
    requires cap > 0
    ensures h < cap
  {
    hash(id) % cap
  }

  ghost predicate Probed(keys: seq<Key>, hash: nat -> nat) {
    && keys != [] && Used(keys) < |keys|
    && (forall x :: Id(x) in keys ==> exists k :: Found(keys, Home(hash, x, |keys|), x, k))
  }

  /** Beyond the first empty slot an id need not be looked for. */
  lemma NotBeyond(keys: seq<Key>, hash: nat -> nat, id: nat, k: nat)
    requires Probed(keys, hash) && k < |keys| && keys[Probe(Home(hash, id, |keys|), |keys|, k)].Empty?
    requires forall j :: 0 <= j < k ==> keys[Probe(Home(hash, id, |keys|), |keys|, j)] != Id(id)
    ensures Id(id) !in keys
  {
  }

  /** The probing loop of a lookup: it ends because a slot is empty, and it finds the id if it is there. */
  method Find(keys: seq<Key>, hash: nat -> nat, id: nat) returns (slot: Option<nat>)
    requires Probed(keys, hash)
    ensures slot == None <==> Id(id) !in keys
    ensures slot.Some? ==> slot.value < |keys| && keys[slot.value] == Id(id)
  {
    var home := Home(hash, id, |keys|);
    UsedBound(keys);
    ghost var free :| 0 <= free < |keys| && keys[free].Empty?;
    ghost var last := Reach(home, |keys|, free);
    ghost var k := 0;
    var i := home;
    while true
      invariant k <= last && i == Probe(home, |keys|, k)
      invariant forall j :: 0 <= j < k ==> !keys[Probe(home, |keys|, j)].Empty? && keys[Probe(home, |keys|, j)] != Id(id)
      decreases last - k
    {
      if keys[i] == Id(id) {
        return Some(i);
      }
      if keys[i].Empty? {
        NotBeyond(keys, hash, id, k);
        return None;
      }
      i := if i + 1 == |keys| then 0 else i + 1;
      k := k + 1;
    }
  }

  /** The probing loop of an insertion: the first slot on the way that no id occupies. */
  method FreeSlot(keys: seq<Key>, hash: nat -> nat, id: nat) returns (slot: nat, ghost k: nat)
    requires Probed(keys, hash)
    ensures k < |keys| && slot == Probe(Home(hash, id, |keys|), |keys|, k) && !keys[slot].Id?
    ensures forall j :: 0 <= j < k ==> keys[Probe(Home(hash, id, |keys|), |keys|, j)].Id?
  {
    ghost var home := Home(hash, id, |keys|);
    UsedBound(keys);
    ghost var free :| 0 <= free < |keys| && keys[free].Empty?;
    ghost var last := Reach(home, |keys|, free);
    k := 0;
    slot := Home(hash, id, |keys|);
    while keys[slot].Id?
      invariant k <= last && slot == Probe(home, |keys|, k)
      invariant forall j :: 0 <= j < k ==> keys[Probe(home, |keys|, j)].Id?
      decreases last - k
    {
      slot := if slot + 1 == |keys| then 0 else slot + 1;
      k := k + 1;
    }
  }

  /** Putting a new id there keeps every id findable. */
  lemma Inserted(keys: seq<Key>, hash: nat -> nat, id: nat, k: nat)
    requires Probed(keys, hash) && Id(id) !in keys && k < |keys|
    requires var slot := Probe(Home(hash, id, |keys|), |keys|, k);
             !keys[slot].Id? && (keys[slot].Empty? ==> Used(keys) + 1 < |keys|)
    requires forall j :: 0 <= j < k ==> keys[Probe(Home(hash, id, |keys|), |keys|, j)].Id?
    ensures var keys' := keys[Probe(Home(hash, id, |keys|), |keys|, k) := Id(id)];
            Probed(keys', hash) && Used(keys') == Used(keys) + (if keys[Probe(Home(hash, id, |keys|), |keys|, k)].Empty? then 1 else 0)
  {
    var slot := Probe(Home(hash, id, |keys|), |keys|, k);
    var keys' := keys[slot := Id(id)];
    UsedUpdate(keys, slot, Id(id));
    forall x | Id(x) in keys' ensures exists k :: Found(keys', Home(hash, x, |keys|), x, k) {
      if x == id {
        assert Found(keys', Home(hash, id, |keys|), id, k);
      } else {
        assert Id(x) in keys;
        var j :| Found(keys, Home(hash, x, |keys|), x, j);
        assert Found(keys', Home(hash, x, |keys|), x, j);
      }
    }
  }

  /** Burying an id under a tombstone keeps the others findable, and frees no slot. */
  lemma Buried(keys: seq<Key>, hash: nat -> nat, slot: nat)
    requires Probed(keys, hash) && slot < |keys| && keys[slot].Id?
    ensures Probed(keys[slot := Tombstone], hash) && Used(keys[slot := Tombstone]) == Used(keys)
    ensures keys[slot] !in keys[slot := Tombstone]
  {
    var id, keys' := keys[slot].id, keys[slot := Tombstone];
    UsedUpdate(keys, slot, Tombstone);
    assert keys[slot] == Id(id);
    var k :| Found(keys, Home(hash, id, |keys|), id, k);
    forall s | 0 <= s < |keys'| ensures keys'[s] != Id(id) {
    }
    forall x | Id(x) in keys' ensures exists k :: Found(keys', Home(hash, x, |keys|), x, k) {
      assert Id(x) in keys;
      var j :| Found(keys, Home(hash, x, |keys|), x, j);
      assert Found(keys', Home(hash, x, |keys|), x, j);
    }
  }

  /** A table of empty slots. */
  lemma AllEmpty(n: nat, hash: nat -> nat)
    requires n > 0
    ensures Probed(seq(n, _ => Empty), hash) && Used(seq(n, _ => Empty)) == 0
  {
    SumZero(seq(n, _ => Empty), k => Weight(k));
  }
}
