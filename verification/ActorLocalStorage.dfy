/**
 Typed `ActorLocal` slots over type-erased per-actor storage, `hyperactor/src/actor_local.rs`. All slots and all
 storages live in one `Runtime`, so that a contract can say what an operation does to every other slot and actor.

 A key is the address of its allocation: the allocator may hand out any address no live slot holds, including
 one that a dropped key used. Dropping the last slot of a key removes its entries from every storage, and
 dropping a storage drops its entries, as the weak map beneath does.
 */
module ActorLocalStorage {
  import opened Options

  /** A boxed value with the identity of its type. */
  datatype Erased = Erased(ty: nat, payload: int)

  /** `ActorLocal<T>`: the type it was declared with, and its key once used. */
  datatype Slot = Slot(ty: nat, key: Option<nat>)

  /** An entry guard, with the slot it was borrowed from. */
  datatype Entry =
    | Occupied(actor: nat, slot: nat, key: nat)
    | Vacant(actor: nat, slot: nat, key: nat)

  /** `downcast`: `None` is the panic "type mismatch in actor-local storage". */
  function Downcast(v: Erased, ty: nat): Option<int> {
    if v.ty == ty then Some(v.payload) else None
  }

  ghost predicate LiveKey(slots: map<nat, Slot>, k: nat) {
    exists s: nat :: s in slots && slots[s].key == Some(k)
  }

  /** A key some slot still holds afterwards is live afterwards. */
  lemma StaysLive(slots: map<nat, Slot>, slots': map<nat, Slot>, k: nat)
    requires LiveKey(slots, k)
    requires forall s: nat | s in slots && slots[s].key == Some(k) :: s in slots' && slots'[s].key == Some(k)
    ensures LiveKey(slots', k)
  {
    var s: nat :| s in slots && slots[s].key == Some(k);
    assert s in slots' && slots'[s].key == Some(k);
  }

  class Runtime {
    var slots: map<nat, Slot>
    var storages: map<nat, map<nat, Erased>>

    /** Two slots denote the same storage cell: they are one slot, or hold the same key. */
    ghost predicate Shares(a: nat, b: nat)
      reads this
      requires a in slots && b in slots
    {
      a == b || (slots[a].key.Some? && slots[a].key == slots[b].key)
    }

    /** Keys have one type each, and a stored value has a live key of its own type. */
    ghost predicate Valid()
      reads this
    {
      ValidBut(None)
    }

    /** The same, with values of key `gone` still to be removed. */
    ghost predicate ValidBut(gone: Option<nat>)
      reads this
    {
      && (forall a, b | a in slots && b in slots && Shares(a, b) :: slots[a].ty == slots[b].ty)
      && (forall a: nat, k: nat | a in storages && k in storages[a] && gone != Some(k) :: LiveKey(slots, k))
      && (forall a, s | a in storages && s in slots && slots[s].key.Some? && slots[s].key.value in storages[a] ::
            storages[a][slots[s].key.value].ty == slots[s].ty)
    }

    /** The typed map of an actor: what slot `s` holds there. */
    ghost function Lookup(a: nat, s: nat): Option<Erased>
      reads this
      requires a in storages && s in slots
    {
      if slots[s].key.Some? && slots[s].key.value in storages[a] then Some(storages[a][slots[s].key.value]) else None
    }

    /** The guard is for a live slot and storage and still describes them. */
    ghost predicate Guards(e: Entry)
      reads this
    {
      && e.actor in storages && e.slot in slots && slots[e.slot].key == Some(e.key)
      && (e.Occupied? <==> e.key in storages[e.actor])
    }

    constructor ()
      ensures Valid() && slots == map[] && storages == map[]
    {
      slots, storages := map[], map[];
    }

    // -------------------------------------------------------------------------------------------
    // Slots and storages come and go
    // -------------------------------------------------------------------------------------------

    /** `ActorLocal::new`: shares with no other slot and is empty for every actor. */
    method NewSlot(s: nat, ty: nat)
      requires Valid() && s !in slots
      modifies this`slots
      ensures Valid() && slots == old(slots)[s := Slot(ty, None)]
      ensures forall t | t in slots && t != s :: !Shares(s, t)
      ensures forall a | a in storages :: Lookup(a, s) == None
    {
      slots := slots[s := Slot(ty, None)];
      forall k: nat | LiveKey(old(slots), k) ensures LiveKey(slots, k) { StaysLive(old(slots), slots, k); }
    }

    /** `Clone for ActorLocal`: shares the slot exactly when its key had been initialised. */
    method CloneSlot(s: nat, from: nat)
      requires Valid() && s !in slots && from in slots
      modifies this`slots
      ensures Valid() && slots == old(slots)[s := old(slots)[from]]
      ensures Shares(s, from) <==> old(slots)[from].key.Some?
      ensures forall a | a in storages :: Lookup(a, s) == Lookup(a, from)
    {
      slots := slots[s := slots[from]];
      forall k: nat | LiveKey(old(slots), k) ensures LiveKey(slots, k) { StaysLive(old(slots), slots, k); }
    }

    method NewStorage(a: nat)
      requires Valid() && a !in storages
      modifies this`storages
      ensures Valid() && storages == old(storages)[a := map[]]
      ensures forall s | s in slots :: Lookup(a, s) == None
    {
      storages := storages[a := map[]];
    }

    /** Dropping a storage leaves every other actor's values alone. */
    method DropStorage(a: nat)
      requires Valid() && a in storages
      modifies this`storages
      ensures Valid() && storages == old(storages) - {a}
    {
      storages := storages - {a};
    }

    /** Dropping a slot drops its values exactly when no other slot shares it; no other slot notices. */
    method DropSlot(s: nat)
      requires Valid() && s in slots
      modifies this
      ensures Valid() && slots == old(slots) - {s} && storages.Keys == old(storages).Keys
      ensures forall a, t | a in storages && t in slots :: Lookup(a, t) == old(Lookup(a, t))
      ensures var k := old(slots)[s].key;
              k.Some? && !LiveKey(slots, k.value) ==> forall a | a in storages :: k.value !in storages[a]
    {
      var k := slots[s].key;
      slots := slots - {s};
      forall k': nat | LiveKey(old(slots), k') && k != Some(k') ensures LiveKey(slots, k') {
        StaysLive(old(slots), slots, k');
      }
      if k.Some? {
        if t :| t in slots && slots[t].key == k {
          assert LiveKey(slots, k.value);
        } else {
          Forget(k.value);
        }
      }
    }

    /** `Drop for WeakKeyInner`: the entries of a key that no slot holds any more go away. */
    method Forget(k: nat)
      requires ValidBut(Some(k)) && !LiveKey(slots, k)
      modifies this`storages
      ensures Valid() && storages == map a | a in old(storages) :: old(storages)[a] - {k}
    {
      storages := map a | a in storages :: storages[a] - {k};
    }

    // -------------------------------------------------------------------------------------------
    // Entries
    // -------------------------------------------------------------------------------------------

    /** `ActorLocal::entry`, initialising the key with the address `alloc` on first use. */
    method GetEntry(a: nat, s: nat, alloc: nat) returns (e: Entry)
      requires Valid() && a in storages && s in slots && !LiveKey(slots, alloc)
      modifies this`slots
      ensures Valid() && Guards(e) && e.actor == a && e.slot == s
      ensures e.Occupied? <==> old(Lookup(a, s)).Some?
      ensures slots.Keys == old(slots).Keys
      ensures forall t | t in slots ::
              slots[t] == if t == s && old(slots)[s].key.None? then old(slots)[s].(key := Some(alloc))
                  else old(slots)[t]
      ensures forall t, u | t in slots && u in slots :: Shares(t, u) == old(Shares(t, u))
      ensures forall b, t | b in storages && t in slots :: Lookup(b, t) == old(Lookup(b, t))
    {
      assert forall b: nat | b in storages :: alloc !in storages[b];
      if slots[s].key.None? {
        slots := slots[s := slots[s].(key := Some(alloc))];
        forall k: nat | LiveKey(old(slots), k) ensures LiveKey(slots, k) { StaysLive(old(slots), slots, k); }
        assert forall t | t in old(slots) :: old(slots)[t].key != Some(alloc);
      }
      var key := slots[s].key.value;
      e := if key in storages[a] then Occupied(a, s, key) else Vacant(a, s, key);
    }

    /** Store `v` at the guarded cell. */
    method Put(e: Entry, v: Erased)
      requires Valid() && Guards(e) && v.ty == slots[e.slot].ty
      modifies this`storages
      ensures Valid() && storages.Keys == old(storages).Keys && Guards(Occupied(e.actor, e.slot, e.key))
      ensures forall b, t | b in storages && t in slots ::
                Lookup(b, t) == if b == e.actor && Shares(t, e.slot) then Some(v) else old(Lookup(b, t))
    {
      var cells: map<nat, Erased> := storages[e.actor][e.key := v];
      storages := storages[e.actor := cells];
      assert LiveKey(slots, e.key);
      forall a, s | a in storages && s in slots && slots[s].key.Some? && slots[s].key.value in storages[a]
        ensures storages[a][slots[s].key.value].ty == slots[s].ty
      {
        assert slots[s].key == Some(e.key) ==> Shares(s, e.slot);
      }
    }

    /** `OccupiedEntry::get`: never a type mismatch. */
    method Get(e: Entry) returns (v: Option<int>)
      requires Valid() && Guards(e) && e.Occupied?
      ensures v.Some? && Lookup(e.actor, e.slot) == Some(Erased(slots[e.slot].ty, v.value))
    {
      v := Downcast(storages[e.actor][e.key], slots[e.slot].ty);
    }

    /** `VacantEntry::insert`. */
    method InsertVacant(e: Entry, value: int) returns (o: Entry)
      requires Valid() && Guards(e) && e.Vacant?
      modifies this`storages
      ensures Valid() && Guards(o) && o == Occupied(e.actor, e.slot, e.key) && storages.Keys == old(storages).Keys
      ensures forall b, t | b in storages && t in slots ::
                Lookup(b, t) == if b == e.actor && Shares(t, e.slot) then Some(Erased(slots[e.slot].ty, value))
                    else old(Lookup(b, t))
    {
      Put(e, Erased(slots[e.slot].ty, value));
      o := Occupied(e.actor, e.slot, e.key);
    }

    /** `OccupiedEntry::insert`: returns the old value, never a type mismatch. */
    method InsertOccupied(e: Entry, value: int) returns (was: Option<int>)
      requires Valid() && Guards(e) && e.Occupied?
      modifies this`storages
      ensures Valid() && Guards(e) && storages.Keys == old(storages).Keys
      ensures was.Some? && old(Lookup(e.actor, e.slot)) == Some(Erased(slots[e.slot].ty, was.value))
      ensures forall b, t | b in storages && t in slots ::
                Lookup(b, t) == if b == e.actor && Shares(t, e.slot) then Some(Erased(slots[e.slot].ty, value))
                    else old(Lookup(b, t))
    {
      was := Get(e);
      Put(e, Erased(slots[e.slot].ty, value));
    }

    /** `Entry::and_modify`: applies `f` to a present value, leaves a vacant entry alone. */
    method AndModify(e: Entry, f: int -> int)
      requires Valid() && Guards(e)
      modifies this`storages
      ensures Valid() && Guards(e) && storages.Keys == old(storages).Keys
      ensures forall b, t | b in storages && t in slots ::
                Lookup(b, t) ==
                var was := old(Lookup(b, t));
                if b == e.actor && Shares(t, e.slot) && was.Some?
                then Some(was.value.(payload := f(was.value.payload)))
                else was
    {
      if e.Occupied? {
        var v := Get(e);
        Put(e, Erased(slots[e.slot].ty, f(v.value)));
      }
    }

    /** `Entry::or_insert`: keeps a present value, stores the default in a vacant entry. */
    method OrInsert(e: Entry, value: int) returns (o: Entry)
      requires Valid() && Guards(e)
      modifies this`storages
      ensures Valid() && Guards(o) && o == Occupied(e.actor, e.slot, e.key) && storages.Keys == old(storages).Keys
      ensures forall b, t | b in storages && t in slots ::
                Lookup(b, t) ==
                var was := old(Lookup(b, t));
                if b == e.actor && Shares(t, e.slot) && was.None? then Some(Erased(slots[e.slot].ty, value)) else was
    {
      if e.Occupied? {
        o := e;
      } else {
        o := InsertVacant(e, value);
      }
    }

    /** `OccupiedEntry::remove`: returns the value, never a type mismatch. */
    method Remove(e: Entry) returns (v: Option<int>)
      requires Valid() && Guards(e) && e.Occupied?
      modifies this`storages
      ensures Valid() && storages.Keys == old(storages).Keys
      ensures v.Some? && old(Lookup(e.actor, e.slot)) == Some(Erased(slots[e.slot].ty, v.value))
      ensures forall b, t | b in storages && t in slots ::
                Lookup(b, t) == if b == e.actor && Shares(t, e.slot) then None else old(Lookup(b, t))
    {
      v := Get(e);
      storages := storages[e.actor := storages[e.actor] - {e.key}];
    }
  }

  /** A clone taken before the first use never shares with its original, whatever addresses the two keys get. */
  method CloneBeforeUse(r: Runtime, actor: nat, s: nat, clone: nat, a1: nat, a2: nat, value: int)
    requires r.Valid() && actor in r.storages && s in r.slots && clone !in r.slots && r.slots[s].key.None?
    requires a1 != a2 && !LiveKey(r.slots, a1) && !LiveKey(r.slots, a2)
    modifies r
    ensures r.Valid() && s in r.slots && clone in r.slots && actor in r.storages
    ensures !r.Shares(s, clone) && r.Lookup(actor, s) == Some(Erased(r.slots[s].ty, value))
    ensures r.Lookup(actor, clone) == None
  {
    r.CloneSlot(clone, s);
    var e := r.GetEntry(actor, s, a1);
    var o := r.OrInsert(e, value);
    assert !LiveKey(r.slots, a2);
    var f := r.GetEntry(actor, clone, a2);
  }
}
