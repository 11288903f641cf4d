/** The table of active Shared API Key slots (service/provider_key_slots.go) and key choice (service/shared_api_key.go). */
module KeySlots {
  import opened Options

  /** Row ids start at one; zero stands for no key. */
  type KeyId = nat

  type Slots = map<KeyId, nat>

  function Count(active: Slots, k: KeyId): nat { if k in active then active[k] else 0 }

  function Reserved(active: Slots, k: KeyId): Slots { active[k := Count(active, k) + 1] }

  /** Gives one slot back; the entry disappears with its last slot, and an empty key is left alone. */
  function Released(active: Slots, k: KeyId): Slots {
    if Count(active, k) == 0 then active
    else if Count(active, k) == 1 then active - {k}
    else active[k := Count(active, k) - 1]
  }

  /** No entry holds zero slots, so equal counts mean equal tables. */
  ghost predicate Canonical(active: Slots) {
    forall k | k in active :: active[k] > 0
  }

  lemma CountsDetermineSlots(a: Slots, b: Slots)
    requires Canonical(a) && Canonical(b) && forall k :: Count(a, k) == Count(b, k)
    ensures a == b
  {
    forall k ensures k in a <==> k in b {
      assert Count(a, k) == Count(b, k);
    }
    forall k | k in a ensures a[k] == b[k] {
      assert Count(a, k) == Count(b, k);
    }
  }

  lemma ReservedCounts(active: Slots, k: KeyId)
    requires Canonical(active)
    ensures Canonical(Reserved(active, k))
    ensures forall x :: Count(Reserved(active, k), x) == Count(active, x) + if x == k then 1 else 0
  {
  }

  lemma ReleasedCounts(active: Slots, k: KeyId)
    requires Canonical(active)
    ensures Canonical(Released(active, k))
    ensures forall x :: Count(Released(active, k), x) == Count(active, x) - if x == k && Count(active, k) > 0 then 1 else 0
  {
  }

  /** A release undoes a reservation made at any earlier time, whatever was reserved in between. */
  lemma ReleaseUndoesReserve(active: Slots, k: KeyId, other: KeyId)
    requires Canonical(active)
    ensures Released(Reserved(active, k), k) == active
    ensures Released(Reserved(Reserved(active, k), other), k) == Reserved(active, other)
  {
    ReservedCounts(active, k);
    ReservedCounts(Reserved(active, k), other);
    ReservedCounts(active, other);
    ReleasedCounts(Reserved(active, k), k);
    ReleasedCounts(Reserved(Reserved(active, k), other), k);
    CountsDetermineSlots(Released(Reserved(active, k), k), active);
    CountsDetermineSlots(Released(Reserved(Reserved(active, k), other), k), Reserved(active, other));
  }

  class ProviderKeySlotManager {
    const maxSlots: nat
    var active: Slots

    ghost predicate Valid()
      reads this
    {
      Canonical(active) && forall k :: Count(active, k) <= maxSlots
    }

    constructor (maxSlots: nat)
      ensures Valid() && this.maxSlots == maxSlots && active == map[]
    {
      this.maxSlots := maxSlots;
      active := map[];
    }

    predicate Available(k: KeyId)
      reads this
    {
      Count(active, k) < maxSlots
    }

    method Reserve(k: KeyId) returns (ok: bool)
      requires Valid()
      modifies this`active
      ensures Valid()
      ensures ok == (Count(old(active), k) < maxSlots)
      ensures active == if ok then Reserved(old(active), k) else old(active)
    {
      if Count(active, k) >= maxSlots {
        return false;
      }
      ReservedCounts(active, k);
      active := active[k := Count(active, k) + 1];
      return true;
    }

    method Release(k: KeyId)
      requires Valid()
      modifies this`active
      ensures Valid()
      ensures active == Released(old(active), k)
    {
      ReleasedCounts(active, k);
      if k !in active || active[k] == 0 {
        return;
      }
      active := active[k := active[k] - 1];
      if active[k] == 0 {
        active := active - {k};
      }
      assert active == Released(old(active), k);
    }

    /** Any key that is listed, untried and has a free slot; None exactly when there is none. */
    method SelectRandomEligibleKey(keys: seq<KeyId>, tried: set<KeyId>) returns (key: Option<KeyId>)
      ensures key.Some? ==> key.value in keys && key.value !in tried && Available(key.value)
      ensures key.None? <==> forall k | k in keys :: k in tried || !Available(k)
    {
      var candidates: seq<KeyId> := [];
      for i := 0 to |keys|
        invariant forall k :: k in candidates <==> k in keys[..i] && k !in tried && Available(k)
      {
        assert keys[..i + 1] == keys[..i] + [keys[i]];
        if keys[i] !in tried && Available(keys[i]) {
          candidates := candidates + [keys[i]];
        }
      }
      assert keys[..|keys|] == keys;
      if candidates == [] {
        return None;
      }
      assert candidates[0] in candidates;
      var index :| 0 <= index < |candidates|;
      assert candidates[index] in candidates;
      return Some(candidates[index]);
    }
  }
}
