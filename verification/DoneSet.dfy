/** The ids of finished connections, so that trailing lines do not bring them
    back (internal/sessionasm/sessionasm.go). */
module DoneIds {

  /** A bounded first-in first-out memory of distinct ids, oldest first. */
  function Remember(s: seq<nat>, capacity: nat, id: nat): seq<nat> {
    if id in s then s
    else if |s| < capacity || s == [] then s + [id]
    else s[1..] + [id]
  }

  lemma RememberAdds(s: seq<nat>, capacity: nat, id: nat)
    ensures id in Remember(s, capacity, id) && (set x | x in Remember(s, capacity, id)) <= (set x | x in s) + {id}
    ensures |s| <= capacity && capacity > 0 ==> |Remember(s, capacity, id)| <= capacity
    ensures id !in s && |s| < capacity ==> forall x :: x in s ==> x in Remember(s, capacity, id)
    ensures forall i :: 0 < i < |s| ==> s[i] in Remember(s, capacity, id)
  {
    assert s == [] || s == [s[0]] + s[1..];
  }

  /** The ring read from `pos` on, wrapping around. */
  ghost predicate Rotated(contents: seq<nat>, ring: seq<nat>, pos: nat) {
    && |contents| == |ring|
    && (pos < |ring| || pos == 0)
    && forall i :: 0 <= i < |contents| ==> contents[i] == ring[if pos + i < |ring| then pos + i else pos + i - |ring|]
  }

  lemma Wraps(pos: nat, n: nat)
    requires pos < n
    ensures (pos + 1) % n == if pos + 1 == n then 0 else pos + 1
  {
  }

  lemma RotateOver(contents: seq<nat>, ring: seq<nat>, pos: nat, id: nat)
    requires |ring| > 0 && Rotated(contents, ring, pos)
    ensures contents[0] == ring[pos]
    ensures Rotated(contents[1..] + [id], ring[pos := id], (pos + 1) % |ring|)
  {
    var n, next := |ring|, (pos + 1) % |ring|;
    Wraps(pos, n);
    var s, t := contents[1..] + [id], ring[pos := id];
    forall i | 0 <= i < n ensures s[i] == t[if next + i < n then next + i else next + i - n] {
      if i < n - 1 {
        assert s[i] == contents[i + 1];
      }
    }
  }

  lemma ForgetOldest(contents: seq<nat>, ids: set<nat>, id: nat)
    requires contents != [] && multiset(contents) == multiset(ids) && id !in ids
    ensures multiset(contents[1..] + [id]) == multiset(ids - {contents[0]} + {id})
  {
    assert contents == [contents[0]] + contents[1..];
    assert contents[0] in multiset(contents);
    assert multiset(contents[1..]) == multiset(ids) - multiset{contents[0]};
    assert multiset(ids - {contents[0]}) == multiset(ids) - multiset{contents[0]};
  }

  class DoneSet {
    const capacity: nat
    var ids: set<nat>
    var ring: seq<nat>
    var pos: nat
    /** What is remembered, oldest first. */
    ghost var contents: seq<nat>

    constructor (capacity: int)
      ensures Valid() && contents == [] && this.capacity == if capacity < 1 then 1 else capacity
    {
      this.capacity := if capacity < 1 then 1 else capacity;
      ids, ring, pos, contents := {}, [], 0, [];
    }

    ghost predicate Valid()
      reads this
    {
      && capacity > 0 && |ring| <= capacity
      && (|ring| < capacity ==> pos == 0)
      && Rotated(contents, ring, pos)
      && multiset(contents) == multiset(ids)
    }

    predicate Has(id: nat)
      reads this
      requires Valid()
      ensures Has(id) <==> id in contents
    {
      assert id in contents <==> id in multiset(contents);
      id in ids
    }

    method Add(id: nat)
      requires Valid()
      modifies this
      ensures Valid() && contents == Remember(old(contents), capacity, id)
    {
      assert id in contents <==> id in multiset(contents);
      if id in ids {
        return;
      }
      if |ring| < capacity {
        ring := ring + [id];
        contents := contents + [id];
        ids := ids + {id};
      } else {
        Replace(id);
      }
    }

    /** The full half of add. */
    method Replace(id: nat)
      requires Valid() && |ring| == capacity && id !in ids
      modifies this
      ensures Valid() && contents == old(contents)[1..] + [id]
    {
      RotateOver(contents, ring, pos, id);
      ForgetOldest(contents, ids, id);
      Put(id);
      contents := contents[1..] + [id];
    }

    /** The oldest slot is overwritten. */
    method Put(id: nat)
      requires |ring| == capacity && pos < |ring|
      modifies this`ids, this`ring, this`pos
      ensures ids == old(ids) - {old(ring)[old(pos)]} + {id} && ring == old(ring)[old(pos) := id]
      ensures pos == (old(pos) + 1) % capacity
    {
      ids := ids - {ring[pos]} + {id};
      ring := ring[pos := id];
      pos := (pos + 1) % capacity;
    }

    method Reset()
      requires Valid()
      modifies this
      ensures Valid() && contents == []
    {
      ids, ring, pos, contents := {}, [], 0, [];
    }
  }
}
