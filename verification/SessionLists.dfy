/** What a pass over the connections does to the list of creation order and to
    the memory of finished ids (internal/sessionasm/sessionasm.go). */
module SessionLists {
  import opened DoneIds

  /** The list without this id. */
  function Without(order: seq<nat>, id: nat): seq<nat> {
    if order == [] then [] else if order[0] == id then order[1..] else [order[0]] + Without(order[1..], id)
  }

  lemma {:induction false} WithoutAt(order: seq<nat>, i: nat)
    requires i < |order| && order[i] !in order[..i]
    ensures Without(order, order[i]) == order[..i] + order[i + 1..]
  {
    if i > 0 {
      assert order[0] in order[..i];
      assert order[1..][..i - 1] == order[..i][1..];
      WithoutAt(order[1..], i - 1);
    }
  }

  /** The ids of the list that are still open, in the same order. */
  ghost function Only(ids: seq<nat>, open: set<nat>): seq<nat> {
    if ids == [] then []
    else Only(ids[..|ids| - 1], open) + if ids[|ids| - 1] in open then [ids[|ids| - 1]] else []
  }

  /** The ids of the list that are not, in the same order. */
  ghost function Gone(ids: seq<nat>, open: set<nat>): seq<nat> {
    if ids == [] then []
    else Gone(ids[..|ids| - 1], open) + if ids[|ids| - 1] in open then [] else [ids[|ids| - 1]]
  }

  /** Remembering some ids, one after the other. */
  ghost function RememberAll(done: seq<nat>, capacity: nat, ids: seq<nat>): seq<nat> {
    if ids == [] then done
    else Remember(RememberAll(done, capacity, ids[..|ids| - 1]), capacity, ids[|ids| - 1])
  }

  /** The first i ids have been passed: those not left open are out of the list
      and remembered, in order. */
  ghost predicate PassedBy(todo: seq<nat>, open: set<nat>, was: seq<nat>, capacity: nat, i: nat,
                           order: seq<nat>, done: seq<nat>)
    requires i <= |todo|
  {
    order == Only(todo[..i], open) + todo[i..] && done == RememberAll(was, capacity, Gone(todo[..i], open))
  }

  lemma {:induction false} OnlyAmong(ids: seq<nat>, open: set<nat>, x: nat)
    requires x !in ids
    ensures x !in Only(ids, open)
  {
    if ids != [] {
      OnlyAmong(ids[..|ids| - 1], open, x);
    }
  }

  lemma OneMorePassed(todo: seq<nat>, open: set<nat>, was: seq<nat>, capacity: nat, i: nat,
                      order: seq<nat>, done: seq<nat>)
    requires i < |todo| && todo[i] !in todo[..i] && PassedBy(todo, open, was, capacity, i, order, done)
    ensures todo[i] in open ==> PassedBy(todo, open, was, capacity, i + 1, order, done)
    ensures todo[i] !in open ==>
      PassedBy(todo, open, was, capacity, i + 1, Without(order, todo[i]), Remember(done, capacity, todo[i]))
  {
    var x, front := todo[i], Only(todo[..i], open);
    assert todo[..i + 1][..i] == todo[..i];
    if x in open {
      assert front + [x] + todo[i + 1..] == front + todo[i..];
      assert Gone(todo[..i], open) + [] == Gone(todo[..i], open);
    } else {
      OnlyAmong(todo[..i], open, x);
      WithoutAt(order, |front|);
      assert order[..|front|] == front && order[|front| + 1..] == todo[i + 1..];
      assert front + [] == front;
      var gone := Gone(todo[..i], open);
      assert (gone + [x])[..|gone|] == gone;
    }
  }

  lemma AllPassed(todo: seq<nat>, open: set<nat>, was: seq<nat>, capacity: nat, order: seq<nat>, done: seq<nat>)
    requires PassedBy(todo, open, was, capacity, |todo|, order, done)
    ensures order == Only(todo, open) && done == RememberAll(was, capacity, Gone(todo, open))
  {
    assert todo[..|todo|] == todo && Only(todo, open) + [] == Only(todo, open);
  }
}
