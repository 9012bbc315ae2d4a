/** Probe results queued for the server, oldest first, while it may be away
    (cmd/lattice-agent/monitor_results.go). */
module MonitorQueue {

  const QUEUE_MAX := 2000
  const BATCH_MAX := 200
  const FLUSH_BATCHES := 5
  const BATCH_REPROBE := 1_800_000_000_000

  /** A probe result; what it says does not matter here. */
  type Result = string

  datatype Queued = Queued(number: nat, result: Result)

  /** What a request came to. A batch answer lists the results it dropped. */
  datatype Reply = Answered(dropped: nat) | Status(code: int) | NoReply

  /** A request the server was sent, and what it came to. */
  datatype Request = Batch(numbers: set<nat>, reply: Reply) | Single(number: nat, reply: Reply)

  function About(q: Request): set<nat> {
    if q.Batch? then q.numbers else {q.number}
  }

  /** Nothing about these results has to be sent again. A batch answer and a 400
      are final for the batch. A single result is final once it is taken or
      refused, but no reply, a server error, a missing authorization and a rate
      limit say nothing about it. */
  predicate Decides(q: Request) {
    match q.reply
    case Answered(_) => true
    case NoReply => false
    case Status(code) => if q.Batch? then code == 400 else code < 500 && code !in {401, 429}
  }

  /** The results that some request decided. */
  ghost function Decided(asked: seq<Request>): set<nat> {
    if asked == [] then {}
    else Decided(asked[..|asked| - 1]) + if Decides(asked[|asked| - 1]) then About(asked[|asked| - 1]) else {}
  }

  lemma OneMoreDecided(asked: seq<Request>, q: Request)
    ensures Decided(asked + [q]) == if Decides(q) then Decided(asked) + About(q) else Decided(asked)
  {
    assert (asked + [q])[..|asked|] == asked;
  }

  /** The results that count as answered without a request that decided them, or
      the other way round. */
  ghost function Mistaken(answered: set<nat>, asked: seq<Request>): set<nat> {
    set s | s in answered + Decided(asked) && !RightlyAnswered(answered, asked, s)
  }

  ghost predicate RightlyAnswered(answered: set<nat>, asked: seq<Request>, s: nat) {
    s in answered <==> s in Decided(asked)
  }

  lemma OneMoreAnswered(answered: set<nat>, asked: seq<Request>, q: Request)
    requires Mistaken(answered, asked) == {}
    ensures Mistaken(if Decides(q) then answered + About(q) else answered, asked + [q]) == {}
  {
    OneMoreDecided(asked, q);
    NotMistaken(answered, asked);
  }

  lemma NotMistaken(answered: set<nat>, asked: seq<Request>)
    requires Mistaken(answered, asked) == {}
    ensures answered == Decided(asked)
  {
    forall s | s in answered + Decided(asked) ensures s in answered && s in Decided(asked) {
      assert s !in Mistaken(answered, asked);
    }
  }

  /** Every request since went through: it decided its results, or showed that the
      batch route is missing. */
  ghost predicate WentThrough(asked: seq<Request>, from: nat) {
    forall i :: from <= i < |asked| ==> Decides(asked[i]) || (asked[i].Batch? && asked[i].reply == Status(404))
  }

  ghost predicate OnlySingles(asked: seq<Request>, from: nat) {
    forall i :: from <= i < |asked| ==> asked[i].Single?
  }

  /** The newest request is the one that stopped the sending. */
  ghost predicate StoppedBy(asked: seq<Request>, from: nat) {
    && from < |asked| && WentThrough(asked[..|asked| - 1], from)
    && var last := asked[|asked| - 1];
    !Decides(last) && !(last.Batch? && last.reply == Status(404))
  }

  lemma WentOn(asked: seq<Request>, asked': seq<Request>, from: nat)
    requires from <= |asked| && asked <= asked' && WentThrough(asked, from)
    ensures WentThrough(asked', |asked|) ==> WentThrough(asked', from)
    ensures StoppedBy(asked', |asked|) ==> StoppedBy(asked', from)
  {
  }

  function Numbers(batch: seq<Queued>): set<nat> {
    set i | 0 <= i < |batch| :: batch[i].number
  }

  /** The batch holds consecutive results, the first of them after lo. */
  ghost predicate RunAfter(batch: seq<Queued>, lo: nat) {
    forall i :: 0 <= i < |batch| ==> batch[i].number == lo + 1 + i
  }

  /** Results that left the queue, were not answered and are not counted as
      overflow. The queue keeps this empty. */
  ghost function Unaccounted(floor: nat, answered: set<nat>, overflowed: set<nat>): set<nat> {
    set s | 1 <= s <= floor && s !in answered && s !in overflowed
  }

  /** Results that left the queue and that the server did not store. */
  ghost function Lost(floor: nat, stored: set<nat>): set<nat> {
    set s | 1 <= s <= floor && s !in stored
  }

  /** Every lost result is an overflow or was answered without being stored. */
  lemma LostIsCounted(floor: nat, stored: set<nat>, answered: set<nat>, overflowed: set<nat>, counted: nat)
    requires Unaccounted(floor, answered, overflowed) == {} && |answered - stored| <= counted
    ensures |Lost(floor, stored)| <= |overflowed| + counted
  {
    var lost := Lost(floor, stored);
    forall s | s in lost ensures s in (answered - stored) + overflowed {
      assert s !in Unaccounted(floor, answered, overflowed);
    }
    FewerThan(lost, (answered - stored) + overflowed);
    FewerThan((answered - stored) + overflowed - (answered - stored), overflowed);
    assert (answered - stored) + overflowed == (answered - stored) +
      ((answered - stored) + overflowed - (answered - stored));
  }

  lemma {:induction false} FewerThan(a: set<nat>, b: set<nat>)
    requires a <= b
    ensures |a| <= |b|
    decreases a
  {
    if a != {} {
      var x :| x in a;
      FewerThan(a - {x}, b - {x});
    }
  }

  lemma BatchSize(batch: seq<Queued>)
    ensures |Numbers(batch)| <= |batch|
    decreases |batch|
  {
    if batch == [] {
      assert Numbers(batch) == {};
    } else {
      var front := batch[..|batch| - 1];
      BatchSize(front);
      var last := batch[|batch| - 1].number;
      forall s | s in Numbers(batch) ensures s in Numbers(front) + {last} {
        var i :| 0 <= i < |batch| && batch[i].number == s;
        assert i < |front| ==> front[i].number == s;
      }
      FewerThan(Numbers(batch), Numbers(front) + {last});
    }
  }

  /** Where the results went: what the server answered for good, what overflowed,
      what was counted as refused, and what an answered batch still owes the
      count. */
  datatype Account = Account(answered: set<nat>, overflowed: set<nat>, refused: nat, owed: nat)

  datatype Law = AllAccounted | OverflowLeft | DroppedExact | RefusalsCounted

  ghost predicate Kept(law: Law, a: Account, dropped: nat, floor: nat, stored: set<nat>) {
    match law
    case AllAccounted => Unaccounted(floor, a.answered, a.overflowed) == {}
    case OverflowLeft => forall s :: s in a.overflowed ==> s <= floor
    case DroppedExact => dropped == |a.overflowed| + a.refused
    case RefusalsCounted => |a.answered - stored| <= a.refused + a.owed
  }

  ghost function Broken(a: Account, dropped: nat, floor: nat, stored: set<nat>): set<Law> {
    set law: Law | !Kept(law, a, dropped, floor, stored)
  }

  ghost predicate Balanced(a: Account, dropped: nat, floor: nat, stored: set<nat>) {
    Broken(a, dropped, floor, stored) == {}
  }

  lemma BalancedMeans(a: Account, dropped: nat, floor: nat, stored: set<nat>)
    ensures Balanced(a, dropped, floor, stored) <==>
      Kept(AllAccounted, a, dropped, floor, stored) && Kept(OverflowLeft, a, dropped, floor, stored) &&
      Kept(DroppedExact, a, dropped, floor, stored) && Kept(RefusalsCounted, a, dropped, floor, stored)
  {
    forall law: Law ensures law in Broken(a, dropped, floor, stored) <==> !Kept(law, a, dropped, floor, stored) {
    }
  }

  lemma OverflowHasLeft(a: Account, dropped: nat, floor: nat, stored: set<nat>)
    requires Balanced(a, dropped, floor, stored)
    ensures forall s :: s in a.overflowed ==> s <= floor
  {
    BalancedMeans(a, dropped, floor, stored);
  }

  /** The whole promise: every result that left the queue was answered or
      overflowed, and dropped, with what is owed, covers all the server lacks. */
  lemma BalancedCovers(a: Account, dropped: nat, floor: nat, stored: set<nat>)
    requires Balanced(a, dropped, floor, stored)
    ensures forall s :: 1 <= s <= floor ==> s in a.answered || s in a.overflowed
    ensures |a.overflowed| <= dropped && |Lost(floor, stored)| <= dropped + a.owed
  {
    BalancedMeans(a, dropped, floor, stored);
    LostIsCounted(floor, stored, a.answered, a.overflowed, a.refused + a.owed);
    forall s | 1 <= s <= floor ensures s in a.answered || s in a.overflowed {
      assert s !in Unaccounted(floor, a.answered, a.overflowed);
    }
  }

  /** Every reply so far said exactly what was not stored, and no result was
      given up to overflow that the server has or has answered. */
  ghost predicate Exact(a: Account, stored: set<nat>) {
    && |a.answered - stored| == a.refused + a.owed
    && a.overflowed !! a.answered && a.overflowed !! stored
    && forall s :: s in a.answered || s in a.overflowed ==> s >= 1
  }

  /** Every answered result has left the queue: no reply waits to be settled. */
  ghost predicate AllSettled(a: Account, floor: nat) {
    forall s :: s in a.answered ==> s <= floor
  }

  /** With exact replies, all settled, dropped covers what the server lacks if and
      only if nothing is owed: no batch is between being settled and counted. */
  lemma ShortExactlyWhileOwed(a: Account, dropped: nat, floor: nat, stored: set<nat>)
    requires Balanced(a, dropped, floor, stored) && Exact(a, stored) && AllSettled(a, floor)
    ensures |Lost(floor, stored)| == dropped + a.owed
    ensures |Lost(floor, stored)| <= dropped <==> a.owed == 0
  {
    BalancedMeans(a, dropped, floor, stored);
    forall s | 1 <= s <= floor ensures s in a.answered || s in a.overflowed {
      assert s !in Unaccounted(floor, a.answered, a.overflowed);
    }
    assert Lost(floor, stored) == (a.answered - stored) + a.overflowed;
    assert (a.answered - stored) !! a.overflowed;
  }

  lemma NothingExact(stored: set<nat>)
    ensures Exact(Account({}, {}, 0, 0), stored)
  {
    assert {} - stored == {};
  }

  /** An overflow keeps the account exact unless the server has that result, or
      has answered for it, already. */
  lemma OverflowExact(a: Account, stored: set<nat>, number: nat)
    requires Exact(a, stored) && number >= 1 && number !in a.answered && number !in stored
    ensures Exact(a.(overflowed := a.overflowed + {number}), stored)
  {
  }

  /** A reply about results that are all still queued, exactly n of them not
      stored. */
  lemma ReplyExact(a: Account, floor: nat, stored: set<nat>, stored': set<nat>, batch: set<nat>, n: nat)
    requires Exact(a, stored) && AllSettled(a, floor) && forall s :: s in a.overflowed ==> s <= floor
    requires stored <= stored' <= stored + batch && |batch - stored'| == n && forall s :: s in batch ==> floor < s
    ensures Exact(Replied(a, batch, n), stored')
  {
    assert (a.answered + batch) - stored' == (a.answered - stored) + (batch - stored');
    assert (a.answered - stored) !! (batch - stored');
  }

  /** A request without a final reply. */
  lemma StoreExact(a: Account, floor: nat, stored: set<nat>, stored': set<nat>, batch: set<nat>)
    requires Exact(a, stored) && AllSettled(a, floor) && forall s :: s in a.overflowed ==> s <= floor
    requires stored <= stored' <= stored + batch && forall s :: s in batch ==> floor < s
    ensures Exact(a, stored')
  {
    assert a.answered - stored' == a.answered - stored;
  }

  lemma CountExact(a: Account, stored: set<nat>, n: nat)
    requires Exact(a, stored) && n <= a.owed
    ensures Exact(a.(refused := a.refused + n, owed := a.owed - n), stored)
  {
  }

  /** push, with the oldest result falling off. */
  lemma OverflowBalances(a: Account, dropped: nat, floor: nat, stored: set<nat>)
    requires Balanced(a, dropped, floor, stored)
    ensures Balanced(a.(overflowed := a.overflowed + {floor + 1}), dropped + 1, floor + 1, stored)
  {
    var a' := a.(overflowed := a.overflowed + {floor + 1});
    BalancedMeans(a, dropped, floor, stored);
    BalancedMeans(a', dropped + 1, floor + 1, stored);
    forall s | 1 <= s <= floor + 1 ensures s in a'.answered || s in a'.overflowed {
      assert s !in Unaccounted(floor, a.answered, a.overflowed);
    }
  }

  /** settle, of answered results. */
  lemma SettleBalances(a: Account, dropped: nat, floor: nat, stored: set<nat>, number: nat)
    requires Balanced(a, dropped, floor, stored) && number > floor
    requires forall s :: floor < s <= number ==> s in a.answered
    ensures Balanced(a, dropped, number, stored)
  {
    BalancedMeans(a, dropped, floor, stored);
    BalancedMeans(a, dropped, number, stored);
    forall s | 1 <= s <= number ensures s in a.answered || s in a.overflowed {
      assert s !in Unaccounted(floor, a.answered, a.overflowed);
    }
  }

  /** A final answer for a batch, of which at most n were not stored. */
  lemma AnswerBalances(a: Account, dropped: nat, floor: nat, stored: set<nat>, stored': set<nat>, batch: set<nat>,
                       n: nat)
    requires Balanced(a, dropped, floor, stored) && stored <= stored' && |batch - stored'| <= n
    ensures Balanced(a.(answered := a.answered + batch, owed := a.owed + n), dropped, floor, stored')
  {
    var a' := a.(answered := a.answered + batch, owed := a.owed + n);
    BalancedMeans(a, dropped, floor, stored);
    BalancedMeans(a', dropped, floor, stored');
    AnswerCounted(a.answered, batch, stored, stored', a.refused + a.owed, n);
    forall s | 1 <= s <= floor ensures s in a'.answered || s in a'.overflowed {
      assert s !in Unaccounted(floor, a.answered, a.overflowed);
    }
  }

  /** countDropped pays what is owed. */
  lemma CountBalances(a: Account, dropped: nat, floor: nat, stored: set<nat>, n: nat)
    requires Balanced(a, dropped, floor, stored) && n <= a.owed
    ensures Balanced(a.(refused := a.refused + n, owed := a.owed - n), dropped + n, floor, stored)
  {
    BalancedMeans(a, dropped, floor, stored);
    BalancedMeans(a.(refused := a.refused + n, owed := a.owed - n), dropped + n, floor, stored);
  }

  lemma AnswerCounted(answered: set<nat>, batch: set<nat>, stored: set<nat>, stored': set<nat>, counted: nat, n: nat)
    requires |answered - stored| <= counted && stored <= stored' && |batch - stored'| <= n
    ensures |(answered + batch) - stored'| <= counted + n
  {
    FewerThan(answered - stored', answered - stored);
    FewerThan((batch - stored') - (answered - stored'), batch - stored');
    assert (answered + batch) - stored' == (answered - stored') + ((batch - stored') - (answered - stored'));
  }

  /** A request without a final answer may only have stored more. */
  lemma StoreBalances(a: Account, dropped: nat, floor: nat, stored: set<nat>, stored': set<nat>)
    requires Balanced(a, dropped, floor, stored) && stored <= stored'
    ensures Balanced(a, dropped, floor, stored')
  {
    AnswerBalances(a, dropped, floor, stored, stored', {}, 0);
    assert a.answered + {} == a.answered && a.(answered := a.answered, owed := a.owed + 0) == a;
  }

  /** What a final reply adds to the account of a batch. */
  function Replied(a: Account, batch: set<nat>, n: nat): Account {
    a.(answered := a.answered + batch, owed := a.owed + n)
  }

  /** How many results a final reply counts as dropped. */
  function Unstored(r: Reply, batch: seq<Queued>): nat {
    if r.Answered? then r.dropped else |batch|
  }

  lemma EmptyBalances(stored: set<nat>)
    ensures Balanced(Account({}, {}, 0, 0), 0, 0, stored)
  {
    BalancedMeans(Account({}, {}, 0, 0), 0, 0, stored);
    assert {} - stored == {};
  }

  /** The items are the pushed results after the first `floor`, numbered from 1. */
  ghost predicate HoldsAfter(items: seq<Queued>, pushed: seq<Result>, floor: nat) {
    floor + |items| == |pushed| && forall i :: 0 <= i < |items| ==> items[i] == Queued(floor + 1 + i, pushed[floor + i])
  }

  lemma PushHolds(items: seq<Queued>, pushed: seq<Result>, floor: nat, r: Result)
    requires HoldsAfter(items, pushed, floor)
    ensures var longer := items + [Queued(|pushed| + 1, r)];
            HoldsAfter(longer, pushed + [r], floor) && HoldsAfter(longer[1..], pushed + [r], floor + 1)
  {
  }

  lemma RunCovers(batch: seq<Queued>, lo: nat)
    requires RunAfter(batch, lo)
    ensures forall s :: lo < s <= lo + |batch| ==> s in Numbers(batch)
  {
    forall s | lo < s <= lo + |batch| ensures s in Numbers(batch) {
      assert batch[s - lo - 1].number == s;
    }
  }

  lemma OneOrNone(number: nat, stored: set<nat>)
    ensures |{number} - stored| == if number in stored then 0 else 1
  {
    assert {number} - stored == if number in stored then {} else {number};
  }

  /** The control plane. Storing is idempotent, and an answer may get lost. */
  class Server {
    var stored: set<nat>
    /** Every request, in order, with what came back. */
    ghost var asked: seq<Request>

    constructor (stored: set<nat>)
      ensures this.stored == stored && asked == []
    {
      this.stored, asked := stored, [];
    }

    /** A batch answer is final: what it does not list as dropped is stored. Any
        other outcome may still have stored anything of it. */
    method PostBatch(batch: set<nat>) returns (r: Reply)
      modifies this
      ensures old(stored) <= stored <= old(stored) + batch
      ensures r.Answered? ==> |batch - stored| <= r.dropped
      ensures asked == old(asked) + [Batch(batch, r)]
    {
      var kept: set<nat> :| kept <= batch;
      stored := stored + kept;
      r := *;
      if r.Answered? && r.dropped < |batch - stored| {
        r := NoReply;
      }
      asked := asked + [Batch(batch, r)];
    }

    /** A single result that is taken without an error is stored. */
    method PostSingle(number: nat) returns (r: Reply)
      modifies this
      ensures old(stored) <= stored <= old(stored) + {number}
      ensures r.Answered? ==> number in stored
      ensures asked == old(asked) + [Single(number, r)]
    {
      r := *;
      var keep: bool := *;
      if keep || r.Answered? {
        stored := stored + {number};
      }
      asked := asked + [Single(number, r)];
    }
  }

  class Queue {
    const server: Server
    var items: seq<Queued>
    var nextSeq: nat
    var dropped: nat
    var batchOffUntil: int
    /** Everything pushed, how far it is settled, and where it went. */
    ghost var pushed: seq<Result>
    ghost var settledTo: nat
    ghost var account: Account
    /** So far every reply was exact, nothing overflowed while it was on its way,
        and nothing that the server had or had answered. */
    ghost var exact: bool

    constructor (stored: set<nat>)
      ensures Valid() && Idle() && exact && pushed == [] && dropped == 0
      ensures fresh(server) && server.stored == stored
      ensures |items| == 0 && nextSeq == 0 && settledTo == 0
    {
      server := new Server(stored);
      items, nextSeq, dropped, batchOffUntil := [], 0, 0, 0;
      pushed, settledTo, account, exact := [], 0, Account({}, {}, 0, 0), true;
      new;
      EmptyBalances(server.stored);
      NothingExact(server.stored);
    }

    /** The newest result that is no longer queued. */
    ghost function Floor(): nat
      reads this`nextSeq, this`settledTo
    {
      if nextSeq > QUEUE_MAX && settledTo < nextSeq - QUEUE_MAX then nextSeq - QUEUE_MAX else settledTo
    }

    /** The queue holds exactly the results after the last settled one that are
        among the newest QUEUE_MAX: a run of numbers that ends at the newest. */
    ghost predicate Contiguous()
      reads this`items, this`nextSeq, this`settledTo, this`pushed
    {
      nextSeq == |pushed| && settledTo <= nextSeq && HoldsAfter(items, pushed, Floor())
    }

    ghost predicate Valid()
      reads this, server
    {
      && Contiguous() && Balanced(account, dropped, Floor(), server.stored)
      && (exact ==> Exact(account, server.stored))
      && Mistaken(account.answered, server.asked) == {}
    }

    /** Result `number` is queued, as it was pushed. */
    ghost predicate Holds(number: nat)
      reads this`items, this`pushed
    {
      1 <= number <= |pushed| && Queued(number, pushed[number - 1]) in items
    }

    /** A result that no request decided is still queued, unless overflow took it. */
    ghost predicate HoldsUndecided()
      reads this, server
    {
      forall number: nat :: 1 <= number <= nextSeq && number !in account.overflowed ==>
        Holds(number) || number in Decided(server.asked)
    }

    lemma UndecidedStays()
      requires Valid()
      ensures HoldsUndecided()
    {
      NotMistaken(account.answered, server.asked);
      BalancedCovers(account, dropped, Floor(), server.stored);
      forall number: nat | 1 <= number <= nextSeq && number !in account.overflowed
        ensures Holds(number) || number in Decided(server.asked)
      {
        if number > Floor() {
          assert items[number - 1 - Floor()] == Queued(number, pushed[number - 1]);
        }
      }
    }

    /** No reply waits to be settled or counted. */
    ghost predicate Idle()
      reads this
    {
      account.owed == 0 && AllSettled(account, Floor())
    }

    /** What the server lacks of the results that left the queue. */
    ghost function Lacking(): nat
      reads this, server
    {
      |Lost(Floor(), server.stored)|
    }

    /** The server has this result, or has answered for it. */
    ghost predicate Known(number: nat)
      reads this`account, server
    {
      number in account.answered || number in server.stored
    }

    method Push(r: Result)
      requires Valid()
      modifies this`items, this`nextSeq, this`dropped, this`pushed, this`account, this`exact
      ensures Valid() && pushed == old(pushed) + [r] && nextSeq == old(nextSeq) + 1 && Floor() >= old(Floor())
      ensures dropped == old(dropped) + if |old(items)| == QUEUE_MAX then 1 else 0
      ensures account == if |old(items)| == QUEUE_MAX
                         then old(account).(overflowed := old(account).overflowed + {old(Floor()) + 1})
                         else old(account)
      ensures exact == (old(exact) && (|old(items)| == QUEUE_MAX ==> !old(Known(Floor() + 1))))
    {
      ghost var floor := Floor();
      var over := Enqueue(r);
      if over > 0 {
        CountOverflow(over, floor);
      }
    }

    /** One result fell off and is counted. */
    method CountOverflow(over: nat, ghost floor: nat)
      requires over == 1 && Balanced(account, dropped, floor, server.stored)
      requires exact ==> Exact(account, server.stored)
      modifies this`dropped, this`account, this`exact
      ensures Balanced(account, dropped, floor + 1, server.stored) && dropped == old(dropped) + 1
      ensures account == old(account).(overflowed := old(account).overflowed + {floor + 1})
      ensures exact == (old(exact) && !old(Known(floor + 1))) && (exact ==> Exact(account, server.stored))
    {
      OverflowBalances(account, dropped, floor, server.stored);
      NoteOverflow(floor + 1);
      dropped := dropped + over;
    }

    /** The list half of push: how many results fell off. */
    method Enqueue(r: Result) returns (over: nat)
      requires Contiguous()
      modifies this`items, this`nextSeq, this`pushed
      ensures Contiguous() && pushed == old(pushed) + [r] && nextSeq == old(nextSeq) + 1
      ensures over == (if |old(items)| == QUEUE_MAX then 1 else 0) && Floor() == old(Floor()) + over
    {
      PushHolds(items, pushed, Floor(), r);
      nextSeq := nextSeq + 1;
      pushed := pushed + [r];
      items := items + [Queued(nextSeq, r)];
      over := 0;
      if |items| > QUEUE_MAX {
        over := |items| - QUEUE_MAX;
        items := items[over..];
      }
    }

    ghost method NoteOverflow(number: nat)
      requires number >= 1 && (exact ==> Exact(account, server.stored))
      modifies this`account, this`exact
      ensures account == old(account).(overflowed := old(account).overflowed + {number})
      ensures exact == (old(exact) && !old(Known(number))) && (exact ==> Exact(account, server.stored))
    {
      exact := exact && !Known(number);
      if exact {
        OverflowExact(account, server.stored, number);
      }
      account := account.(overflowed := account.overflowed + {number});
    }

    /** Probes push results while a request is on its way. */
    method Others()
      requires Valid()
      modifies this`items, this`nextSeq, this`dropped, this`pushed, this`account, this`exact
      ensures Valid() && Floor() >= old(Floor()) && nextSeq >= old(nextSeq) && OnlyOverflows(old(account), account)
      ensures exact ==> old(exact)
    {
      var n: nat :| true;
      for i := 0 to n
        invariant Valid() && Floor() >= old(Floor()) && nextSeq >= old(nextSeq) && OnlyOverflows(old(account), account)
        invariant exact ==> old(exact)
      {
        var r: Result := *;
        Push(r);
      }
    }

    /** countDropped: n results the server will never store. */
    method CountDropped(n: nat)
      requires Valid() && n <= account.owed
      modifies this`dropped, this`account
      ensures Valid() && dropped == old(dropped) + n
      ensures account == old(account).(refused := old(account).refused + n, owed := old(account).owed - n)
    {
      CountBalances(account, dropped, Floor(), server.stored, n);
      dropped := dropped + n;
      account := account.(refused := account.refused + n, owed := account.owed - n);
    }

    /** head: a copy of up to n of the oldest results. */
    method Head(n: nat) returns (batch: seq<Queued>)
      requires Valid()
      ensures batch <= items && |batch| == (if n > |items| then |items| else n) && RunAfter(batch, Floor())
    {
      var k := if n > |items| then |items| else n;
      batch := items[..k];
    }

    /** settle: everything up to this number leaves the queue, whatever part of
        it overflow took before. */
    method Settle(number: nat)
      requires Valid() && number <= nextSeq && forall s :: Floor() < s <= number ==> s in account.answered
      modifies this`items, this`settledTo
      ensures Valid() && settledTo == (if number > old(settledTo) then number else old(settledTo))
      ensures Floor() == if number > old(Floor()) then number else old(Floor())
    {
      var i := 0;
      while i < |items| && items[i].number <= number
        invariant 0 <= i <= |items| && (i > 0 ==> items[i - 1].number <= number)
      {
        i := i + 1;
      }
      if number > Floor() {
        SettleBalances(account, dropped, Floor(), server.stored, number);
      }
      if i > 0 {
        items := items[i..];
      }
      settledTo := if number > settledTo then number else settledTo;
    }

    /** A final reply about a batch reaches the agent: the account so far, and
        whether it stays exact. */
    ghost method Reply(batch: set<nat>, n: nat, stored: set<nat>)
      requires Contiguous() && Balanced(account, dropped, Floor(), stored) && (exact ==> Exact(account, stored))
      requires AllSettled(account, Floor()) && stored <= server.stored <= stored + batch
      requires |batch - server.stored| <= n && Mistaken(account.answered + batch, server.asked) == {}
      modifies this`account, this`exact
      ensures Valid() && account == Replied(old(account), batch, n)
      ensures exact == (old(exact) && Queues(batch) && |batch - server.stored| == n)
    {
      AnswerBalances(account, dropped, Floor(), stored, server.stored, batch, n);
      OverflowHasLeft(account, dropped, Floor(), stored);
      exact := exact && Queues(batch) && |batch - server.stored| == n;
      if exact {
        ReplyExact(account, Floor(), stored, server.stored, batch, n);
      }
      account := Replied(account, batch, n);
    }

    /** No final reply, and the server may have stored some of it. */
    ghost method Silence(batch: set<nat>, stored: set<nat>)
      requires Contiguous() && Balanced(account, dropped, Floor(), stored) && (exact ==> Exact(account, stored))
      requires AllSettled(account, Floor()) && stored <= server.stored <= stored + batch
      requires Mistaken(account.answered, server.asked) == {}
      modifies this`exact
      ensures Valid() && exact == (old(exact) && Queues(batch))
    {
      StoreBalances(account, dropped, Floor(), stored, server.stored);
      OverflowHasLeft(account, dropped, Floor(), stored);
      exact := exact && Queues(batch);
      if exact {
        StoreExact(account, Floor(), stored, server.stored, batch);
      }
    }

    /** None of these results left the queue yet. */
    ghost predicate Queues(batch: set<nat>)
      reads this`nextSeq, this`settledTo
    {
      forall s :: s in batch ==> s > Floor()
    }

    /** The batch request, and its final answer if it is one. */
    method Request(batch: seq<Queued>) returns (r: Reply)
      requires Valid() && AllSettled(account, Floor())
      modifies this`account, this`exact, server
      ensures Valid()
      ensures account == if Final(r) then Replied(old(account), Numbers(batch), Unstored(r, batch)) else old(account)
      ensures exact == (old(exact) && Queues(Numbers(batch)) &&
                        (Final(r) ==> |Numbers(batch) - server.stored| == Unstored(r, batch)))
      ensures server.asked == old(server.asked) + [Batch(Numbers(batch), r)]
    {
      ghost var stored, asked := server.stored, server.asked;
      r := server.PostBatch(Numbers(batch));
      OneMoreAnswered(account.answered, asked, Batch(Numbers(batch), r));
      if Final(r) {
        BatchSize(batch);
        FewerThan(Numbers(batch) - server.stored, Numbers(batch));
        Reply(Numbers(batch), Unstored(r, batch), stored);
      } else {
        Silence(Numbers(batch), stored);
      }
    }

    /** The first half of sendBatch: a final reply settles the whole batch. What
        it did not store is gone and not counted yet, and while replies are exact
        the count is short by exactly that. */
    method PostAndSettle(batch: seq<Queued>, ghost lo: nat) returns (r: Reply)
      requires Valid() && Idle() && batch != [] && RunAfter(batch, lo) && lo <= Floor()
      requires lo + |batch| <= nextSeq
      modifies this`items, this`nextSeq, this`dropped, this`pushed, this`account, this`exact, this`settledTo, server
      ensures Valid() && AllSettled(account, Floor()) && nextSeq >= old(nextSeq) && Floor() >= old(Floor())
      ensures Final(r) ==> settledTo == (if lo + |batch| > old(settledTo) then lo + |batch| else old(settledTo))
      ensures Final(r) ==> account.answered == old(account).answered + Numbers(batch)
      ensures Final(r) ==> account.refused == old(account).refused && account.owed == Unstored(r, batch)
      ensures !Final(r) ==> settledTo == old(settledTo) && OnlyOverflows(old(account), account)
      ensures exact ==> old(exact) && Lacking() == dropped + account.owed
      ensures server.asked == old(server.asked) + [Batch(Numbers(batch), r)]
    {
      Others();
      r := Request(batch);
      if Final(r) {
        Others();
        RunCovers(batch, lo);
        Settle(batch[|batch| - 1].number);
      }
      if exact {
        ShortExactlyWhileOwed(account, dropped, Floor(), server.stored);
      }
    }

    /** sendBatch. An answer settles the whole batch and counts what it lists as
        dropped; a 400 drops the batch; anything else leaves it queued. */
    method SendBatch(batch: seq<Queued>, ghost lo: nat) returns (r: Reply)
      requires Valid() && Idle() && batch != [] && RunAfter(batch, lo) && lo <= Floor()
      requires lo + |batch| <= nextSeq
      modifies this`items, this`nextSeq, this`dropped, this`pushed, this`account, this`exact, this`settledTo, server
      ensures Valid() && Idle() && batchOffUntil == old(batchOffUntil) && nextSeq >= old(nextSeq)
      ensures Floor() >= old(Floor())
      ensures Final(r) ==> settledTo == (if lo + |batch| > old(settledTo) then lo + |batch| else old(settledTo))
      ensures Final(r) ==> account.answered == old(account).answered + Numbers(batch)
      ensures Final(r) ==>
        account.refused == old(account).refused + if r.Answered? then r.dropped else |batch|
      ensures !Final(r) ==> settledTo == old(settledTo) && OnlyOverflows(old(account), account)
      ensures Final(r) <==> r.Answered? || (r.Status? && r.code == 400)
      ensures server.asked == old(server.asked) + [Batch(Numbers(batch), r)]
      ensures exact ==> old(exact) && Lacking() == dropped
    {
      r := PostAndSettle(batch, lo);
      if Final(r) {
        CountAnswer(Unstored(r, batch));
      }
      CoversWhenIdle();
    }

    /** Results may be pushed before the dropped ones are counted. */
    method CountAnswer(n: nat)
      requires Valid() && account.owed == n && AllSettled(account, Floor())
      modifies this`items, this`nextSeq, this`dropped, this`pushed, this`account, this`exact
      ensures Valid() && Idle() && nextSeq >= old(nextSeq) && Floor() >= old(Floor()) && (exact ==> old(exact))
      ensures account.answered == old(account).answered && account.refused == old(account).refused + n
    {
      Others();
      CountDropped(n);
    }

    /** With nothing owed an exact count is what the server lacks. */
    lemma CoversWhenIdle()
      requires Valid() && Idle()
      ensures exact ==> Lacking() == dropped
    {
      if exact {
        ShortExactlyWhileOwed(account, dropped, Floor(), server.stored);
      }
    }

    /** sendSingles: one request per result; a refusal is final for its result,
        and anything else stops with the rest still queued. */
    method SendSingles(batch: seq<Queued>, ghost lo: nat) returns (ok: bool)
      requires Valid() && Idle() && RunAfter(batch, lo) && lo <= Floor() && lo + |batch| <= nextSeq
      modifies this, server
      ensures Valid() && Idle() && batchOffUntil == old(batchOffUntil) && nextSeq >= old(nextSeq)
      ensures settledTo >= old(settledTo) && (exact ==> old(exact)) && HoldsUndecided()
      ensures ok && batch != [] ==> settledTo >= lo + |batch|
      ensures old(server.asked) <= server.asked && OnlySingles(server.asked, |old(server.asked)|)
      ensures if ok
        then WentThrough(server.asked, |old(server.asked)|) else StoppedBy(server.asked, |old(server.asked)|)
    {
      for i := 0 to |batch|
        invariant Valid() && Idle() && batchOffUntil == old(batchOffUntil) && nextSeq >= old(nextSeq)
        invariant settledTo >= old(settledTo) && (exact ==> old(exact))
        invariant Floor() >= lo + i && (i > 0 ==> settledTo >= lo + i)
        invariant old(server.asked) <= server.asked && WentThrough(server.asked, |old(server.asked)|)
        invariant OnlySingles(server.asked, |old(server.asked)|)
      {
        ghost var asked := server.asked;
        var reply;
        ok, reply := SendSingle(batch[i].number);
        assert server.asked[..|server.asked| - 1] == asked;
        if !ok {
          UndecidedStays();
          return;
        }
      }
      UndecidedStays();
      ok := true;
    }

    /** One result on the single route. */
    method SendSingle(number: nat) returns (final: bool, r: Reply)
      requires Valid() && Idle() && number <= Floor() + 1 && number <= nextSeq
      modifies this`items, this`nextSeq, this`dropped, this`pushed, this`account, this`exact, this`settledTo, server
      ensures Valid() && Idle() && batchOffUntil == old(batchOffUntil) && nextSeq >= old(nextSeq)
      ensures Floor() >= old(Floor())
      ensures final ==>
        && settledTo == (if number > old(settledTo) then number else old(settledTo))
        && account.answered == old(account).answered + {number}
      ensures !final ==> settledTo == old(settledTo) && OnlyOverflows(old(account), account)
      ensures server.asked == old(server.asked) + [Single(number, r)] && final == Decides(Single(number, r))
      ensures exact ==> old(exact) && Lacking() == dropped
    {
      Others();
      final, r := SendNow(number);
      CoversWhenIdle();
    }

    /** The request, and settling its result if that is decided. */
    method SendNow(number: nat) returns (final: bool, r: Reply)
      requires Valid() && Idle() && number <= Floor() + 1 && number <= nextSeq
      modifies this`items, this`nextSeq, this`dropped, this`pushed, this`account, this`exact, this`settledTo, server
      ensures Valid() && Idle() && nextSeq >= old(nextSeq) && Floor() >= old(Floor()) && (exact ==> old(exact))
      ensures final ==>
        && settledTo == (if number > old(settledTo) then number else old(settledTo))
        && account.answered == old(account).answered + {number}
      ensures !final ==> settledTo == old(settledTo) && account == old(account)
      ensures server.asked == old(server.asked) + [Single(number, r)] && final == Decides(Single(number, r))
    {
      final, r := RequestSingle(number);
      if final {
        SettleOne(number);
      }
    }

    /** Results may be pushed before the answered one leaves. */
    method SettleOne(number: nat)
      requires Valid() && account.owed == 0 && number <= Floor() + 1 && number <= nextSeq && number in account.answered
      requires forall s :: s in account.answered && s != number ==> s <= Floor()
      modifies this`items, this`nextSeq, this`dropped, this`pushed, this`account, this`exact, this`settledTo
      ensures Valid() && Idle() && nextSeq >= old(nextSeq) && Floor() >= old(Floor())
      ensures settledTo == (if number > old(settledTo) then number else old(settledTo))
      ensures account.answered == old(account).answered && (exact ==> old(exact))
    {
      Others();
      Settle(number);
    }

    /** The single request: a refusal is counted at once. */
    method RequestSingle(number: nat) returns (final: bool, r: Reply)
      requires Valid() && Idle()
      modifies this`account, this`dropped, this`exact, server
      ensures Valid() && account.owed == 0
      ensures final ==>
        account.answered == old(account).answered + {number} && (number in server.stored || dropped == old(dropped) + 1)
      ensures !final ==> account == old(account)
      ensures account.overflowed == old(account).overflowed
      ensures final <==> r.Answered? || (r.Status? && !(r.code >= 500 || r.code == 401 || r.code == 429))
      ensures dropped == old(dropped) + if final && r.Status? then 1 else 0
      ensures server.asked == old(server.asked) + [Single(number, r)]
      ensures exact == (old(exact) && Queues({number}) &&
                        (final ==> (number in server.stored <==> dropped == old(dropped))))
    {
      final, r := PostOne(number);
      if final && !r.Answered? {
        CountDropped(1);
      }
    }

    /** The request itself, and what its reply owes the count. */
    method PostOne(number: nat) returns (final: bool, r: Reply)
      requires Valid() && Idle()
      modifies this`account, this`exact, server
      ensures Valid() && (final && r.Answered? ==> number in server.stored)
      ensures account == if final then Replied(old(account), {number}, if r.Answered? then 0 else 1) else old(account)
      ensures final <==> r.Answered? || (r.Status? && !(r.code >= 500 || r.code == 401 || r.code == 429))
      ensures server.asked == old(server.asked) + [Single(number, r)]
      ensures exact == (old(exact) && Queues({number}) && (final ==> (number in server.stored <==> r.Answered?)))
    {
      ghost var stored, asked := server.stored, server.asked;
      r := server.PostSingle(number);
      final := r.Answered? || (r.Status? && r.code < 500 && r.code != 401 && r.code != 429);
      OneMoreAnswered(account.answered, asked, Single(number, r));
      OneOrNone(number, server.stored);
      if final {
        Reply({number}, if r.Answered? then 0 else 1, stored);
      } else {
        Silence({number}, stored);
      }
    }

    /** flush: the oldest results go first. It ends with the queue seen empty, with
        a send that did not work, or after five batches. A batch route that is
        missing is left alone for a while. */
    method Flush() returns (ok: bool, ghost sawEmpty: bool, ghost batches: nat)
      requires Valid() && Idle()
      modifies this, server
      ensures Valid() && Idle() && nextSeq >= old(nextSeq)
      ensures ok ==> sawEmpty || batches == FLUSH_BATCHES
      ensures settledTo >= old(settledTo) + batches
      ensures exact ==> old(exact) && Lacking() == dropped
      ensures old(server.asked) <= server.asked && HoldsUndecided()
      ensures if ok
        then WentThrough(server.asked, |old(server.asked)|) else StoppedBy(server.asked, |old(server.asked)|)
    {
      ok, sawEmpty, batches := FlushBatches();
      CoversWhenIdle();
      UndecidedStays();
    }

    /** The loop of flush. */
    method FlushBatches() returns (ok: bool, ghost sawEmpty: bool, ghost batches: nat)
      requires Valid() && Idle()
      modifies this, server
      ensures Valid() && Idle() && nextSeq >= old(nextSeq) && (exact ==> old(exact))
      ensures ok ==> sawEmpty || batches == FLUSH_BATCHES
      ensures settledTo >= old(settledTo) + batches
      ensures old(server.asked) <= server.asked
      ensures if ok
        then WentThrough(server.asked, |old(server.asked)|) else StoppedBy(server.asked, |old(server.asked)|)
    {
      sawEmpty, batches := false, 0;
      for i := 0 to FLUSH_BATCHES
        invariant Valid() && Idle() && nextSeq >= old(nextSeq) && (exact ==> old(exact))
        invariant batches == i && !sawEmpty && settledTo >= old(settledTo) + batches
        invariant old(server.asked) <= server.asked && WentThrough(server.asked, |old(server.asked)|)
      {
        Others();
        var batch := Head(BATCH_MAX);
        if |batch| == 0 {
          return true, true, batches;
        }
        ghost var asked := server.asked;
        var sent, _ := Send(batch, Floor());
        ok := sent;
        WentOn(asked, server.asked, |old(server.asked)|);
        if !ok {
          return;
        }
        batches := batches + 1;
      }
      ok := true;
    }

    /** One turn of flush. */
    method Send(batch: seq<Queued>, ghost lo: nat) returns (ok: bool, ghost now: int)
      requires Valid() && Idle() && batch != [] && RunAfter(batch, lo) && lo == Floor()
      requires lo + |batch| <= nextSeq
      modifies this, server
      ensures Valid() && Idle() && nextSeq >= old(nextSeq) && settledTo >= old(settledTo)
      ensures ok ==> settledTo >= lo + |batch|
      ensures exact ==> old(exact)
      ensures old(server.asked) <= server.asked
      ensures if ok
        then WentThrough(server.asked, |old(server.asked)|) else StoppedBy(server.asked, |old(server.asked)|)
      // A missing batch route is left alone for half an hour, and no longer.
      ensures now < old(batchOffUntil) ==> OnlySingles(server.asked, |old(server.asked)|)
      ensures now >= old(batchOffUntil) ==>
        |server.asked| > |old(server.asked)| && server.asked[|old(server.asked)|].Batch?
      ensures batchOffUntil == if now >= old(batchOffUntil) && server.asked[|old(server.asked)|].reply == Status(404)
                               then now + 1_800_000_000_000 else old(batchOffUntil)
    {
      var clock: int := *;
      now := clock;
      if clock >= batchOffUntil {
        ghost var asked := server.asked;
        var r := SendBatch(batch, lo);
        assert server.asked[..|asked|] == asked;
        if Final(r) {
          return true, now;
        }
        if r != Status(404) {
          return false, now;
        }
        batchOffUntil := clock + BATCH_REPROBE;
      }
      ghost var asked := server.asked;
      ok := SendSingles(batch, lo);
      WentOn(asked, server.asked, |old(server.asked)|);
    }
  }

  /** A queue between settling a batch and counting what the answer dropped: one
      result was pushed, the server refused it, and dropped is still 0. */
  method ShortWhileOwed(r: Result) returns (q: Queue)
    ensures q.Valid() && q.exact && AllSettled(q.account, q.Floor())
    ensures q.account.owed == 1 && q.dropped == 0 && q.Lacking() == 1
  {
    q := WithOneRefused(r);
    q.Settle(q.nextSeq);
    ShortExactlyWhileOwed(q.account, q.dropped, q.Floor(), q.server.stored);
  }

  /** The server answered that it did not store it. */
  method WithOneRefused(r: Result) returns (q: Queue)
    ensures q.Valid() && q.exact && fresh(q) && fresh(q.server) && q.dropped == 0 && q.account.owed == 1
    ensures q.nextSeq == q.Floor() + 1 && q.nextSeq in q.account.answered && AllSettled(q.account, q.nextSeq)
  {
    q := WithOneResult(r);
    ghost var asked, number := q.server.asked, q.nextSeq;
    ghost var refusal := Batch({number}, Answered(1));
    q.server.asked := asked + [refusal];
    OneMoreAnswered(q.account.answered, asked, refusal);
    OneOrNone(number, q.server.stored);
    q.Reply({number}, 1, q.server.stored);
  }

  method WithOneResult(r: Result) returns (q: Queue)
    ensures q.Valid() && q.Idle() && q.exact && fresh(q) && fresh(q.server) && q.dropped == 0
    ensures q.nextSeq == q.Floor() + 1 && q.nextSeq !in q.server.stored
  {
    q := new Queue({});
    q.Push(r);
  }

  /** An answer, or a refusal of the batch as a whole. */
  predicate Final(r: Reply) {
    r.Answered? || r == Status(400)
  }

  /** Pushes change an account only by what overflows. */
  ghost predicate OnlyOverflows(a: Account, a': Account) {
    a'.answered == a.answered && a'.refused == a.refused && a'.owed == a.owed
  }
}
