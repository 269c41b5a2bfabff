/** `fetch.py`: the byte-budgeted handoff queue, every critical section one atomic step. */
module HandoffQueue {
  import opened Prelude

  datatype Entry<T> = Entry(item: T, size: nat)

  /** The queue, the threads asleep in `put`, and what the outside holds. A producer that was notified
      but has not run yet is `woken`. */
  datatype Queue<T> = Queue(
    budget: nat,
    items: seq<Entry<T>>,
    current: int,
    closed: bool,
    waiting: set<nat>,
    woken: set<nat>,
    held: seq<Entry<T>>,   // popped, not released
    puts: seq<Entry<T>>,   // everything ever accepted, in order
    gets: seq<Entry<T>>)   // everything ever popped, in order

  datatype Step<T> =
    | Put(producer: nat, entry: Entry<T>)
    | Get
    | Release(index: nat, wake: nat)
    | Close

  datatype PutOutcome = Accepted | Waits | Refused

  datatype GetOutcome<T> = Got(item: T) | Blocks | Drained

  /** A sleeping producer cannot act; a release frees something held and `notify` wakes one sleeper. */
  predicate Enabled<T>(q: Queue<T>, s: Step<T>) {
    match s
    case Put(p, e) => p !in q.waiting
    case Get => true
    case Release(i, wake) => i < |q.held| && (q.waiting == {} || wake in q.waiting)
    case Close => true
  }

  /** The wait condition of `put`. */
  predicate MustWait<T>(q: Queue<T>, size: nat) {
    !q.closed && q.current > 0 && q.current + size > q.budget
  }

  function DoPut<T>(q: Queue<T>, p: nat, e: Entry<T>): Queue<T> {
    var r := q.(woken := q.woken - {p});
    if MustWait(q, e.size) then r.(waiting := r.waiting + {p})
    else if q.closed then r
    else r.(items := r.items + [e], current := r.current + e.size, puts := r.puts + [e])
  }

  function DoGet<T>(q: Queue<T>): Queue<T> {
    if q.items == [] then q
    else q.(items := q.items[1..], held := q.held + [q.items[0]], gets := q.gets + [q.items[0]])
  }

  function DoRelease<T>(q: Queue<T>, i: nat, wake: nat): Queue<T>
    requires i < |q.held|
  {
    q.(current := q.current - q.held[i].size,
       held := q.held[..i] + q.held[i + 1..],
       woken := if wake in q.waiting then q.woken + {wake} else q.woken,
       waiting := q.waiting - {wake})
  }

  function DoClose<T>(q: Queue<T>): Queue<T> { q.(closed := true, waiting := {}, woken := q.woken + q.waiting) }

  function Apply<T>(q: Queue<T>, s: Step<T>): Queue<T>
    requires Enabled(q, s)
  {
    match s
    case Put(p, e) => DoPut(q, p, e)
    case Get => DoGet(q)
    case Release(i, wake) => DoRelease(q, i, wake)
    case Close => DoClose(q)
  }

  // -------------------------------------------------------------- the invariant

  function Total<T>(s: seq<Entry<T>>): nat { if s == [] then 0 else s[0].size + Total(s[1..]) }

  function Positives<T>(s: seq<Entry<T>>): nat {
    if s == [] then 0 else (if s[0].size > 0 then 1 else 0) + Positives(s[1..])
  }

  ghost predicate Good<T>(q: Queue<T>) {
    && q.current == Total(q.items) + Total(q.held)
    && (q.current > q.budget ==> Positives(q.items) + Positives(q.held) == 1)
    && q.gets + q.items == q.puts
    && (q.closed ==> q.waiting == {})
    && (q.waiting != {} ==> q.items != [] || q.held != [] || q.woken != {})
  }

  lemma {:induction false} SumsAppend<T>(a: seq<Entry<T>>, b: seq<Entry<T>>)
    ensures Total(a + b) == Total(a) + Total(b) && Positives(a + b) == Positives(a) + Positives(b)
    decreases |a|
  {
    if a == [] {
      assert a + b == b;
    } else {
      assert (a + b)[1..] == a[1..] + b;
      SumsAppend(a[1..], b);
    }
  }

  lemma {:induction false} NoBytesNoPositives<T>(s: seq<Entry<T>>)
    ensures Total(s) == 0 <==> Positives(s) == 0
  {
    if s != [] {
      NoBytesNoPositives(s[1..]);
    }
  }

  lemma PutKeeps<T>(q: Queue<T>, p: nat, e: Entry<T>)
    requires Good(q) && p !in q.waiting
    ensures Good(DoPut(q, p, e))
  {
    SumsAppend(q.items, [e]);
    NoBytesNoPositives(q.items);
    NoBytesNoPositives(q.held);
    assert q.gets + (q.items + [e]) == q.gets + q.items + [e];
  }

  lemma GetKeeps<T>(q: Queue<T>)
    requires Good(q)
    ensures Good(DoGet(q))
  {
    if q.items != [] {
      SumsAppend(q.held, [q.items[0]]);
      assert q.gets + [q.items[0]] + q.items[1..] == q.gets + q.items;
    }
  }

  lemma ReleaseKeeps<T>(q: Queue<T>, i: nat, wake: nat)
    requires Good(q) && i < |q.held| && (q.waiting == {} || wake in q.waiting)
    ensures Good(DoRelease(q, i, wake))
  {
    var e, left, right := q.held[i], q.held[..i], q.held[i + 1..];
    assert q.held == left + ([e] + right);
    SumsAppend(left, [e] + right);
    SumsAppend([e], right);
    SumsAppend(left, right);
    NoBytesNoPositives(q.items);
    NoBytesNoPositives(left + right);
  }

  /** Every step keeps the invariant. */
  lemma StepKeeps<T>(q: Queue<T>, s: Step<T>)
    requires Good(q) && Enabled(q, s)
    ensures Good(Apply(q, s))
  {
    match s
    case Put(p, e) => PutKeeps(q, p, e);
    case Get => GetKeeps(q);
    case Release(i, wake) => ReleaseKeeps(q, i, wake);
    case Close =>
  }

  predicate EnabledAll<T>(q: Queue<T>, ss: seq<Step<T>>)
    decreases |ss|
  {
    ss == [] || (Enabled(q, ss[0]) && EnabledAll(Apply(q, ss[0]), ss[1..]))
  }

  function ApplyAll<T>(q: Queue<T>, ss: seq<Step<T>>): Queue<T>
    requires EnabledAll(q, ss)
    decreases |ss|
  {
    if ss == [] then q else ApplyAll(Apply(q, ss[0]), ss[1..])
  }

  function Empty<T>(budget: nat): Queue<T> { Queue(budget, [], 0, false, {}, {}, [], [], []) }

  /** In every interleaving: the bytes charged are those queued and held; they exceed the budget only
      while exactly one non-empty item is outstanding; what was popped and what is queued are, in
      order, what was put; and with nobody woken, a sleeping producer waits for an item that is still
      queued or held. */
  lemma {:induction false} EveryInterleaving<T>(q: Queue<T>, ss: seq<Step<T>>)
    requires Good(q) && EnabledAll(q, ss)
    ensures var r := ApplyAll(q, ss);
            && r.current == Total(r.items) + Total(r.held)
            && (r.current > r.budget ==> Positives(r.items + r.held) == 1)
            && r.gets + r.items == r.puts && q.puts <= r.puts && q.gets <= r.gets
            && (r.waiting != {} && r.woken == {} ==> r.items != [] || r.held != [])
    decreases |ss|
  {
    if ss == [] {
      SumsAppend(q.items, q.held);
    } else {
      StepKeeps(q, ss[0]);
      EveryInterleaving(Apply(q, ss[0]), ss[1..]);
    }
  }

  /** After a close nothing more is accepted, and the queued items are still handed out, in order: as
      many gets as there are items empty the queue and none is lost. */
  lemma {:induction false} CloseLosesNothing<T>(q: Queue<T>, ss: seq<Step<T>>)
    requires Good(q) && q.closed && EnabledAll(q, ss)
    ensures var r := ApplyAll(q, ss);
            && Good(r) && r.closed && r.puts == q.puts && r.waiting == {}
            && (r.items == [] ==> r.gets == q.puts)
    decreases |ss|
  {
    if ss != [] {
      StepKeeps(q, ss[0]);
      CloseLosesNothing(Apply(q, ss[0]), ss[1..]);
    }
  }

  // ------------------------------------------------------------------ the object

  class ByteBudgetedQueue<T> {
    const budgetBytes: nat
    var items: seq<Entry<T>>
    var currentBytes: int
    var closed: bool
    var waiting: set<nat>
    var woken: set<nat>
    ghost var held: seq<Entry<T>>
    ghost var puts: seq<Entry<T>>
    ghost var gets: seq<Entry<T>>

    ghost function Value(): Queue<T>
      reads this
    {
      Queue(budgetBytes, items, currentBytes, closed, waiting, woken, held, puts, gets)
    }

    /** A budget that is not positive is a ValueError. */
    constructor (budget: nat)
      requires budget > 0
      ensures Value() == Empty(budget) && Good(Value())
    {
      budgetBytes := budget;
      items, currentBytes, closed, waiting, woken := [], 0, false, {}, {};
      held, puts, gets := [], [], [];
    }

    /** One turn of `put`: woken or new, the producer tests the condition and waits, fails or enqueues. */
    method Put(producer: nat, item: T, size: nat) returns (outcome: PutOutcome)
      requires Good(Value()) && producer !in waiting
      modifies this
      ensures Value() == DoPut(old(Value()), producer, Entry(item, size)) && Good(Value())
      ensures outcome == if MustWait(old(Value()), size) then Waits else if closed then Refused else Accepted
    {
      PutKeeps(Value(), producer, Entry(item, size));
      woken := woken - {producer};
      if !closed && currentBytes > 0 && currentBytes + size > budgetBytes {
        waiting := waiting + {producer};
        return Waits;
      }
      if closed {
        return Refused;
      }
      items := items + [Entry(item, size)];
      puts := puts + [Entry(item, size)];
      currentBytes := currentBytes + size;
      return Accepted;
    }

    /** One turn of `get`. The popped bytes stay charged. */
    method Get() returns (outcome: GetOutcome<T>)
      requires Good(Value())
      modifies this
      ensures Value() == DoGet(old(Value())) && Good(Value())
      ensures outcome == if old(items) != [] then Got(old(items)[0].item) else if closed then Drained else Blocks
    {
      GetKeeps(Value());
      if items == [] {
        return if closed then Drained else Blocks;
      }
      var head := items[0];
      items := items[1..];
      held, gets := held + [head], gets + [head];
      return Got(head.item);
    }

    /** `release` of an item popped earlier, named by the ghost index. */
    method Release(size: nat, wake: nat, ghost i: nat)
      requires Good(Value()) && i < |held| && held[i].size == size && (waiting == {} || wake in waiting)
      modifies this
      ensures Value() == DoRelease(old(Value()), i, wake) && Good(Value())
    {
      ReleaseKeeps(Value(), i, wake);
      currentBytes := currentBytes - size;
      held := held[..i] + held[i + 1..];
      if wake in waiting {
        woken := woken + {wake};
      }
      waiting := waiting - {wake};
    }

    method Close()
      requires Good(Value())
      modifies this
      ensures Value() == DoClose(old(Value())) && Good(Value())
    {
      closed := true;
      woken, waiting := woken + waiting, {};
    }
  }
}
