/**
  The byte budget that every write queue of a WebSocket server shares: a limit on all queued
  bytes, part of which only high-priority writes may use.
*/
module WriteBudget {
  /** What one queued task has charged to the budget. */
  datatype Charge = Charge(bytes: nat, low: bool)

  /** A limit of zero means no limit, and then nothing is counted. */
  datatype Budget = Budget(maxBytes: int, highReserveBytes: int, queuedBytes: int, lowPriorityBytes: int)

  function NewBudget(maxBytes: int, highReserveBytes: int): Budget {
    var limit := if maxBytes < 0 then 0 else maxBytes;
    var reserve := if highReserveBytes < 0 then 0 else highReserveBytes;
    Budget(limit, if limit > 0 && reserve > limit then limit else reserve, 0, 0)
  }

  /** The number of 0..`limit` nearest to `n`. */
  function Clamped(n: int, limit: nat): (r: nat)
    ensures r <= limit
    ensures 0 <= n <= limit ==> r == n
    ensures n < 0 ==> r == 0
    ensures n > limit ==> r == limit
  {
    if n < 0 then 0 else if n > limit then limit else n
  }

  predicate Admits(b: Budget, c: Charge) {
    || b.maxBytes <= 0
    || c.bytes <= 0
    || (&& c.bytes <= b.maxBytes - b.queuedBytes
        && (c.low ==> c.bytes <= b.maxBytes - b.highReserveBytes - b.lowPriorityBytes))
  }

  function Reserved(b: Budget, c: Charge): Budget {
    if b.maxBytes <= 0 || !Admits(b, c) then b
    else b.(queuedBytes := b.queuedBytes + c.bytes,
            lowPriorityBytes := b.lowPriorityBytes + if c.low then c.bytes else 0)
  }

  function Minus(n: int, bytes: nat): int {
    if bytes >= n then 0 else n - bytes
  }

  function Released(b: Budget, c: Charge): Budget {
    if b.maxBytes <= 0 || c.bytes <= 0 then b
    else b.(queuedBytes := Minus(b.queuedBytes, c.bytes),
            lowPriorityBytes := if c.low then Minus(b.lowPriorityBytes, c.bytes) else b.lowPriorityBytes)
  }

  // --- The ledger of outstanding tasks ---

  function Total(cs: seq<Charge>): nat {
    if cs == [] then 0 else cs[0].bytes + Total(cs[1..])
  }

  function Low(cs: seq<Charge>): nat {
    if cs == [] then 0 else (if cs[0].low then cs[0].bytes else 0) + Low(cs[1..])
  }

  function High(cs: seq<Charge>): nat {
    if cs == [] then 0 else (if cs[0].low then 0 else cs[0].bytes) + High(cs[1..])
  }

  /** The counters are the sums over the outstanding tasks, and within the limits. */
  predicate Balanced(b: Budget, cs: seq<Charge>) {
    && 0 <= b.maxBytes && 0 <= b.highReserveBytes
    && (b.maxBytes == 0 ==> b.queuedBytes == 0 && b.lowPriorityBytes == 0)
    && (b.maxBytes > 0 ==>
          && b.highReserveBytes <= b.maxBytes
          && b.queuedBytes == Total(cs) <= b.maxBytes
          && b.lowPriorityBytes == Low(cs) <= b.maxBytes - b.highReserveBytes)
  }

  lemma {:induction false} Split(cs: seq<Charge>)
    ensures Total(cs) == Low(cs) + High(cs)
  {
    if cs != [] {
      Split(cs[1..]);
    }
  }

  lemma {:induction false} TakeOut(cs: seq<Charge>, i: nat)
    requires i < |cs|
    ensures var rest := cs[..i] + cs[i + 1..];
            && Total(cs) == cs[i].bytes + Total(rest)
            && Low(cs) == (if cs[i].low then cs[i].bytes else 0) + Low(rest)
  {
    var rest := cs[..i] + cs[i + 1..];
    if i == 0 {
      assert rest == cs[1..];
    } else {
      TakeOut(cs[1..], i - 1);
      assert rest[1..] == cs[1..][..i - 1] + cs[1..][i..];
    }
  }

  lemma ReserveBalances(b: Budget, cs: seq<Charge>, c: Charge)
    requires Balanced(b, cs)
    ensures Balanced(Reserved(b, c), if Admits(b, c) then [c] + cs else cs)
  {
    assert ([c] + cs)[1..] == cs;
  }

  /** Releasing what was charged never meets the clamp at zero by more than nothing. */
  lemma ReleaseBalances(b: Budget, cs: seq<Charge>, i: nat)
    requires Balanced(b, cs) && i < |cs|
    ensures Balanced(Released(b, cs[i]), cs[..i] + cs[i + 1..])
  {
    TakeOut(cs, i);
  }

  datatype Step = Write(c: Charge) | Recycle(i: nat)

  datatype Server = Server(budget: Budget, outstanding: seq<Charge>)

  function Next(s: Server, step: Step): Server {
    match step
    case Write(c) => Server(Reserved(s.budget, c), if Admits(s.budget, c) then [c] + s.outstanding else s.outstanding)
    case Recycle(i) =>
      if i >= |s.outstanding| then s
      else Server(Released(s.budget, s.outstanding[i]), s.outstanding[..i] + s.outstanding[i + 1..])
  }

  function Run(maxBytes: int, highReserveBytes: int, steps: seq<Step>): Server {
    if steps == [] then Server(NewBudget(maxBytes, highReserveBytes), [])
    else Next(Run(maxBytes, highReserveBytes, steps[..|steps| - 1]), steps[|steps| - 1])
  }

  /**
    After any writes and recycles, in any order, the books balance; the limit is the one asked
    for, and with a limit the reserve is the one asked for, clamped to the limit.
  */
  lemma {:induction false} BooksBalance(maxBytes: int, highReserveBytes: int, steps: seq<Step>)
    ensures var s := Run(maxBytes, highReserveBytes, steps);
            && Balanced(s.budget, s.outstanding)
            && s.budget.maxBytes == (if maxBytes <= 0 then 0 else maxBytes)
            && (0 < maxBytes ==> s.budget.highReserveBytes == Clamped(highReserveBytes, maxBytes))
            && (s.outstanding == [] ==> s.budget.queuedBytes == 0 && s.budget.lowPriorityBytes == 0)
  {
    if steps != [] {
      BooksBalance(maxBytes, highReserveBytes, steps[..|steps| - 1]);
      var s := Run(maxBytes, highReserveBytes, steps[..|steps| - 1]);
      match steps[|steps| - 1]
      case Write(c) => ReserveBalances(s.budget, s.outstanding, c);
      case Recycle(i) =>
        if i < |s.outstanding| {
          ReleaseBalances(s.budget, s.outstanding, i);
        }
    }
  }

  /**
    With a positive limit, exactly when a write is admitted; in particular a high-priority
    write that fits in the unused reserve always is, whatever the low-priority load.
  */
  lemma AdmissionMeaning(maxBytes: int, highReserveBytes: int, steps: seq<Step>, c: Charge)
    requires 0 < maxBytes
    ensures var s := Run(maxBytes, highReserveBytes, steps);
            && (Admits(s.budget, c) <==>
                  || c.bytes == 0
                  || (&& Total(s.outstanding) + c.bytes <= maxBytes
                      && (c.low ==> Low(s.outstanding) + c.bytes <= maxBytes - Clamped(highReserveBytes, maxBytes))))
            && (!c.low && High(s.outstanding) + c.bytes <= Clamped(highReserveBytes, maxBytes) ==> Admits(s.budget, c))
  {
    BooksBalance(maxBytes, highReserveBytes, steps);
    Split(Run(maxBytes, highReserveBytes, steps).outstanding);
  }

  /** Without a positive limit every write is admitted, after any run, and nothing is counted. */
  lemma NoLimitAdmitsAll(maxBytes: int, highReserveBytes: int, steps: seq<Step>, c: Charge)
    requires maxBytes <= 0
    ensures var s := Run(maxBytes, highReserveBytes, steps);
            && Admits(s.budget, c)
            && s.budget.queuedBytes == 0 && s.budget.lowPriorityBytes == 0
            && Next(s, Write(c)) == s.(outstanding := [c] + s.outstanding)
  {
    BooksBalance(maxBytes, highReserveBytes, steps);
  }

  // --- The budget and the queues of a connection ---

  class WriteQueueBudget {
    const maxBytes: int
    const highReserveBytes: int
    var queuedBytes: int
    var lowPriorityBytes: int

    ghost function View(): Budget
      reads this
    {
      Budget(maxBytes, highReserveBytes, queuedBytes, lowPriorityBytes)
    }

    constructor (maxBytes: int, highReserveBytes: int)
      ensures View() == NewBudget(maxBytes, highReserveBytes) && Balanced(View(), [])
      ensures this.maxBytes == (if maxBytes <= 0 then 0 else maxBytes)
      ensures 0 < maxBytes ==> this.highReserveBytes == Clamped(highReserveBytes, maxBytes)
    {
      var limit, reserve := maxBytes, highReserveBytes;
      if limit < 0 {
        limit := 0;
      }
      if reserve < 0 {
        reserve := 0;
      }
      if limit > 0 && reserve > limit {
        reserve := limit;
      }
      this.maxBytes, this.highReserveBytes := limit, reserve;
      queuedBytes, lowPriorityBytes := 0, 0;
    }

    method Reserve(bytes: nat, lowPriority: bool) returns (ok: bool)
      modifies this
      ensures ok == Admits(old(View()), Charge(bytes, lowPriority))
      ensures View() == Reserved(old(View()), Charge(bytes, lowPriority))
    {
      if maxBytes <= 0 || bytes <= 0 {
        return true;
      }
      if bytes > maxBytes - queuedBytes {
        return false;
      }
      if lowPriority {
        var lowLimit := maxBytes - highReserveBytes;
        if bytes > lowLimit - lowPriorityBytes {
          return false;
        }
      }
      queuedBytes := queuedBytes + bytes;
      if lowPriority {
        lowPriorityBytes := lowPriorityBytes + bytes;
      }
      return true;
    }

    method Release(bytes: nat, lowPriority: bool)
      modifies this
      ensures View() == Released(old(View()), Charge(bytes, lowPriority))
    {
      if maxBytes <= 0 || bytes <= 0 {
        return;
      }
      if bytes >= queuedBytes {
        queuedBytes := 0;
      } else {
        queuedBytes := queuedBytes - bytes;
      }
      if lowPriority {
        if bytes >= lowPriorityBytes {
          lowPriorityBytes := 0;
        } else {
          lowPriorityBytes := lowPriorityBytes - bytes;
        }
      }
    }
  }

  type Bytes = seq<bv8>

  class Task {
    var msg: Bytes
    var queuedBytes: nat
    var lowPriority: bool

    constructor (msg: Bytes, lowPriority: bool)
      ensures this.msg == msg && queuedBytes == |msg| && this.lowPriority == lowPriority
    {
      this.msg, this.queuedBytes, this.lowPriority := msg, |msg|, lowPriority;
    }
  }

  ghost function Charges(queue: seq<Task>): seq<Charge>
    reads queue
  {
    if queue == [] then [] else [Charge(queue[0].queuedBytes, queue[0].lowPriority)] + Charges(queue[1..])
  }

  predicate Distinct(queue: seq<Task>) {
    forall i, j | 0 <= i < j < |queue| :: queue[i] != queue[j]
  }

  class ServerConn {
    const budget: WriteQueueBudget
    var highPriorityQueue: seq<Task>
    var lowPriorityQueue: seq<Task>

    constructor (budget: WriteQueueBudget)
      ensures this.budget == budget && highPriorityQueue == [] && lowPriorityQueue == []
    {
      this.budget, highPriorityQueue, lowPriorityQueue := budget, [], [];
    }

    /** Gives back what `t` charged; the pool may hand it out again. */
    method DoRecycleToPool(t: Task)
      modifies budget, t
      ensures budget.View() == Released(old(budget.View()), Charge(old(t.queuedBytes), old(t.lowPriority)))
      ensures t.msg == [] && t.queuedBytes == 0 && !t.lowPriority
    {
      budget.Release(t.queuedBytes, t.lowPriority);
      t.msg := [];
      t.queuedBytes := 0;
      t.lowPriority := false;
    }

    /**
      Queues a message; `taken` is whether the queue took it before the write timeout.
      `others` are the tasks outstanding on all connections: the budget gains exactly a queued
      task's charge, and a refused or timed-out write leaves it as it was.
    */
    method DoWriteToQueue(low: bool, message: Bytes, taken: bool, ghost others: seq<Charge>) returns (queued: bool)
      requires Balanced(budget.View(), others)
      modifies this, budget
      ensures queued == (Admits(old(budget.View()), Charge(|message|, low)) && taken)
      ensures Balanced(budget.View(), if queued then [Charge(|message|, low)] + others else others)
      ensures budget.View() == if queued then Reserved(old(budget.View()), Charge(|message|, low)) else old(budget.View())
      ensures !queued ==> highPriorityQueue == old(highPriorityQueue) && lowPriorityQueue == old(lowPriorityQueue)
      ensures queued ==>
                var before, after := if low then old(lowPriorityQueue) else old(highPriorityQueue),
                                     if low then lowPriorityQueue else highPriorityQueue;
                && |after| == |before| + 1 && after[..|before|] == before
                && fresh(after[|before|]) && after[|before|].msg == message
                && Charges([after[|before|]]) == [Charge(|message|, low)]
                && (if low then highPriorityQueue == old(highPriorityQueue) else lowPriorityQueue == old(lowPriorityQueue))
    {
      ReserveBalances(budget.View(), others, Charge(|message|, low));
      var admitted := budget.Reserve(|message|, low);
      if !admitted {
        return false;
      }
      var t := new Task(message, low);
      if !taken {
        UndoneByRelease(budget.View(), others, Charge(|message|, low));
        DoRecycleToPool(t);
        return false;
      }
      if low {
        lowPriorityQueue := lowPriorityQueue + [t];
      } else {
        highPriorityQueue := highPriorityQueue + [t];
      }
      return true;
    }

    /** Empties a queue: every task in it gives its charge back, the others keep theirs. */
    method DiscardQueue(queue: seq<Task>, ghost others: seq<Charge>)
      requires Distinct(queue) && Balanced(budget.View(), Charges(queue) + others)
      modifies budget, queue
      ensures Balanced(budget.View(), others)
    {
      var rest := queue;
      while rest != []
        invariant Distinct(rest) && forall t | t in rest :: t in queue
        invariant Balanced(budget.View(), Charges(rest) + others)
        decreases |rest|
      {
        var t := rest[0];
        assert t in rest && t in queue;
        ghost var cs := Charges(rest[1..]) + others;
        assert Charges(rest) + others == [Charge(t.queuedBytes, t.lowPriority)] + cs;
        ReleaseBalances(budget.View(), Charges(rest) + others, 0);
        assert (Charges(rest) + others)[..0] + (Charges(rest) + others)[1..] == cs;
        DoRecycleToPool(t);
        rest := rest[1..];
        assert Charges(rest) + others == cs;
      }
      assert Charges(rest) + others == others;
    }

    method DiscardQueuedTasks(ghost others: seq<Charge>)
      requires Distinct(highPriorityQueue + lowPriorityQueue)
      requires Balanced(budget.View(), Charges(highPriorityQueue) + (Charges(lowPriorityQueue) + others))
      modifies this, budget, highPriorityQueue, lowPriorityQueue
      ensures highPriorityQueue == [] && lowPriorityQueue == []
      ensures Balanced(budget.View(), others)
    {
      var both := highPriorityQueue + lowPriorityQueue;
      assert forall i | 0 <= i < |highPriorityQueue| :: highPriorityQueue[i] == both[i];
      assert forall i | 0 <= i < |lowPriorityQueue| :: lowPriorityQueue[i] == both[|highPriorityQueue| + i];
      DiscardQueue(highPriorityQueue, Charges(lowPriorityQueue) + others);
      highPriorityQueue := [];
      DiscardQueue(lowPriorityQueue, others);
      lowPriorityQueue := [];
    }
  }

  /** A charge that was admitted and given back leaves the budget as it was. */
  lemma UndoneByRelease(b: Budget, others: seq<Charge>, c: Charge)
    requires Balanced(b, [c] + others)
    ensures Balanced(Released(b, c), others)
  {
    assert ([c] + others)[..0] + ([c] + others)[1..] == others;
    ReleaseBalances(b, [c] + others, 0);
  }
}
