/** Task queue and dead-letter queue, and how a delivery leaves the worker. */
module Messages {
  import opened Wrappers
  import opened Model

  // ---- Retry header ----------------------------------------------------------------------------

  const TWO31 := 0x8000_0000
  const TWO32 := 0x1_0000_0000
  const TWO63 := 0x8000_0000_0000_0000
  const TWO64 := 0x1_0000_0000_0000_0000

  type Int64 = n: int | -TWO63 <= n < TWO63
  type Int32 = n: int | -TWO31 <= n < TWO31
  type Uint32 = n: int | 0 <= n < TWO32
  type Uint64 = n: int | 0 <= n < TWO64

  /** Header values as the broker may return them. */
  datatype HeaderValue =
    | IntHeader(n: Int64) | Int32Header(n32: Int32) | Int64Header(n64: Int64)
    | Uint32Header(u32: Uint32) | Uint64Header(u64: Uint64)
    | FloatHeader(x: real) | OtherHeader

  type Headers = map<string, HeaderValue>

  const RETRY_HEADER := "x-caspercloud-retry"
  const REASON_HEADER := "x-caspercloud-dlq-reason"
  const MAX_CONSECUTIVE_FAILURES := 3

  /** Conversion to a signed 64-bit number drops the fraction towards zero. */
  function Truncated(x: real): int {
    if x >= 0.0 then x.Floor else -((-x).Floor)
  }

  /** Number of earlier failures written on a message; 0 when absent or unreadable. */
  function RetryCount(h: Headers): int {
    if RETRY_HEADER !in h then 0
    else
      match h[RETRY_HEADER]
      case IntHeader(n) => n
      case Int32Header(n) => n
      case Int64Header(n) => n
      case Uint32Header(n) => n
      case Uint64Header(n) => if n < TWO63 then n else n - TWO64
      case FloatHeader(x) => Truncated(x)
      case OtherHeader => 0
  }

  /** 32-bit conversion of a count. */
  function ToInt32(n: int): Int32 {
    var m := n % TWO32;
    if m < TWO31 then m else m - TWO32
  }

  function RetryHeaders(prev: int): Headers {
    map[RETRY_HEADER := Int32Header(ToInt32(prev + 1))]
  }

  /** A header of any width is read as its value; one too large for a signed 64-bit number wraps, a fraction is cut off. */
  lemma HeaderIsRead(h: Headers)
    ensures RETRY_HEADER !in h ==> RetryCount(h) == 0
    ensures RETRY_HEADER in h ==>
      match h[RETRY_HEADER]
      case IntHeader(n) => RetryCount(h) == n
      case Int32Header(n) => RetryCount(h) == n
      case Int64Header(n) => RetryCount(h) == n
      case Uint32Header(n) => RetryCount(h) == n
      case Uint64Header(n) => -TWO63 <= RetryCount(h) < TWO63 && (RetryCount(h) - n) % TWO64 == 0
      case FloatHeader(x) =>
        if x >= 0.0 then RetryCount(h) as real <= x < RetryCount(h) as real + 1.0
        else RetryCount(h) as real - 1.0 < x <= RetryCount(h) as real
      case OtherHeader => RetryCount(h) == 0
  {
  }

  /** A retry carries one header only, the next count cut to 32 bits. */
  lemma RetryHeaderIsNext(prev: int)
    ensures RetryHeaders(prev).Keys == {RETRY_HEADER}
    ensures RetryHeaders(prev)[RETRY_HEADER].Int32Header? && (RetryHeaders(prev)[RETRY_HEADER].n32 - (prev + 1)) % TWO32 == 0
  {
  }

  // ---- Queues ------------------------------------------------------------------------------------

  datatype Delivery = Delivery(msg: TaskMessage, headers: Headers)

  /**
   * `inflight` is the delivery the single worker holds unacknowledged. `done` and `published` record,
   * for stating properties, the messages acknowledged after success and those ever published.
   */
  datatype Mq = Mq(
    queue: seq<Delivery>, inflight: Option<Delivery>, dlq: seq<Delivery>,
    done: multiset<TaskMessage>, published: multiset<TaskMessage>)

  function PublishTask(q: Mq, m: TaskMessage): Mq {
    q.(queue := q.queue + [Delivery(m, map[])], published := q.published + multiset{m})
  }

  /** The broker hands over the head of the queue when the worker holds nothing (prefetch 1). */
  function Receive(q: Mq): Mq {
    if q.inflight.Some? || q.queue == [] then q
    else q.(queue := q.queue[1..], inflight := Some(q.queue[0]))
  }

  /** Negative acknowledgement with requeue puts the delivery back where it was. */
  function Requeue(q: Mq, d: Delivery): Mq {
    q.(queue := [d] + q.queue, inflight := None)
  }

  /** Acknowledge, retry with a higher count, or move to the dead-letter queue. */
  function FinalizeDelivery(q: Mq, d: Delivery, ok: bool, pubOk: bool): Mq {
    if ok then q.(inflight := None, done := q.done + multiset{d.msg})
    else if !pubOk then Requeue(q, d)
    else if RetryCount(d.headers) >= MAX_CONSECUTIVE_FAILURES - 1 then
      q.(inflight := None, dlq := q.dlq + [Delivery(d.msg, d.headers[REASON_HEADER := OtherHeader])])
    else
      q.(inflight := None, queue := q.queue + [Delivery(d.msg, RetryHeaders(RetryCount(d.headers)))])
  }

  // ---- Counting messages ----------------------------------------------------------------------------

  function Bag(ds: seq<Delivery>): multiset<TaskMessage> {
    if ds == [] then multiset{} else multiset{ds[0].msg} + Bag(ds[1..])
  }

  function Held(d: Option<Delivery>): multiset<TaskMessage> {
    if d.Some? then multiset{d.value.msg} else multiset{}
  }

  /** Messages not yet delivered for good: queued, or in the worker's hands. */
  function Undelivered(q: Mq): multiset<TaskMessage> {
    Bag(q.queue) + Held(q.inflight)
  }

  /** Every message that was published and is somewhere. */
  function Everywhere(q: Mq): multiset<TaskMessage> {
    Undelivered(q) + Bag(q.dlq) + q.done
  }

  lemma {:induction false} BagConcat(a: seq<Delivery>, b: seq<Delivery>)
    ensures Bag(a + b) == Bag(a) + Bag(b)
  {
    if a == [] {
      assert a + b == b;
    } else {
      assert (a + b)[1..] == a[1..] + b;
      BagConcat(a[1..], b);
    }
  }

  lemma BagOfOne(d: Delivery)
    ensures Bag([d]) == multiset{d.msg}
  {
  }

  lemma PublishEffect(q: Mq, m: TaskMessage)
    ensures var q' := PublishTask(q, m);
      && Undelivered(q') == Undelivered(q) + multiset{m}
      && q'.dlq == q.dlq && q'.done == q.done && q'.inflight == q.inflight
  {
    BagConcat(q.queue, [Delivery(m, map[])]);
    BagOfOne(Delivery(m, map[]));
  }

  lemma ReceiveEffect(q: Mq)
    ensures var q' := Receive(q);
      && Undelivered(q') == Undelivered(q)
      && q'.dlq == q.dlq && q'.done == q.done && q'.published == q.published
  {
  }

  /** A delivery that ends leaves by exactly one door. */
  lemma FinalizeEffect(q: Mq, d: Delivery, ok: bool, pubOk: bool)
    requires q.inflight == Some(d)
    ensures var q' := FinalizeDelivery(q, d, ok, pubOk);
      && q'.inflight == None && q'.published == q.published
      && (ok ==> Undelivered(q') == Bag(q.queue) && q'.done == q.done + multiset{d.msg} && q'.dlq == q.dlq)
      && (!ok ==> q'.done == q.done)
      && (!ok && pubOk && RetryCount(d.headers) >= 2 ==>
          Undelivered(q') == Bag(q.queue) && Bag(q'.dlq) == Bag(q.dlq) + multiset{d.msg})
      && (!ok && !(pubOk && RetryCount(d.headers) >= 2) ==>
          Undelivered(q') == Undelivered(q) && q'.dlq == q.dlq)
  {
    var dead := Delivery(d.msg, d.headers[REASON_HEADER := OtherHeader]);
    var again := Delivery(d.msg, RetryHeaders(RetryCount(d.headers)));
    BagConcat(q.dlq, [dead]);
    BagOfOne(dead);
    BagConcat(q.queue, [again]);
    BagOfOne(again);
    BagConcat([d], q.queue);
    BagOfOne(d);
  }

  /** A dead message keeps its headers and gains the reason; a retried one goes to the end of the queue. */
  lemma FailureMoves(q: Mq, d: Delivery)
    requires q.inflight == Some(d)
    ensures var q' := FinalizeDelivery(q, d, false, true);
      if RetryCount(d.headers) >= 2 then
        && q'.queue == q.queue && |q'.dlq| == |q.dlq| + 1 && q'.dlq[..|q.dlq|] == q.dlq
        && var dead := q'.dlq[|q.dlq|];
           dead.msg == d.msg && dead.headers.Keys == d.headers.Keys + {REASON_HEADER}
           && forall k :: k in d.headers && k != REASON_HEADER ==> dead.headers[k] == d.headers[k]
      else q'.dlq == q.dlq && q'.queue == q.queue + [Delivery(d.msg, RetryHeaders(RetryCount(d.headers)))]
  {
  }

  /** In general: nothing is lost but the message in hand, and nothing is invented. */
  lemma FinalizeKeeps(q: Mq, d: Delivery, ok: bool, pubOk: bool)
    requires q.inflight == Some(d)
    ensures var q' := FinalizeDelivery(q, d, ok, pubOk);
      && Bag(q.queue) <= Undelivered(q') <= Undelivered(q)
      && Everywhere(q') == Everywhere(q)
  {
    FinalizeEffect(q, d, ok, pubOk);
  }

  // ---- Retries end -------------------------------------------------------------------------------------

  /** Counts the worker writes itself. */
  predicate CountInRange(d: Delivery) {
    0 <= RetryCount(d.headers) < MAX_CONSECUTIVE_FAILURES
  }

  predicate CountsInRange(q: Mq) {
    && (forall i :: 0 <= i < |q.queue| ==> CountInRange(q.queue[i]))
    && (q.inflight.Some? ==> CountInRange(q.inflight.value))
  }

  lemma RetryCountOfRetry(prev: int)
    requires 0 <= prev < MAX_CONSECUTIVE_FAILURES
    ensures RetryCount(RetryHeaders(prev)) == prev + 1
  {
  }

  lemma PublishKeepsCounts(q: Mq, m: TaskMessage)
    requires CountsInRange(q)
    ensures CountsInRange(PublishTask(q, m))
  {
  }

  lemma ReceiveKeepsCounts(q: Mq)
    requires CountsInRange(q)
    ensures CountsInRange(Receive(q))
  {
  }

  lemma FinalizeKeepsCounts(q: Mq, d: Delivery, ok: bool, pubOk: bool)
    requires CountsInRange(q) && q.inflight == Some(d)
    ensures CountsInRange(FinalizeDelivery(q, d, ok, pubOk))
  {
  }

  /** Attempts still open to the queued messages. */
  function Attempts(ds: seq<Delivery>): int {
    if ds == [] then 0 else MAX_CONSECUTIVE_FAILURES - RetryCount(ds[0].headers) + Attempts(ds[1..])
  }

  lemma {:induction false} AttemptsConcat(a: seq<Delivery>, b: seq<Delivery>)
    ensures Attempts(a + b) == Attempts(a) + Attempts(b)
  {
    if a == [] {
      assert a + b == b;
    } else {
      assert (a + b)[1..] == a[1..] + b;
      AttemptsConcat(a[1..], b);
    }
  }

  lemma {:induction false} AttemptsCoverQueue(ds: seq<Delivery>)
    requires forall i :: 0 <= i < |ds| ==> CountInRange(ds[i])
    ensures Attempts(ds) >= |ds|
  {
    if ds != [] {
      AttemptsCoverQueue(ds[1..]);
    }
  }

  /** One full delivery: taken, handled with the given result, finalized. */
  function Deliver(q: Mq, ok: bool, pubOk: bool): Mq {
    var taken := Receive(q);
    if taken.inflight.None? then taken else FinalizeDelivery(taken, taken.inflight.value, ok, pubOk)
  }

  /** With working publishes every delivery strictly lowers the attempts left. */
  lemma DeliveryLowersAttempts(q: Mq, ok: bool)
    requires CountsInRange(q) && q.inflight.None? && q.queue != []
    ensures var q' := Deliver(q, ok, true);
      CountsInRange(q') && q'.inflight.None? && Attempts(q'.queue) < Attempts(q.queue)
  {
    var d := q.queue[0];
    ReceiveKeepsCounts(q);
    FinalizeKeepsCounts(Receive(q), d, ok, true);
    if !ok && RetryCount(d.headers) < MAX_CONSECUTIVE_FAILURES - 1 {
      var again := Delivery(d.msg, RetryHeaders(RetryCount(d.headers)));
      RetryCountOfRetry(RetryCount(d.headers));
      AttemptsConcat(q.queue[1..], [again]);
      assert [again][1..] == [];
      assert Attempts([again]) == MAX_CONSECUTIVE_FAILURES - RetryCount(again.headers);
    }
  }

  lemma DeliveryConserves(q: Mq, ok: bool)
    requires q.inflight.None? && q.queue != []
    ensures Everywhere(Deliver(q, ok, true)) == Everywhere(q)
  {
    var taken := Receive(q);
    FinalizeKeeps(taken, q.queue[0], ok, true);
    ReceiveEffect(q);
    assert Everywhere(taken) == Everywhere(q);
  }

  function DeliverAll(q: Mq, results: seq<bool>): Mq
    decreases |results|
  {
    if results == [] then q else DeliverAll(Deliver(q, results[0], true), results[1..])
  }

  /** A queue without new requests drains, whatever the handlers answer; its messages end done or dead. */
  lemma {:induction false} QueueDrains(q: Mq, results: seq<bool>)
    requires CountsInRange(q) && q.inflight.None? && |results| >= Attempts(q.queue)
    ensures var q' := DeliverAll(q, results);
      && q'.queue == [] && q'.inflight.None?
      && Bag(q'.dlq) + q'.done == Everywhere(q)
    decreases |results|
  {
    AttemptsCoverQueue(q.queue);
    if q.queue == [] {
      IdleStays(q, results);
    } else {
      var next := Deliver(q, results[0], true);
      DeliveryLowersAttempts(q, results[0]);
      DeliveryConserves(q, results[0]);
      QueueDrains(next, results[1..]);
      assert DeliverAll(q, results) == DeliverAll(next, results[1..]);
    }
  }

  lemma {:induction false} IdleStays(q: Mq, results: seq<bool>)
    requires q.inflight.None? && q.queue == []
    ensures DeliverAll(q, results) == q
    decreases |results|
  {
    if results != [] {
      IdleStays(q, results[1..]);
    }
  }
}
