/** The queue client: two durable queues and the one delivery the worker holds. */
module Broker {
  import opened Wrappers
  import opened Model
  import opened Messages

  class Client {
    var queue: seq<Delivery>
    var inflight: Option<Delivery>
    var dlq: seq<Delivery>
    /** For stating properties: messages acknowledged after success, and all ever published. */
    ghost var done: multiset<TaskMessage>
    ghost var published: multiset<TaskMessage>

    constructor ()
      ensures State() == Mq([], None, [], multiset{}, multiset{})
    {
      queue, inflight, dlq := [], None, [];
      done, published := multiset{}, multiset{};
    }

    ghost function State(): Mq
      reads this
    {
      Mq(queue, inflight, dlq, done, published)
    }

    method PublishTask(m: TaskMessage, pubOk: bool) returns (ok: bool)
      modifies this`queue, this`published
      ensures ok == pubOk && State() == if pubOk then Messages.PublishTask(old(State()), m) else old(State())
    {
      ok := PublishTaskWithHeaders(m, map[], pubOk);
      if ok {
        published := published + multiset{m};
      }
    }

    method PublishTaskWithHeaders(m: TaskMessage, headers: Headers, pubOk: bool) returns (ok: bool)
      modifies this`queue
      ensures ok == pubOk && queue == if pubOk then old(queue) + [Delivery(m, headers)] else old(queue)
    {
      if pubOk {
        queue := queue + [Delivery(m, headers)];
      }
      return pubOk;
    }

    method PublishToDlq(m: TaskMessage, headers: Headers, pubOk: bool) returns (ok: bool)
      modifies this`dlq
      ensures ok == pubOk && dlq == if pubOk then old(dlq) + [Delivery(m, headers)] else old(dlq)
    {
      if pubOk {
        dlq := dlq + [Delivery(m, headers)];
      }
      return pubOk;
    }

    /** With a prefetch of one the head of the queue is handed over only when nothing is held. */
    method Consume() returns (d: Option<Delivery>)
      modifies this`queue, this`inflight
      ensures State() == Messages.Receive(old(State()))
      ensures d == if old(inflight).None? then inflight else None
    {
      if inflight.Some? || queue == [] {
        return None;
      }
      inflight := Some(queue[0]);
      queue := queue[1..];
      return inflight;
    }

    method Ack(ghost succeeded: bool)
      requires inflight.Some?
      modifies this`inflight, this`done
      ensures inflight == None
      ensures done == if succeeded then old(done) + multiset{old(inflight).value.msg} else old(done)
    {
      if succeeded {
        done := done + multiset{inflight.value.msg};
      }
      inflight := None;
    }

    /** Negative acknowledgement that puts the delivery back. */
    method NackRequeue()
      requires inflight.Some?
      modifies this`inflight, this`queue
      ensures State() == Requeue(old(State()), old(inflight).value)
    {
      queue := [inflight.value] + queue;
      inflight := None;
    }
  }
}
