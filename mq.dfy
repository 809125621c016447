/** The list-backed message queue of the FastAPI demo: the module-level list
    `message_queue`, to which `send_message` appends and which `process_messages` empties
    front to back with `pop(0)`. */
module MessageQueue {

  /** The dictionary `{"processed_queue": [...]}` that `process_messages` returns. */
  datatype DrainResponse<T> = DrainResponse(processedQueue: seq<T>)

  /** The module-level `message_queue`; one instance stands for the module's global list. */
  class Queue<T> {
    var messages: seq<T>

    /** The module is imported: `message_queue = []`. */
    constructor ()
      ensures messages == []
    {
      messages := [];
    }

    /** `send_message`: the message goes to the end, the earlier entries stay as they were. */
    method SendMessage(message: T)
      modifies this
      ensures messages == old(messages) + [message]
      ensures messages[..|old(messages)|] == old(messages) && messages[|old(messages)|] == message
    {
      messages := messages + [message];
    }

    /** `process_messages`: repeatedly `pop(0)` and append to `processed_queue` until the
        queue is empty. The messages come out in the order they were sent and none is left. */
    method ProcessMessages() returns (response: DrainResponse<T>)
      modifies this
      ensures response.processedQueue == old(messages)
      ensures |response.processedQueue| == |old(messages)|
      ensures messages == []
    {
      var processed: seq<T> := [];
      while messages != []
        invariant processed + messages == old(messages)
        decreases |messages|
      {
        var message := messages[0];
        messages := messages[1..];
        processed := processed + [message];
      }
      response := DrainResponse(processed);
    }
  }

  /** Two drains with no send in between: the first returns everything that was queued,
      the second an empty list. */
  method DrainTwice<T>(queue: Queue<T>) returns (first: DrainResponse<T>, second: DrainResponse<T>)
    modifies queue
    ensures first.processedQueue == old(queue.messages)
    ensures second.processedQueue == [] && queue.messages == []
  {
    first := queue.ProcessMessages();
    second := queue.ProcessMessages();
  }

  /** A fresh queue that receives `a`, `b`, `c` hands them back in that order. */
  method SendThenDrain<T>(a: T, b: T, c: T) returns (response: DrainResponse<T>)
    ensures response.processedQueue == [a, b, c]
  {
    var queue := new Queue<T>();
    queue.SendMessage(a);
    queue.SendMessage(b);
    queue.SendMessage(c);
    response := queue.ProcessMessages();
  }
}
