/** In-memory conversation threads: each thread keeps its messages in order
    with creation and update times, and a manager maps thread ids to threads.
    The clock and the id generator are outside the program: their values come
    in as parameters. */
module Threads {
  import opened Models

  datatype Message = Message(role: string, content: string, timestamp: string)

  /** `Message(role, content, timestamp)`: an empty or missing timestamp is replaced by the current time. */
  function NewMessage(role: string, content: string, timestamp: Option<string>, now: string): (m: Message)
    ensures m.role == role && m.content == content
    ensures timestamp.Some? && timestamp.value != "" ==> m.timestamp == timestamp.value
    ensures timestamp.None? || timestamp.value == "" ==> m.timestamp == now
  {
    Message(role, content, if timestamp.Some? && timestamp.value != "" then timestamp.value else now)
  }

  /** One entry of a thread's history, as handed to callers. */
  datatype HistoryEntry = HistoryEntry(role: string, content: string, timestamp: string)

  class ConversationThread {
    const threadId: string
    var messages: seq<Message>
    var createdAt: string
    var updatedAt: string

    constructor(threadId: string, now: string)
      ensures this.threadId == threadId && messages == []
      ensures createdAt == now && updatedAt == now
    {
      this.threadId := threadId;
      messages := [];
      createdAt := now;
      updatedAt := now;
    }

    /** Appends a message stamped `now` and moves the update time to `now`. */
    method AddMessage(role: string, content: string, now: string)
      modifies this
      ensures messages == old(messages) + [NewMessage(role, content, None, now)]
      ensures updatedAt == now && createdAt == old(createdAt)
    {
      var message := NewMessage(role, content, None, now);
      messages := messages + [message];
      updatedAt := now;
    }

    /** `get_history`: the messages as plain entries, in order. */
    function History(): (h: seq<HistoryEntry>)
      reads this
      ensures |h| == |messages|
      ensures forall i :: 0 <= i < |h| ==>
                h[i].role == messages[i].role && h[i].content == messages[i].content
                && h[i].timestamp == messages[i].timestamp
    {
      seq(|messages|, i requires 0 <= i < |messages| reads this =>
            HistoryEntry(messages[i].role, messages[i].content, messages[i].timestamp))
    }
  }

  class ThreadManager {
    var threads: map<string, ConversationThread>

    /** Every thread is filed under its own id; so two ids never share a thread. */
    ghost predicate Valid()
      reads this, threads.Values
    {
      forall id :: id in threads ==> threads[id].threadId == id
    }

    constructor()
      ensures threads == map[] && Valid()
    {
      threads := map[];
    }

    /** `create_thread`; `newId` is the id the generator produced. A thread already
        filed under that id is replaced. */
    method CreateThread(newId: string, now: string) returns (id: string)
      requires Valid()
      modifies this
      ensures Valid()
      ensures id == newId && id in threads && fresh(threads[id])
      ensures threads[id].threadId == id && threads[id].messages == []
      ensures threads[id].createdAt == now && threads[id].updatedAt == now
      ensures threads == old(threads)[id := threads[id]]
      ensures |threads| == |old(threads)| + (if newId in old(threads) then 0 else 1)
    {
      var thread := new ConversationThread(newId, now);
      threads := threads[newId := thread];
      id := newId;
    }

    /** `get_thread`: the thread filed under the id, if any. */
    function GetThread(id: string): (t: Option<ConversationThread>)
      reads this
      ensures t.Some? <==> id in threads
      ensures t.Some? ==> t.value == threads[id]
    {
      if id in threads then Some(threads[id]) else None
    }

    /** `get_or_create_thread`: the thread with the given id when one exists, else a new
        one under `newId`. An empty id counts as no id. */
    method GetOrCreateThread(threadId: Option<string>, newId: string, now: string)
      returns (id: string, thread: ConversationThread)
      requires Valid()
      modifies this
      ensures Valid()
      ensures id in threads && thread == threads[id] && thread.threadId == id
      ensures threadId.Some? && threadId.value != "" && threadId.value in old(threads) ==>
                id == threadId.value && threads == old(threads)
      ensures !(threadId.Some? && threadId.value != "" && threadId.value in old(threads)) ==>
                id == newId && fresh(thread) && thread.messages == []
                && threads == old(threads)[newId := thread]
      ensures !(threadId.Some? && threadId.value != "" && threadId.value in old(threads)) && newId !in old(threads) ==>
                |threads| == |old(threads)| + 1
    {
      if threadId.Some? && threadId.value != "" && threadId.value in threads {
        return threadId.value, threads[threadId.value];
      }
      id := CreateThread(newId, now);
      thread := threads[id];
    }

    /** `add_message`: appends to the thread filed under the id; an unknown id changes nothing. */
    method AddMessage(threadId: string, role: string, content: string, now: string)
      requires Valid()
      modifies threads.Values
      ensures Valid() && threads == old(threads)
      ensures threadId in threads ==>
                && threads[threadId].messages == old(threads[threadId].messages) + [NewMessage(role, content, None, now)]
                && threads[threadId].updatedAt == now
      ensures forall id :: id in threads && id != threadId ==>
                threads[id].messages == old(threads[id].messages)
                && threads[id].updatedAt == old(threads[id].updatedAt)
      ensures threadId !in threads ==>
                forall id :: id in threads ==>
                  threads[id].messages == old(threads[id].messages)
                  && threads[id].updatedAt == old(threads[id].updatedAt)
      ensures forall id :: id in threads ==> threads[id].createdAt == old(threads[id].createdAt)
    {
      var thread := GetThread(threadId);
      if thread.Some? {
        thread.value.AddMessage(role, content, now);
      }
    }

    /** `get_thread_count`. */
    function ThreadCount(): (n: nat)
      reads this
      ensures n == |threads.Keys|
    {
      |threads|
    }
  }
}
