/** The in-memory message store: a ring buffer per conversation, as a view of everything appended so far. */
module MemoryStore {
  import opened Text
  import opened Ring

  datatype Message = Message(command: string, text: string)

  function Min(a: nat, b: nat): nat { if a < b then a else b }

  /** What loading from sequence number `s` yields after the messages of `log` were appended. */
  function Since(log: seq<Message>, s: nat, capacity: nat, limit: nat): Result<seq<Message>> {
    if s > |log| + 1 then Err
    else if s == |log| + 1 then Ok([])
    else Ok(LastN(log[s..], Min(capacity, limit)))
  }

  class MessageRingBuffer {
    const buf: array<Message>
    var cur: nat
    ghost var log: seq<Message>

    constructor (capacity: nat)
      requires capacity > 0
      ensures Valid() && fresh(buf) && buf.Length == capacity && log == []
    {
      buf := new Message[capacity](_ => Message("", ""));
      cur, log := 1, [];
    }

    ghost predicate Valid()
      reads this, buf
    {
      buf.Length > 0 && cur == |log| + 1 && Holds(buf[..], log, 1)
    }

    /** Sequence numbers count from one. */
    method Append(msg: Message) returns (s: nat)
      requires Valid()
      modifies this, buf
      ensures Valid() && log == old(log) + [msg] && s == |log|
    {
      s := cur;
      SlotIsMod(s, buf.Length);
      HoldsPush(buf[..], log, 1, msg);
      ghost var before := buf[..];
      buf[s % buf.Length] := msg;
      assert buf[..] == before[Slot(|log| + 1, |before|) := msg];
      cur, log := cur + 1, log + [msg];
    }

    method LoadLatestSeq(s: nat, limit: nat) returns (r: Result<seq<Message>>)
      requires Valid()
      ensures r == Since(log, s, buf.Length, limit)
    {
      if s > cur {
        return Err;
      } else if s == cur {
        return Ok([]);
      }
      var diff := cur - s - 1;
      if diff > buf.Length {
        diff := buf.Length;
      }
      if diff > limit {
        diff := limit;
      }
      var l := new Message[diff](_ => Message("", ""));
      for i := 0 to diff
        invariant forall j | 0 <= j < i :: l[j] == log[|log| - diff + j]
        invariant buf[..] == old(buf[..])
      {
        SlotIsMod(cur - diff + i, buf.Length);
        assert log[|log| - diff + i] == buf[..][Slot(|log| - diff + i + 1, buf.Length)];
        l[i] := buf[(cur - diff + i) % buf.Length];
      }
      assert l[..] == log[|log| - diff..];
      r := Ok(l[..]);
    }
  }

  /** One conversation of the store; its buffer is created by the first message. */
  class Conversation {
    const capacity: nat
    var rb: MessageRingBuffer?

    constructor (capacity: nat)
      requires capacity > 0
      ensures Valid() && Log() == [] && this.capacity == capacity
    {
      this.capacity := capacity;
      rb := null;
    }

    ghost function Log(): seq<Message>
      reads this, rb
    {
      if rb == null then [] else rb.log
    }

    ghost predicate Valid()
      reads this, rb, if rb == null then {} else {rb.buf}
    {
      capacity > 0 && (rb != null ==> rb.Valid() && rb.buf.Length == capacity && rb.log != [])
    }

    /** Only PRIVMSG and NOTICE are kept. */
    method Append(msg: Message) returns (id: Option<nat>)
      requires Valid()
      modifies this, rb, if rb == null then {} else {rb.buf}
      ensures Valid()
      ensures var kept := msg.command == "PRIVMSG" || msg.command == "NOTICE";
              && Log() == old(Log()) + (if kept then [msg] else [])
              && id == if kept then Some(|Log()|) else None
    {
      if msg.command != "PRIVMSG" && msg.command != "NOTICE" {
        return None;
      }
      if rb == null {
        rb := new MessageRingBuffer(capacity);
      }
      var s := rb.Append(msg);
      id := Some(s);
    }

    method LastMsgID() returns (id: nat)
      requires Valid()
      ensures id == LastId(Log())
    {
      id := 0;
      if rb != null {
        id := rb.cur;
      }
    }

    method LoadLatestID(id: nat, limit: nat, events: bool) returns (r: Result<seq<Message>>)
      requires Valid()
      ensures events ==> r == Err
      ensures !events && Log() == [] ==> r == Ok([])
      ensures !events && Log() != [] ==> r == Since(Log(), id, capacity, limit)
    {
      if events {
        return Err;
      }
      if rb == null {
        return Ok([]);
      }
      r := rb.LoadLatestSeq(id, limit);
    }
  }

  /** The ID LastMsgID returns after the messages of `log`. */
  function LastId(log: seq<Message>): nat {
    if log == [] then 0 else |log| + 1
  }

  /** An ID returned by Append is an exact cursor, through any number of wraps. */
  lemma AppendIdExact(log: seq<Message>, more: seq<Message>, capacity: nat, limit: nat)
    requires log != []
    ensures Since(log + more, |log|, capacity, limit) == Ok(LastN(more, Min(capacity, limit)))
  {
    assert (log + more)[|log|..] == more;
  }

  /** One message is skipped behind an ID of LastMsgID, unless there was none yet or the limit hides it anyway. */
  lemma LastIdIff(log: seq<Message>, more: seq<Message>, capacity: nat, limit: nat)
    ensures Since(log + more, LastId(log), capacity, limit) == Ok(LastN(more, Min(capacity, limit)))
            <==> log == [] || more == [] || |more| > Min(capacity, limit)
  {
    if log == [] {
      assert log + more == more && more[0..] == more;
    } else if more != [] {
      assert (log + more)[|log| + 1..] == more[1..];
    }
  }

  /** The second message of a conversation is not found behind the ID LastMsgID returned after the first. */
  lemma LastIdSkips(first: Message, second: Message)
    ensures Since([first] + [second], LastId([first]), 4096, 4000) == Ok([])
  {
    assert ([first] + [second])[2..] == [];
  }
}
