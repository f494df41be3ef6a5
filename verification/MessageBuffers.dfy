/** The last messages of each chat, kept in ring buffers (internal/chat/buffer.go). */
module MessageBuffers {

  const MAX_BUFFER_MESSAGES := 5

  datatype Message = Message(from: string, text: string, ts: int)

  function LastN(s: seq<Message>, n: nat): seq<Message> {
    if |s| <= n then s else s[|s| - n..]
  }

  /** Where the source looks for the i-th oldest message. */
  function Slot(pos: nat, count: nat, i: nat): (k: nat)
    requires pos < MAX_BUFFER_MESSAGES && i < count <= MAX_BUFFER_MESSAGES
    ensures k == if pos + i < count then pos + i + MAX_BUFFER_MESSAGES - count else pos + i - count
    ensures k < MAX_BUFFER_MESSAGES
  {
    ((pos - count + MAX_BUFFER_MESSAGES) % MAX_BUFFER_MESSAGES + i) % MAX_BUFFER_MESSAGES
  }

  /** The messages of a ring, oldest first. */
  function Unrolled(items: seq<Message>, pos: nat, count: nat): (r: seq<Message>)
    requires |items| == MAX_BUFFER_MESSAGES && pos < MAX_BUFFER_MESSAGES && count <= MAX_BUFFER_MESSAGES
    ensures |r| == count
    ensures forall i :: 0 <= i < count ==> r[i] == items[Slot(pos, count, i)]
  {
    seq(count, i requires 0 <= i < count => items[Slot(pos, count, i)])
  }

  /** Overwriting the oldest slot and advancing keeps the newest messages in order. */
  lemma PushUnrolls(items: seq<Message>, pos: nat, count: nat, m: Message)
    requires |items| == MAX_BUFFER_MESSAGES && pos < MAX_BUFFER_MESSAGES && count <= MAX_BUFFER_MESSAGES
    ensures Unrolled(items[pos := m], (pos + 1) % MAX_BUFFER_MESSAGES,
                     if count < MAX_BUFFER_MESSAGES then count + 1 else count) ==
            LastN(Unrolled(items, pos, count) + [m], MAX_BUFFER_MESSAGES)
  {
    hide Slot;
    var pos' := if pos + 1 == MAX_BUFFER_MESSAGES then 0 else pos + 1;
    assert (pos + 1) % MAX_BUFFER_MESSAGES == pos';
    var count' := if count < MAX_BUFFER_MESSAGES then count + 1 else count;
    var before, after := Unrolled(items, pos, count), Unrolled(items[pos := m], pos', count');
    var wanted := LastN(before + [m], MAX_BUFFER_MESSAGES);
    forall i | 0 <= i < count' ensures after[i] == wanted[i] {
      if i < count' - 1 {
        var j := if count < MAX_BUFFER_MESSAGES then i else i + 1;
        assert Slot(pos', count', i) == Slot(pos, count, j) != pos;
      }
    }
  }

  class Ring {
    const items: array<Message>
    var pos: nat
    var count: nat

    ghost predicate Valid()
      reads this
    {
      items.Length == MAX_BUFFER_MESSAGES && pos < MAX_BUFFER_MESSAGES && count <= MAX_BUFFER_MESSAGES
    }

    ghost function View(): seq<Message>
      requires Valid()
      reads this, items
    {
      Unrolled(items[..], pos, count)
    }

    constructor ()
      ensures Valid() && View() == [] && fresh(items)
    {
      items := new Message[MAX_BUFFER_MESSAGES](_ => Message("", "", 0));
      pos, count := 0, 0;
    }

    method Push(m: Message)
      requires Valid()
      modifies this, items
      ensures Valid()
      ensures View() == LastN(old(View()) + [m], MAX_BUFFER_MESSAGES)
    {
      PushUnrolls(items[..], pos, count, m);
      items[pos] := m;
      assert items[..] == old(items[..])[pos := m];
      pos := (pos + 1) % MAX_BUFFER_MESSAGES;
      if count < MAX_BUFFER_MESSAGES {
        count := count + 1;
      }
    }

    method Read() returns (result: seq<Message>)
      requires Valid()
      ensures result == View()
    {
      result := [];
      var start := (pos - count + MAX_BUFFER_MESSAGES) % MAX_BUFFER_MESSAGES;
      for i := 0 to count
        invariant |result| == i
        invariant forall k :: 0 <= k < i ==> result[k] == View()[k]
      {
        assert (start + i) % MAX_BUFFER_MESSAGES == Slot(pos, count, i);
        result := result + [items[(start + i) % MAX_BUFFER_MESSAGES]];
      }
    }
  }

  class MessageBuffer {
    var buffers: map<string, Ring>

    ghost function Footprint(): set<object>
      reads this
    {
      buffers.Values + set r | r in buffers.Values :: r.items
    }

    /** Every chat has a ring of its own. */
    ghost predicate Valid()
      reads this, Footprint()
    {
      && (forall k :: k in buffers ==> buffers[k].Valid())
      && (forall j, k :: j in buffers && k in buffers && j != k ==>
            buffers[j] != buffers[k] && buffers[j].items != buffers[k].items)
    }

    /** What each chat's ring holds. */
    ghost function Contents(): map<string, seq<Message>>
      requires Valid()
      reads this, Footprint()
    {
      map k | k in buffers :: buffers[k].View()
    }

    constructor ()
      ensures Valid() && Contents() == map[]
    {
      buffers := map[];
    }

    method Install(chatID: string, ring: Ring)
      requires Valid() && chatID !in buffers
      requires ring.Valid() && {ring, ring.items} !! Footprint()
      modifies this`buffers
      ensures Valid() && buffers == old(buffers)[chatID := ring]
      ensures Contents() == old(Contents())[chatID := ring.View()]
    {
      hide Ring.View;
      buffers := buffers[chatID := ring];
    }

    /** Makes the chat's ring on first use. */
    method EnsureRing(chatID: string)
      requires Valid()
      modifies this
      ensures Valid() && chatID in buffers && fresh(Footprint() - old(Footprint()))
      ensures Contents() == old(Contents())[chatID := Held(old(Contents()), chatID)]
    {
      hide Ring.View, Ring.Valid;
      if chatID in buffers {
        assert Contents() == Contents()[chatID := Contents()[chatID]];
      } else {
        var ring := new Ring();
        Install(chatID, ring);
      }
    }

    method PushTo(chatID: string, m: Message)
      requires Valid() && chatID in buffers
      modifies buffers[chatID], buffers[chatID].items
      ensures Valid()
      ensures Contents() == old(Contents())[chatID := LastN(old(Contents())[chatID] + [m], MAX_BUFFER_MESSAGES)]
    {
      hide Unrolled, Slot, LastN;
      buffers[chatID].Push(m);
      forall k | k in buffers && k != chatID ensures buffers[k].View() == old(buffers[k].View()) {
      }
    }

    method Add(chatID: string, m: Message)
      requires Valid()
      modifies this, Footprint()
      ensures Valid() && fresh(Footprint() - old(Footprint()))
      ensures Contents() == Applied(old(Contents()), AddTo(chatID, m))
    {
      hide Ring.View, Ring.Valid, LastN, Contents, Valid;
      EnsureRing(chatID);
      PushTo(chatID, m);
    }

    method Get(chatID: string) returns (result: seq<Message>)
      requires Valid()
      ensures result == if chatID in Contents() then Contents()[chatID] else []
    {
      if chatID !in buffers {
        return [];
      }
      result := buffers[chatID].Read();
    }

    method Remove(chatID: string)
      requires Valid()
      modifies this
      ensures Valid() && Footprint() <= old(Footprint())
      ensures Contents() == Applied(old(Contents()), RemoveAll(chatID))
    {
      buffers := buffers - {chatID};
    }
  }

  // ----- the buffer against the history of its operations -----

  datatype Op = AddTo(chatID: string, m: Message) | RemoveAll(chatID: string)

  function Held(contents: map<string, seq<Message>>, chatID: string): seq<Message> {
    if chatID in contents then contents[chatID] else []
  }

  function Applied(contents: map<string, seq<Message>>, op: Op): map<string, seq<Message>> {
    match op
    case AddTo(chatID, m) => contents[chatID := LastN(Held(contents, chatID) + [m], MAX_BUFFER_MESSAGES)]
    case RemoveAll(chatID) => contents - {chatID}
  }

  function Replayed(ops: seq<Op>): map<string, seq<Message>> {
    if ops == [] then map[] else Applied(Replayed(ops[..|ops| - 1]), ops[|ops| - 1])
  }

  /** Everything added to the chat since it was last removed. */
  function Since(ops: seq<Op>, chatID: string): seq<Message> {
    if ops == [] then []
    else
      var before := Since(ops[..|ops| - 1], chatID);
      match ops[|ops| - 1]
      case AddTo(c, m) => if c == chatID then before + [m] else before
      case RemoveAll(c) => if c == chatID then [] else before
  }

  lemma LastOfLast(s: seq<Message>, m: Message, n: nat)
    requires n > 0
    ensures LastN(LastN(s, n) + [m], n) == LastN(s + [m], n)
  {
  }

  /** After any operations on any chats, a chat's buffer holds the last five messages added
      to it since its latest removal, oldest first. */
  lemma {:induction false} BufferRefinesHistory(ops: seq<Op>, chatID: string)
    ensures Held(Replayed(ops), chatID) == LastN(Since(ops, chatID), 5)
  {
    if ops != [] {
      var init, op := ops[..|ops| - 1], ops[|ops| - 1];
      BufferRefinesHistory(init, chatID);
      if op.AddTo? {
        LastOfLast(Since(init, chatID), op.m, MAX_BUFFER_MESSAGES);
      }
    }
  }
}
