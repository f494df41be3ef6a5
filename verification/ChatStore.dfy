/**
 Chats in Redis (internal/chat/store.go): a pending chat is created for a matched pair,
 tracked by its accept deadline, and becomes active when both users have accepted.
 The accept script and each pipeline are one step; times are milliseconds, and the
 deadlines the source keeps in whole seconds are kept in whole seconds here.
 */
module ChatStore {
  import opened Redis

  const CHAT_TTL_PENDING := 60_000
  const CHAT_TTL_ACTIVE := 7_200_000
  const ACCEPT_SECONDS := 15

  datatype Status = PendingAccept | Active

  datatype Chat = Chat(
    userA: string, userB: string, status: Status,
    createdAt: int, acceptDeadline: int,
    acceptedA: bool, acceptedB: bool)
  {
    function GetPartner(sid: string): string {
      if sid == userA then userB else if sid == userB then userA else ""
    }

    predicate IsParticipant(sid: string) {
      sid == userA || sid == userB
    }
  }

  datatype Db = Db(now: int, chats: map<string, Keyed<Chat>>, tracking: map<string, int>)

  function Seconds(ms: int): int {
    ms / 1000
  }

  // ----- the operations as functions -----

  function Get(db: Db, id: string): Option<Chat> {
    if id in db.chats && db.now < db.chats[id].expireAt then Some(db.chats[id].value) else None
  }

  function NewChat(now: int, a: string, b: string): Keyed<Chat> {
    Keyed(Chat(a, b, PendingAccept, Seconds(now), Seconds(now) + ACCEPT_SECONDS, false, false), now + CHAT_TTL_PENDING)
  }

  function Created(db: Db, id: string, a: string, b: string): Db {
    Db(db.now, db.chats[id := NewChat(db.now, a, b)], db.tracking[id := Seconds(db.now) + ACCEPT_SECONDS])
  }

  /** The accept script on one live chat: the new hash and the return code. */
  function Accept(k: Keyed<Chat>, sid: string, now: int): (Keyed<Chat>, int) {
    var c := k.value;
    if c.status != PendingAccept then (k, -2)
    else if !c.IsParticipant(sid) then (k, -3)
    else
      var c' := if sid == c.userA then c.(acceptedA := true) else c.(acceptedB := true);
      if c'.acceptedA && c'.acceptedB then (Keyed(c'.(status := Active), now + CHAT_TTL_ACTIVE), 1)
      else (Keyed(c', k.expireAt), 0)
  }

  function Accepted(db: Db, id: string, sid: string): (Db, int) {
    if Get(db, id).None? then (db, -1)
    else
      var (k, code) := Accept(db.chats[id], sid, db.now);
      (db.(chats := db.chats[id := k]), code)
  }

  function Deleted(db: Db, id: string): Db {
    db.(chats := db.chats - {id}, tracking := db.tracking - {id})
  }

  /** A new chat, read back at any later time: pending, with fifteen seconds to accept and
      a minute to live, and tracked under its deadline; nothing else has changed. */
  lemma CreatedReadsBack(db: Db, id: string, a: string, b: string, t: int, other: string)
    requires db.now <= t
    ensures var db' := Created(db, id, a, b).(now := t); var s := db.now / 1000;
      && Get(db', id) ==
         (if t < db.now + 60_000 then Some(Chat(a, b, PendingAccept, s, s + 15, false, false)) else None)
      && id in db'.tracking && db'.tracking[id] == s + 15
      && (other != id ==> Get(db', other) == Get(db.(now := t), other))
      && (other != id ==> (other in db'.tracking <==> other in db.tracking))
      && (other != id && other in db.tracking ==> db'.tracking[other] == db.tracking[other])
  {
  }

  class Store {
    var now: int
    var chats: map<string, Keyed<Chat>>
    var tracking: map<string, int>

    function State(): Db
      reads this
    {
      Db(now, chats, tracking)
    }

    method CreatePending(id: string, userA: string, userB: string)
      modifies this
      ensures State() == Created(old(State()), id, userA, userB)
    {
      var deadline := Seconds(now) + ACCEPT_SECONDS;
      var chat := Chat(userA, userB, PendingAccept, Seconds(now), deadline, false, false);
      chats := chats[id := Keyed(chat, now + CHAT_TTL_PENDING)];
      tracking := tracking[id := deadline];
    }

    method AcceptMatch(id: string, sid: string) returns (code: int)
      modifies this
      ensures (State(), code) == Accepted(old(State()), id, sid)
    {
      if id !in chats || now >= chats[id].expireAt {
        return -1;
      }
      var chat, expireAt := chats[id].value, chats[id].expireAt;
      if chat.status != PendingAccept {
        assert chats[id := chats[id]] == chats;
        return -2;
      }
      if sid == chat.userA {
        chat := chat.(acceptedA := true);
      } else if sid == chat.userB {
        chat := chat.(acceptedB := true);
      } else {
        assert chats[id := chats[id]] == chats;
        return -3;
      }
      code := 0;
      if chat.acceptedA && chat.acceptedB {
        chat := chat.(status := Active);
        expireAt := now + CHAT_TTL_ACTIVE;
        code := 1;
      }
      chats := chats[id := Keyed(chat, expireAt)];
    }

    method Delete(id: string)
      modifies this
      ensures State() == Deleted(old(State()), id)
    {
      chats := chats - {id};
      tracking := tracking - {id};
    }
  }

  // ----- the accept handshake over any sequence of calls -----

  datatype Call = Call(sid: string, at: int)

  function AcceptAll(k: Keyed<Chat>, calls: seq<Call>): Keyed<Chat> {
    if calls == [] then k
    else Accept(AcceptAll(k, calls[..|calls| - 1]), calls[|calls| - 1].sid, calls[|calls| - 1].at).0
  }

  /** What the i-th call returns. */
  function Code(k: Keyed<Chat>, calls: seq<Call>, i: nat): int
    requires i < |calls|
  {
    Accept(AcceptAll(k, calls[..i]), calls[i].sid, calls[i].at).1
  }

  ghost predicate Said(calls: seq<Call>, sid: string) {
    exists i :: 0 <= i < |calls| && calls[i].sid == sid
  }

  /** Two different users have both accepted. */
  ghost predicate BothSaid(c: Chat, calls: seq<Call>) {
    c.userA != c.userB && Said(calls, c.userA) && Said(calls, c.userB)
  }

  ghost predicate Fresh(c: Chat) {
    c.status == PendingAccept && !c.acceptedA && !c.acceptedB
  }

  /** The chat a set of accepting sessions leads to. */
  ghost function Outcome(c: Chat, calls: seq<Call>): Chat {
    c.(acceptedA := Said(calls, c.userA),
       acceptedB := c.userA != c.userB && Said(calls, c.userB),
       status := if BothSaid(c, calls) then Active else PendingAccept)
  }

  lemma SaidExtends(calls: seq<Call>, sid: string)
    requires calls != []
    ensures Said(calls, sid) <==> Said(calls[..|calls| - 1], sid) || calls[|calls| - 1].sid == sid
  {
    var init := calls[..|calls| - 1];
    if i :| 0 <= i < |init| && init[i].sid == sid {
      assert calls[i].sid == sid;
    }
    if i :| 0 <= i < |calls| && calls[i].sid == sid {
      if i < |init| {
        assert init[i].sid == sid;
      }
    }
  }

  /** Whatever the calls and their order, the chat they lead to depends only on who has
      called: both flags and the active status are set together, by the two users alone. */
  lemma {:induction false} HandshakeState(k: Keyed<Chat>, calls: seq<Call>)
    requires Fresh(k.value)
    ensures AcceptAll(k, calls).value == Outcome(k.value, calls)
  {
    if calls != [] {
      HandshakeState(k, calls[..|calls| - 1]);
      SaidExtends(calls, k.value.userA);
      SaidExtends(calls, k.value.userB);
    }
  }

  /** The order and the number of the calls make no difference. */
  lemma OrderIrrelevant(k: Keyed<Chat>, calls: seq<Call>, calls': seq<Call>)
    requires Fresh(k.value)
    requires forall sid :: Said(calls, sid) <==> Said(calls', sid)
    ensures AcceptAll(k, calls).value == AcceptAll(k, calls').value
  {
    HandshakeState(k, calls);
    HandshakeState(k, calls');
  }

  /** The return codes: 1 exactly at the call that completes the pair, -2 ever after,
      0 for a user still waiting (repeats included), -3 for outsiders. */
  lemma HandshakeCode(k: Keyed<Chat>, calls: seq<Call>, i: nat)
    requires Fresh(k.value) && i < |calls|
    ensures Code(k, calls, i) ==
            if BothSaid(k.value, calls[..i]) then -2
            else if !k.value.IsParticipant(calls[i].sid) then -3
            else if BothSaid(k.value, calls[..i + 1]) then 1
            else 0
    ensures AcceptAll(k, calls[..i + 1]).expireAt ==
            if Code(k, calls, i) == 1 then calls[i].at + 7_200_000 else AcceptAll(k, calls[..i]).expireAt
  {
    HandshakeState(k, calls[..i]);
    assert calls[..i + 1][..i] == calls[..i];
    SaidExtends(calls[..i + 1], k.value.userA);
    SaidExtends(calls[..i + 1], k.value.userB);
  }

  function Activations(k: Keyed<Chat>, calls: seq<Call>, n: nat): nat
    requires n <= |calls|
  {
    if n == 0 then 0 else Activations(k, calls, n - 1) + if Code(k, calls, n - 1) == 1 then 1 else 0
  }

  /** Exactly one call activates the chat if both users call, and none otherwise. */
  lemma {:induction false} OneActivation(k: Keyed<Chat>, calls: seq<Call>, n: nat)
    requires Fresh(k.value) && n <= |calls|
    ensures Activations(k, calls, n) == if BothSaid(k.value, calls[..n]) then 1 else 0
  {
    if n > 0 {
      OneActivation(k, calls, n - 1);
      HandshakeCode(k, calls, n - 1);
      assert calls[..n][..n - 1] == calls[..n - 1];
      SaidExtends(calls[..n], k.value.userA);
      SaidExtends(calls[..n], k.value.userB);
    }
  }
}
