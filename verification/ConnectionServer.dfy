/**
 The connection registry (internal/ws/connection.go) under the concurrent workers and
 removers of the server (internal/ws/server.go).

 A connection is identified by its session ID, which is never reused; its file descriptor
 is, once the socket has been closed. The operating system hands out descriptors that are
 not open, and frees one only on close; 0 is standard input and never a connection's.
 Every locked section, compare-and-swap, close and callback is a step of its own, and so
 is reading a socket's descriptor; threads interleave freely. Shutdown is not modelled.
 */
module ConnectionServer {
  import opened Redis

  datatype Connection = Connection(id: string, fd: int)

  // ----- the registry -----

  datatype Registry = Registry(byID: map<string, Connection>, byFd: map<int, Connection>)

  function Added(r: Registry, c: Connection): Registry {
    Registry(r.byID[c.id := c], r.byFd[c.fd := c])
  }

  function Removed(r: Registry, id: string): Registry {
    if id in r.byID then Registry(r.byID - {id}, r.byFd - {r.byID[id].fd}) else r
  }

  function RemovedByFd(r: Registry, fd: int): Registry {
    if fd in r.byFd then Registry(r.byID - {r.byFd[fd].id}, r.byFd - {fd}) else r
  }

  /** The two maps are each other's inverse. */
  ghost predicate Inverse(r: Registry) {
    && (forall id :: id in r.byID ==>
          r.byID[id].id == id && r.byID[id].fd in r.byFd && r.byFd[r.byID[id].fd] == r.byID[id])
    && (forall fd :: fd in r.byFd ==>
          r.byFd[fd].fd == fd && r.byFd[fd].id in r.byID && r.byID[r.byFd[fd].id] == r.byFd[fd])
  }

  class ConnectionManager {
    var byID: map<string, Connection>
    var byFd: map<int, Connection>

    function State(): Registry
      reads this
    {
      Registry(byID, byFd)
    }

    constructor ()
      ensures State() == Registry(map[], map[]) && Inverse(State())
    {
      byID, byFd := map[], map[];
    }

    /** Keeps the maps inverse when neither the ID nor the descriptor is registered. */
    method Add(c: Connection)
      modifies this
      ensures State() == Added(old(State()), c)
      ensures old(Inverse(State())) && c.id !in old(byID) && c.fd !in old(byFd) ==> Inverse(State())
    {
      byID := byID[c.id := c];
      byFd := byFd[c.fd := c];
    }

    /** The locked section of Remove; the caller closes the connection afterwards. */
    method Remove(id: string) returns (removed: Option<Connection>)
      modifies this
      ensures State() == Removed(old(State()), id)
      ensures removed == if id in old(byID) then Some(old(byID)[id]) else None
      ensures old(Inverse(State())) ==> Inverse(State())
    {
      removed := None;
      if id in byID {
        removed := Some(byID[id]);
        byID := byID - {id};
        byFd := byFd - {removed.value.fd};
      }
    }

    method RemoveByFd(fd: int) returns (removed: Option<Connection>)
      modifies this
      ensures State() == RemovedByFd(old(State()), fd)
      ensures removed == if fd in old(byFd) then Some(old(byFd)[fd]) else None
      ensures old(Inverse(State())) ==> Inverse(State())
    {
      removed := None;
      if fd in byFd {
        removed := Some(byFd[fd]);
        byFd := byFd - {fd};
        byID := byID - {removed.value.id};
      }
    }
  }

  // ----- threads -----

  /** Where a thread stands: a worker with its socket, with the socket's descriptor, with
      the connection it found before the guard, past the guard; or inside a removal, before
      the locked section, before the close, before the callback; or finished. A quiet
      removal has no callback. */
  datatype Pc =
    | Idle
    | HasFd(fd: int)
    | Looked(c: Connection)
    | Working
    | Evicting(c: Connection, quiet: bool)
    | Closing(c: Connection, quiet: bool)
    | Firing(c: Connection)
    | Done

  /** sock: the connection whose socket a worker was started for. */
  datatype Thread = Thread(pc: Pc, guarding: Option<Connection>, sock: Option<Connection>)

  /** born: every connection accepted so far; added: the IDs ever registered; processing:
      the guard flags that are set, with the thread that set each; slots: the worker pool;
      fired and dropped: connections whose removal has finished with or without callback. */
  datatype State = State(
    open: map<int, Connection>,
    born: map<string, Connection>,
    added: set<string>,
    reg: Registry,
    processing: map<string, nat>,
    slots: set<nat>,
    threads: map<nat, Thread>,
    fired: multiset<string>,
    dropped: set<string>)

  datatype Step =
    | Open(c: Connection)
    | Add(c: Connection)
    | Spawn(t: nat, c: Connection)
    | StartRemove(t: nat, c: Connection, quiet: bool)
    | StartRemoveByFd(t: nat, fd: int)
    | ReadFd(t: nat)
    | Lookup(t: nat)
    | Guard(t: nat)
    | Evict(t: nat)
    | RemoveEntry(t: nat)
    | Close(t: nat)
    | Fire(t: nat)
    | Unguard(t: nat)
    | Release(t: nat)

  predicate At(s: State, t: nat) {
    t in s.threads
  }

  ghost predicate Enabled(s: State, pool: nat, step: Step) {
    match step
    case Open(c) => c.fd > 0 && c.fd !in s.open && c.id !in s.born
    case Add(c) => c.fd in s.open && s.open[c.fd] == c && c.id !in s.added
    case Spawn(t, c) => !At(s, t) && |s.slots| < pool && c.id in s.added && c.id in s.born && s.born[c.id] == c
    case StartRemove(t, c, _) => !At(s, t) && c.id in s.added && c.id in s.born && s.born[c.id] == c
    case StartRemoveByFd(t, fd) => !At(s, t) && fd in s.reg.byFd
    case ReadFd(t) => At(s, t) && s.threads[t].pc.Idle? && s.threads[t].sock.Some?
    case Lookup(t) => At(s, t) && s.threads[t].pc.HasFd?
    case Guard(t) => At(s, t) && s.threads[t].pc.Looked?
    case Evict(t) => At(s, t) && s.threads[t].pc.Working? && s.threads[t].guarding.Some?
    case RemoveEntry(t) => At(s, t) && s.threads[t].pc.Evicting?
    case Close(t) => At(s, t) && s.threads[t].pc.Closing?
    case Fire(t) => At(s, t) && s.threads[t].pc.Firing?
    case Unguard(t) => At(s, t) && (s.threads[t].pc.Done? || s.threads[t].pc.Working?) && s.threads[t].guarding.Some?
    case Release(t) => At(s, t) && s.threads[t].pc.Done? && s.threads[t].guarding.None?
  }

  function Goto(s: State, t: nat, pc: Pc): map<nat, Thread>
    requires At(s, t)
  {
    s.threads[t := s.threads[t].(pc := pc)]
  }

  /** socketFD: asking a closed socket for its descriptor gives 0. */
  ghost function FdOf(s: State, c: Connection): int {
    if SocketOpen(s, c) then c.fd else 0
  }

  ghost function Do(s: State, pool: nat, step: Step): State
    requires Enabled(s, pool, step)
  {
    match step
    case Open(c) => s.(open := s.open[c.fd := c], born := s.born[c.id := c])
    case Add(c) => s.(reg := Added(s.reg, c), added := s.added + {c.id})
    case Spawn(t, c) => s.(threads := s.threads[t := Thread(Idle, None, Some(c))], slots := s.slots + {t})
    case StartRemove(t, c, quiet) => s.(threads := s.threads[t := Thread(Evicting(c, quiet), None, None)])
    case StartRemoveByFd(t, fd) =>
      s.(reg := RemovedByFd(s.reg, fd), threads := s.threads[t := Thread(Closing(s.reg.byFd[fd], true), None, None)])
    case ReadFd(t) => s.(threads := Goto(s, t, HasFd(FdOf(s, s.threads[t].sock.value))))
    case Lookup(t) =>
      var fd := s.threads[t].pc.fd;
      s.(threads := Goto(s, t, if fd in s.reg.byFd then Looked(s.reg.byFd[fd]) else Done))
    case Guard(t) =>
      var c := s.threads[t].pc.c;
      if c.id in s.processing then s.(threads := Goto(s, t, Done))
      else s.(processing := s.processing[c.id := t],
              threads := s.threads[t := s.threads[t].(pc := Working, guarding := Some(c))])
    case Evict(t) => s.(threads := Goto(s, t, Evicting(s.threads[t].guarding.value, false)))
    case RemoveEntry(t) =>
      var Evicting(c, quiet) := s.threads[t].pc;
      if c.id in s.reg.byID then
        s.(reg := Removed(s.reg, c.id), threads := Goto(s, t, Closing(s.reg.byID[c.id], quiet)))
      else s.(threads := Goto(s, t, Done))
    case Close(t) =>
      var Closing(c, quiet) := s.threads[t].pc;
      s.(open := s.open - {c.fd},
         threads := Goto(s, t, if quiet then Done else Firing(c)),
         dropped := if quiet then s.dropped + {c.id} else s.dropped)
    case Fire(t) =>
      s.(fired := s.fired + multiset{s.threads[t].pc.c.id}, threads := Goto(s, t, Done))
    case Unguard(t) =>
      s.(processing := s.processing - {s.threads[t].guarding.value.id},
         threads := s.threads[t := s.threads[t].(pc := Done, guarding := None)])
    case Release(t) => s.(threads := s.threads - {t}, slots := s.slots - {t})
  }

  // ----- invariants -----

  ghost predicate Known(s: State, c: Connection) {
    c.id in s.added && c.id in s.born && s.born[c.id] == c
  }

  /** Every reference a thread holds is to a registered-at-some-time connection. */
  ghost predicate ThreadKnows(s: State, t: nat)
    requires t in s.threads
  {
    && (s.threads[t].pc.Looked? || s.threads[t].pc.Evicting? || s.threads[t].pc.Closing? || s.threads[t].pc.Firing? ==>
          Known(s, s.threads[t].pc.c))
    && (s.threads[t].guarding.Some? ==> Known(s, s.threads[t].guarding.value))
  }

  /** A worker's socket is that of a connection registered at some time, and the descriptor
      it has read is the socket's or 0. */
  ghost predicate SockKnown(s: State, t: nat)
    requires t in s.threads
  {
    && (s.threads[t].sock.Some? ==> Known(s, s.threads[t].sock.value))
    && (s.threads[t].pc.HasFd? ==>
          s.threads[t].sock.Some? && (s.threads[t].pc.fd == 0 || s.threads[t].pc.fd == s.threads[t].sock.value.fd))
  }

  ghost predicate SocketsKnown(s: State) {
    && (forall fd :: fd in s.open ==>
          fd > 0 && s.open[fd].fd == fd && s.open[fd].id in s.born && s.born[s.open[fd].id] == s.open[fd])
    && (forall id :: id in s.born ==> s.born[id].id == id)
  }

  ghost predicate References(s: State) {
    && SocketsKnown(s)
    && (forall id :: id in s.reg.byID ==> Known(s, s.reg.byID[id]))
    && (forall t :: t in s.threads ==> ThreadKnows(s, t))
    && (forall t :: t in s.threads ==> SockKnown(s, t))
  }

  /** A thread between the locked section of a removal and its end. */
  ghost predicate Carries(s: State, t: nat, id: string) {
    && t in s.threads
    && (s.threads[t].pc.Closing? || s.threads[t].pc.Firing?)
    && s.threads[t].pc.c.id == id
  }

  ghost predicate Finished(s: State, id: string) {
    id in s.fired || id in s.dropped
  }

  /** Registered, carried by one thread, or finished once: never two of these. */
  ghost predicate OneLife(s: State, id: string) {
    && (forall t, u :: Carries(s, t, id) && Carries(s, u, id) ==> t == u)
    && (forall t :: Carries(s, t, id) ==> id !in s.reg.byID && !Finished(s, id))
    && (id in s.reg.byID ==> !Finished(s, id))
    && s.fired[id] <= 1
    && (id in s.fired ==> id !in s.dropped)
    && (id !in s.added ==> id !in s.reg.byID && !Finished(s, id))
    && (id in s.added && id !in s.reg.byID && !Finished(s, id) ==> exists t :: Carries(s, t, id))
  }

  ghost predicate SocketOpen(s: State, c: Connection) {
    c.fd in s.open && s.open[c.fd] == c
  }

  ghost predicate EntryOwns(s: State, id: string) {
    id in s.reg.byID ==> SocketOpen(s, s.reg.byID[id])
  }

  ghost predicate CloserOwns(s: State, t: nat) {
    t in s.threads && s.threads[t].pc.Closing? ==> SocketOpen(s, s.threads[t].pc.c)
  }

  /** Whoever is registered, or removed but not yet closed, owns its descriptor. */
  ghost predicate Owners(s: State) {
    (forall id :: EntryOwns(s, id)) && (forall t :: CloserOwns(s, t))
  }

  ghost predicate Guards(s: State) {
    && (forall t :: t in s.threads && s.threads[t].guarding.Some? ==>
          s.threads[t].guarding.value.id in s.processing && s.processing[s.threads[t].guarding.value.id] == t)
    && (forall id :: id in s.processing ==>
          s.processing[id] in s.threads && s.threads[s.processing[id]].guarding.Some? &&
          s.threads[s.processing[id]].guarding.value.id == id)
    && (forall t :: t in s.threads && s.threads[t].guarding.Some? ==>
          !s.threads[t].pc.Idle? && !s.threads[t].pc.HasFd? && !s.threads[t].pc.Looked?)
  }

  /** A worker, from its start to its end, holds a slot of the pool; only workers get as far
      as a guard. */
  ghost predicate HasSlot(s: State, t: nat)
    requires t in s.threads
  {
    && (s.threads[t].sock.Some? ==> t in s.slots)
    && (s.threads[t].pc.Idle? || s.threads[t].pc.HasFd? || s.threads[t].pc.Looked? || s.threads[t].guarding.Some? ==>
          s.threads[t].sock.Some?)
  }

  ghost predicate Pool(s: State, pool: nat) {
    && |s.slots| <= pool
    && s.slots <= s.threads.Keys
    && forall t :: t in s.threads ==> HasSlot(s, t)
  }

  ghost predicate Inv(s: State, pool: nat) {
    && Inverse(s.reg)
    && References(s)
    && Owners(s)
    && (forall id :: OneLife(s, id))
    && Guards(s)
    && Pool(s, pool)
  }

  // ----- each step keeps them -----

  lemma AddedInverse(r: Registry, c: Connection)
    requires Inverse(r) && c.id !in r.byID && c.fd !in r.byFd
    ensures Inverse(Added(r, c))
  {
  }

  lemma RemovedInverse(r: Registry, id: string, fd: int)
    requires Inverse(r)
    ensures Inverse(Removed(r, id)) && Inverse(RemovedByFd(r, fd))
  {
  }

  /** A descriptor that has just been handed out is not registered. */
  lemma NewcomerUnregistered(s: State, c: Connection)
    requires Inverse(s.reg) && References(s) && Owners(s)
    requires c.fd in s.open && s.open[c.fd] == c && c.id !in s.added
    ensures c.id !in s.reg.byID && c.fd !in s.reg.byFd
  {
    assert c.fd in s.reg.byFd ==> EntryOwns(s, s.reg.byFd[c.fd].id);
  }

  lemma KeepsInverse(s: State, pool: nat, step: Step)
    requires Inv(s, pool) && Enabled(s, pool, step)
    ensures Inverse(Do(s, pool, step).reg)
  {
    hide Guards, Pool, OneLife, Inverse, References, Owners, Added, Removed, RemovedByFd;
    match step
    case Add(c) =>
      NewcomerUnregistered(s, c);
      AddedInverse(s.reg, c);
    case StartRemoveByFd(_, fd) => RemovedInverse(s.reg, "", fd);
    case RemoveEntry(t) => RemovedInverse(s.reg, s.threads[t].pc.c.id, 0);
    case _ =>
  }

  lemma KeepsSocketsKnown(s: State, pool: nat, step: Step)
    requires SocketsKnown(s) && Enabled(s, pool, step)
    ensures SocketsKnown(Do(s, pool, step))
  {
    match step
    case Open(c) =>
    case Close(t) =>
    case _ =>
  }

  lemma KnownStays(s: State, pool: nat, step: Step, c: Connection)
    requires Known(s, c) && Enabled(s, pool, step)
    ensures Known(Do(s, pool, step), c)
  {
  }

  /** What the acting thread may take from the registry or the request. */
  lemma ActorKnows(s: State, pool: nat, step: Step)
    requires Inverse(s.reg) && References(s) && Enabled(s, pool, step)
    ensures var s' := Do(s, pool, step);
      && (forall id :: id in s.reg.byID ==> Known(s', s.reg.byID[id]))
      && (step.StartRemove? ==> Known(s', step.c))
  {
    hide Do, ThreadKnows, SockKnown, SocketsKnown;
    forall id | id in s.reg.byID ensures Known(Do(s, pool, step), s.reg.byID[id]) {
      KnownStays(s, pool, step, s.reg.byID[id]);
    }
    if step.StartRemove? {
      KnownStays(s, pool, step, step.c);
    }
  }

  lemma KeepsThreadKnows(s: State, pool: nat, step: Step, t: nat)
    requires Inverse(s.reg) && References(s) && Enabled(s, pool, step) && t in Do(s, pool, step).threads
    ensures ThreadKnows(Do(s, pool, step), t)
  {
    hide FdOf, SockKnown, Known, SocketsKnown, References, Added, Removed, RemovedByFd;
    ActorKnows(s, pool, step);
    if t in s.threads {
      assert ThreadKnows(s, t) by { ThreadReferences(s, t); }
      ThreadKeepsKnown(s, pool, step, t);
    }
  }

  lemma ThreadReferences(s: State, t: nat)
    requires References(s) && t in s.threads
    ensures ThreadKnows(s, t) && SockKnown(s, t)
  {
    hide ThreadKnows, SockKnown, SocketsKnown;
  }

  lemma ThreadKeepsKnown(s: State, pool: nat, step: Step, t: nat)
    requires Enabled(s, pool, step) && t in s.threads && ThreadKnows(s, t)
    ensures var s', pc := Do(s, pool, step), s.threads[t].pc;
      && (pc.Looked? || pc.Evicting? || pc.Closing? || pc.Firing? ==> Known(s', pc.c))
      && (s.threads[t].guarding.Some? ==> Known(s', s.threads[t].guarding.value))
  {
    hide Do, Known, Enabled;
    var pc := s.threads[t].pc;
    if pc.Looked? || pc.Evicting? || pc.Closing? || pc.Firing? {
      KnownStays(s, pool, step, pc.c);
    }
    if s.threads[t].guarding.Some? {
      KnownStays(s, pool, step, s.threads[t].guarding.value);
    }
  }

  lemma KeepsSockKnown(s: State, pool: nat, step: Step, t: nat)
    requires Enabled(s, pool, step) && t in Do(s, pool, step).threads
    requires t in s.threads ==> SockKnown(s, t)
    ensures SockKnown(Do(s, pool, step), t)
  {
    hide Added, Removed, RemovedByFd;
    var s' := Do(s, pool, step);
    if t in s.threads && s.threads[t].sock.Some? {
      KnownStays(s, pool, step, s.threads[t].sock.value);
    }
  }

  lemma KeepsRegistryKnown(s: State, pool: nat, step: Step, id: string)
    requires References(s) && Enabled(s, pool, step) && id in Do(s, pool, step).reg.byID
    ensures Known(Do(s, pool, step), Do(s, pool, step).reg.byID[id])
  {
    var s' := Do(s, pool, step);
    if id in s.reg.byID && s.reg.byID[id] == s'.reg.byID[id] {
      KnownStays(s, pool, step, s.reg.byID[id]);
    }
  }

  lemma KeepsReferences(s: State, pool: nat, step: Step)
    requires Inv(s, pool) && Enabled(s, pool, step)
    ensures References(Do(s, pool, step))
  {
    hide Guards, Pool, OneLife, Owners, Inverse, SocketsKnown, Known, ThreadKnows, SockKnown, Do, Enabled;
    var s' := Do(s, pool, step);
    KeepsSocketsKnown(s, pool, step);
    forall id | id in s'.reg.byID ensures Known(s', s'.reg.byID[id]) {
      KeepsRegistryKnown(s, pool, step, id);
    }
    forall t | t in s'.threads ensures ThreadKnows(s', t) {
      KeepsThreadKnows(s, pool, step, t);
    }
    forall t | t in s'.threads ensures SockKnown(s', t) {
      KeepsSockKnown(s, pool, step, t);
    }
  }

  lemma CloserIsAlone(s: State, pool: nat, t: nat)
    requires Inverse(s.reg) && References(s) && Owners(s) && Enabled(s, pool, Close(t))
    requires OneLife(s, s.threads[t].pc.c.id)
    ensures var fd := s.threads[t].pc.c.fd;
      && (forall id :: id in s.reg.byID ==> s.reg.byID[id].fd != fd)
      && (forall u :: u in s.threads && s.threads[u].pc.Closing? && u != t ==> s.threads[u].pc.c.fd != fd)
  {
    var c := s.threads[t].pc.c;
    assert Carries(s, t, c.id) && CloserOwns(s, t);
    assert forall id :: id in s.reg.byID ==> EntryOwns(s, id) && Known(s, s.reg.byID[id]);
    assert forall u :: u in s.threads && s.threads[u].pc.Closing? ==> CloserOwns(s, u) && ThreadKnows(s, u);
    assert forall u :: u in s.threads && s.threads[u].pc.Closing? && s.threads[u].pc.c.id == c.id ==>
             Carries(s, u, c.id);
  }

  lemma KeepsEntryOwns(s: State, pool: nat, step: Step, id: string)
    requires Enabled(s, pool, step) && EntryOwns(s, id)
    requires step.Close? && id in s.reg.byID ==> s.reg.byID[id].fd != s.threads[step.t].pc.c.fd
    ensures EntryOwns(Do(s, pool, step), id)
  {
    hide FdOf;
  }

  lemma KeepsCloserOwns(s: State, pool: nat, step: Step, t: nat)
    requires Enabled(s, pool, step) && CloserOwns(s, t) && Inverse(s.reg) && forall id :: EntryOwns(s, id)
    requires step.Close? && t != step.t && t in s.threads && s.threads[t].pc.Closing? ==>
               s.threads[t].pc.c.fd != s.threads[step.t].pc.c.fd
    ensures CloserOwns(Do(s, pool, step), t)
  {
    hide FdOf, Added, Removed, RemovedByFd;
    if step.StartRemoveByFd? {
      assert EntryOwns(s, s.reg.byFd[step.fd].id);
    } else if step.RemoveEntry? {
      assert EntryOwns(s, s.threads[step.t].pc.c.id);
    }
  }

  lemma KeepsOwners(s: State, pool: nat, step: Step)
    requires Inv(s, pool) && Enabled(s, pool, step)
    ensures Owners(Do(s, pool, step))
  {
    hide Guards, Pool, References, EntryOwns, CloserOwns, Do, Inverse;
    if step.Close? {
      assert OneLife(s, s.threads[step.t].pc.c.id);
      hide OneLife;
      CloserIsAlone(s, pool, step.t);
    }
    hide OneLife;
    forall id ensures EntryOwns(Do(s, pool, step), id) {
      KeepsEntryOwns(s, pool, step, id);
    }
    forall t ensures CloserOwns(Do(s, pool, step), t) {
      KeepsCloserOwns(s, pool, step, t);
    }
  }

  lemma GuardKeepsGuards(s: State, pool: nat, t: nat)
    requires Guards(s) && Enabled(s, pool, Guard(t))
    ensures Guards(Do(s, pool, Guard(t)))
  {
  }

  lemma UnguardKeepsGuards(s: State, pool: nat, t: nat)
    requires Guards(s) && Enabled(s, pool, Unguard(t))
    ensures Guards(Do(s, pool, Unguard(t)))
  {
  }

  /** What t guards, if it runs at all. */
  ghost function Guarding(s: State, t: nat): Option<Connection> {
    if t in s.threads then s.threads[t].guarding else None
  }

  ghost predicate BeforeGuard(s: State, t: nat) {
    t in s.threads && (s.threads[t].pc.Idle? || s.threads[t].pc.HasFd? || s.threads[t].pc.Looked?)
  }

  /** No other step changes a flag or what a thread guards. */
  lemma OthersLeaveGuards(s: State, pool: nat, step: Step, t: nat)
    requires Enabled(s, pool, step) && !step.Guard? && !step.Unguard?
    ensures Do(s, pool, step).processing == s.processing
    ensures Guarding(Do(s, pool, step), t) == Guarding(s, t)
  {
    hide FdOf, Added, Removed, RemovedByFd;
  }

  lemma OthersStayPastGuard(s: State, pool: nat, step: Step, t: nat)
    requires Enabled(s, pool, step) && !step.Guard? && !step.Unguard?
    requires Guarding(s, t).Some? ==> !BeforeGuard(s, t)
    ensures Guarding(s, t).Some? ==> !BeforeGuard(Do(s, pool, step), t)
  {
    hide FdOf, Added, Removed, RemovedByFd;
  }

  lemma GuardingIsPast(s: State, t: nat)
    requires Guards(s) && Guarding(s, t).Some?
    ensures !BeforeGuard(s, t)
  {
  }

  lemma GuardsTransfer(s: State, s': State)
    requires Guards(s) && s'.processing == s.processing
    requires forall t :: Guarding(s', t) == Guarding(s, t)
    requires forall t :: Guarding(s', t).Some? ==> !BeforeGuard(s', t)
    ensures Guards(s')
  {
    forall t | t in s'.threads && s'.threads[t].guarding.Some?
      ensures s'.threads[t].guarding.value.id in s'.processing && s'.processing[s'.threads[t].guarding.value.id] == t
      ensures !s'.threads[t].pc.Idle? && !s'.threads[t].pc.HasFd? && !s'.threads[t].pc.Looked?
    {
      assert Guarding(s', t) == Guarding(s, t);
    }
    forall id | id in s'.processing
      ensures s'.processing[id] in s'.threads && s'.threads[s'.processing[id]].guarding.Some? &&
              s'.threads[s'.processing[id]].guarding.value.id == id
    {
      assert Guarding(s', s.processing[id]) == Guarding(s, s.processing[id]);
    }
  }

  lemma OthersKeepGuards(s: State, pool: nat, step: Step)
    requires Guards(s) && Enabled(s, pool, step) && !step.Guard? && !step.Unguard?
    ensures Guards(Do(s, pool, step))
  {
    hide Guards, Do, Guarding, BeforeGuard;
    var s' := Do(s, pool, step);
    forall t ensures Guarding(s', t) == Guarding(s, t) && (Guarding(s', t).Some? ==> !BeforeGuard(s', t)) {
      OthersLeaveGuards(s, pool, step, t);
      if Guarding(s, t).Some? {
        GuardingIsPast(s, t);
      }
      OthersStayPastGuard(s, pool, step, t);
    }
    OthersLeaveGuards(s, pool, step, 0);
    GuardsTransfer(s, s');
  }

  lemma KeepsGuards(s: State, pool: nat, step: Step)
    requires Inv(s, pool) && Enabled(s, pool, step)
    ensures Guards(Do(s, pool, step))
  {
    hide Guards, Do;
    match step
    case Guard(t) => GuardKeepsGuards(s, pool, t);
    case Unguard(t) => UnguardKeepsGuards(s, pool, t);
    case _ => OthersKeepGuards(s, pool, step);
  }

  lemma KeepsHasSlot(s: State, pool: nat, step: Step, t: nat)
    requires Enabled(s, pool, step) && t in Do(s, pool, step).threads
    requires t in s.threads ==> HasSlot(s, t)
    ensures HasSlot(Do(s, pool, step), t)
  {
    hide FdOf, Added, Removed, RemovedByFd;
  }

  lemma KeepsSlots(s: State, pool: nat, step: Step)
    requires |s.slots| <= pool && s.slots <= s.threads.Keys && Enabled(s, pool, step)
    ensures |Do(s, pool, step).slots| <= pool && Do(s, pool, step).slots <= Do(s, pool, step).threads.Keys
  {
  }

  lemma KeepsPool(s: State, pool: nat, step: Step)
    requires Inv(s, pool) && Enabled(s, pool, step)
    ensures Pool(Do(s, pool, step), pool)
  {
    hide OneLife, Owners, References, Inverse, Guards, Do, Enabled, HasSlot;
    KeepsSlots(s, pool, step);
    forall t | t in Do(s, pool, step).threads ensures HasSlot(Do(s, pool, step), t) {
      KeepsHasSlot(s, pool, step, t);
    }
  }

  /** A locked section hands a registered connection to exactly one thread. */
  lemma RemoveEntryKeepsOneLife(s: State, pool: nat, t: nat, id: string)
    requires Inverse(s.reg) && OneLife(s, id) && Enabled(s, pool, RemoveEntry(t))
    ensures OneLife(Do(s, pool, RemoveEntry(t)), id)
  {
    var s' := Do(s, pool, RemoveEntry(t));
    assert forall u :: u != t ==> (Carries(s', u, id) <==> Carries(s, u, id));
    assert !Carries(s, t, id);
    assert Carries(s', t, id) <==> id in s.reg.byID && id !in s'.reg.byID;
    if w :| Carries(s, w, id) {
      assert Carries(s', w, id);
    }
  }

  lemma RemoveByFdKeepsOneLife(s: State, pool: nat, t: nat, fd: int, id: string)
    requires Inverse(s.reg) && References(s) && OneLife(s, id) && Enabled(s, pool, StartRemoveByFd(t, fd))
    ensures OneLife(Do(s, pool, StartRemoveByFd(t, fd)), id)
  {
    var s' := Do(s, pool, StartRemoveByFd(t, fd));
    assert forall u :: u != t ==> (Carries(s', u, id) <==> Carries(s, u, id));
    assert !Carries(s, t, id);
    assert Carries(s', t, id) <==> id in s.reg.byID && id !in s'.reg.byID;
    if w :| Carries(s, w, id) {
      assert Carries(s', w, id);
    }
  }

  lemma EndingKeepsOneLife(s: State, pool: nat, step: Step, id: string)
    requires References(s) && OneLife(s, id) && Enabled(s, pool, step)
    requires step.Close? || step.Fire?
    ensures OneLife(Do(s, pool, step), id)
  {
    var s' := Do(s, pool, step);
    assert forall t :: t != step.t ==> (Carries(s', t, id) <==> Carries(s, t, id));
    assert s.threads[step.t].pc.c.id == id ==> Carries(s, step.t, id);
    if w :| Carries(s, w, id) {
      assert w != step.t ==> Carries(s', w, id);
      assert w == step.t && step.Close? && !s.threads[w].pc.quiet ==> Carries(s', w, id);
    }
  }

  lemma OthersKeepOneLife(s: State, pool: nat, step: Step, id: string)
    requires References(s) && OneLife(s, id) && Enabled(s, pool, step)
    requires !step.RemoveEntry? && !step.StartRemoveByFd? && !step.Close? && !step.Fire?
    ensures OneLife(Do(s, pool, step), id)
  {
    var s' := Do(s, pool, step);
    assert forall t :: Carries(s', t, id) <==> Carries(s, t, id);
    assert step.Add? && step.c.id == id ==> forall t :: t in s.threads ==> ThreadKnows(s, t);
  }

  lemma KeepsOneLife(s: State, pool: nat, step: Step, id: string)
    requires Inv(s, pool) && Enabled(s, pool, step)
    ensures OneLife(Do(s, pool, step), id)
  {
    hide Guards, Pool, Owners, Do, References, Inverse;
    assert OneLife(s, id);
    hide OneLife;
    if step.RemoveEntry? {
      RemoveEntryKeepsOneLife(s, pool, step.t, id);
    } else if step.StartRemoveByFd? {
      RemoveByFdKeepsOneLife(s, pool, step.t, step.fd, id);
    } else if step.Close? || step.Fire? {
      EndingKeepsOneLife(s, pool, step, id);
    } else {
      OthersKeepOneLife(s, pool, step, id);
    }
  }

  lemma StepKeepsInv(s: State, pool: nat, step: Step)
    requires Inv(s, pool) && Enabled(s, pool, step)
    ensures Inv(Do(s, pool, step), pool)
  {
    KeepsInverse(s, pool, step);
    KeepsReferences(s, pool, step);
    KeepsOwners(s, pool, step);
    KeepsGuards(s, pool, step);
    KeepsPool(s, pool, step);
    forall id ensures OneLife(Do(s, pool, step), id) {
      KeepsOneLife(s, pool, step, id);
    }
  }

  // ----- runs -----

  const EMPTY := State(map[], map[], {}, Registry(map[], map[]), map[], {}, map[], multiset{}, {})

  ghost predicate IsRun(ss: seq<State>, steps: seq<Step>, pool: nat) {
    && |ss| == |steps| + 1
    && ss[0] == EMPTY
    && forall i :: 0 <= i < |steps| ==> Enabled(ss[i], pool, steps[i]) && ss[i + 1] == Do(ss[i], pool, steps[i])
  }

  lemma {:induction false} RunKeepsInv(ss: seq<State>, steps: seq<Step>, pool: nat, n: nat)
    requires IsRun(ss, steps, pool) && n < |ss|
    ensures Inv(ss[n], pool)
  {
    if n > 0 {
      hide Inv, Do, Enabled;
      RunKeepsInv(ss, steps, pool, n - 1);
      StepKeepsInv(ss[n - 1], pool, steps[n - 1]);
    }
  }

  /** In every interleaving the maps stay inverse, and a lookup by descriptor or by ID
      finds the connection that owns the descriptor at that moment, reused or not. */
  lemma LookupFindsOwner(ss: seq<State>, steps: seq<Step>, pool: nat, n: nat, fd: int)
    requires IsRun(ss, steps, pool) && n < |ss|
    ensures Inverse(ss[n].reg)
    ensures fd in ss[n].reg.byFd ==> fd in ss[n].open && ss[n].reg.byFd[fd] == ss[n].open[fd]
  {
    hide OneLife, Guards, Pool, References;
    RunKeepsInv(ss, steps, pool, n);
    assert fd in ss[n].reg.byFd ==> EntryOwns(ss[n], ss[n].reg.byFd[fd].id);
  }

  /** However many threads race to remove it, a connection's disconnect callback runs at
      most once; and once it is no longer registered, either one thread still has the
      callback (or the quiet close) before it, or exactly one of the two has happened. */
  lemma DisconnectOnce(ss: seq<State>, steps: seq<Step>, pool: nat, n: nat, id: string)
    requires IsRun(ss, steps, pool) && n < |ss|
    ensures var s := ss[n];
      && s.fired[id] <= 1
      && (s.fired[id] == 1 ==> id in s.added && id !in s.reg.byID && id !in s.dropped)
      && (id in s.added && id !in s.reg.byID && s.fired[id] == 0 && id !in s.dropped ==> exists t :: Carries(s, t, id))
      && (forall t, u :: Carries(s, t, id) && Carries(s, u, id) ==> t == u)
  {
    hide Guards, Pool, References, Owners, Inverse;
    RunKeepsInv(ss, steps, pool, n);
    assert OneLife(ss[n], id);
  }

  ghost predicate AtCallback(s: State, t: nat, id: string) {
    t in s.threads && s.threads[t].pc.Firing? && s.threads[t].pc.c.id == id
  }

  /** A removal that has come as far as the callback, or has ended, has closed the socket. */
  ghost predicate Shut(s: State, id: string) {
    Finished(s, id) || (exists t :: AtCallback(s, t, id)) ==> id in s.born && !SocketOpen(s, s.born[id])
  }

  lemma SocketStaysShut(s: State, pool: nat, step: Step, id: string)
    requires Enabled(s, pool, step) && SocketsKnown(s) && id in s.born && !SocketOpen(s, s.born[id])
    ensures id in Do(s, pool, step).born && !SocketOpen(Do(s, pool, step), Do(s, pool, step).born[id])
  {
    hide FdOf, Added, Removed, RemovedByFd;
  }

  lemma OnlyCloseArrives(s: State, pool: nat, step: Step, id: string)
    requires Enabled(s, pool, step) && !(step.Close? && s.threads[step.t].pc.c.id == id)
    requires Finished(Do(s, pool, step), id) || exists t :: AtCallback(Do(s, pool, step), t, id)
    ensures Finished(s, id) || exists t :: AtCallback(s, t, id)
  {
    hide FdOf, Added, Removed, RemovedByFd;
    var s' := Do(s, pool, step);
    if Finished(s', id) {
      if !Finished(s, id) {
        assert AtCallback(s, step.t, id);
      }
    } else {
      var t :| AtCallback(s', t, id);
      assert AtCallback(s, t, id);
    }
  }

  lemma CloseShuts(s: State, pool: nat, t: nat)
    requires Enabled(s, pool, Close(t)) && Known(s, s.threads[t].pc.c)
    ensures var s', c := Do(s, pool, Close(t)), s.threads[t].pc.c;
      c.id in s'.born && s'.born[c.id] == c && !SocketOpen(s', c)
  {
  }

  lemma StepKeepsShut(s: State, pool: nat, step: Step, id: string)
    requires References(s) && Enabled(s, pool, step) && Shut(s, id)
    ensures Shut(Do(s, pool, step), id)
  {
    hide Do, Finished, AtCallback, SocketOpen, Known, SockKnown, SocketsKnown;
    if step.Close? && s.threads[step.t].pc.c.id == id {
      assert ThreadKnows(s, step.t);
      CloseShuts(s, pool, step.t);
    } else if Finished(Do(s, pool, step), id) || exists t :: AtCallback(Do(s, pool, step), t, id) {
      OnlyCloseArrives(s, pool, step, id);
      SocketStaysShut(s, pool, step, id);
    }
  }

  /** In every interleaving a connection whose callback has run or is about to, or that was
      dropped quietly, has had its socket closed, and its descriptor is free or another's. */
  lemma {:induction false} ClosedBeforeCallback(ss: seq<State>, steps: seq<Step>, pool: nat, n: nat, id: string)
    requires IsRun(ss, steps, pool) && n < |ss|
    ensures Shut(ss[n], id)
  {
    hide Do, Enabled;
    if n > 0 {
      hide Shut, Inverse, Owners, Guards, Pool, OneLife, References;
      ClosedBeforeCallback(ss, steps, pool, n - 1, id);
      RunKeepsInv(ss, steps, pool, n - 1);
      StepKeepsShut(ss[n - 1], pool, steps[n - 1], id);
    }
  }

  /** The step sets out to remove the connection and to tell the application. */
  ghost predicate AsksLoudly(s: State, step: Step, id: string) {
    || (step.StartRemove? && !step.quiet && step.c.id == id)
    || (step.Evict? && At(s, step.t) && s.threads[step.t].guarding.Some? && s.threads[step.t].guarding.value.id == id)
  }

  /** A thread on its way to the callback. */
  ghost predicate HeadsForCallback(s: State, t: nat, id: string) {
    && t in s.threads
    && (((s.threads[t].pc.Evicting? || s.threads[t].pc.Closing?) && !s.threads[t].pc.quiet) || s.threads[t].pc.Firing?)
    && s.threads[t].pc.c.id == id
  }

  lemma HeadingStep(s: State, pool: nat, step: Step, t: nat, id: string)
    requires Inverse(s.reg) && Enabled(s, pool, step) && HeadsForCallback(Do(s, pool, step), t, id)
    ensures HeadsForCallback(s, t, id) || AsksLoudly(s, step, id)
  {
    hide FdOf, Added, Removed, RemovedByFd;
  }

  lemma FiredStep(s: State, pool: nat, step: Step, id: string)
    requires Enabled(s, pool, step) && id in Do(s, pool, step).fired && id !in s.fired
    ensures step.Fire? && HeadsForCallback(s, step.t, id)
  {
    hide FdOf, Added, Removed, RemovedByFd;
  }

  /** The callback of a connection runs only after a removal that was to tell: never for one
      that was only dropped by its descriptor or quietly. */
  lemma {:induction false} CallbackWasAskedFor(ss: seq<State>, steps: seq<Step>, pool: nat, n: nat, id: string, t: nat)
    returns (i: nat)
    requires IsRun(ss, steps, pool) && n < |ss| && (id in ss[n].fired || HeadsForCallback(ss[n], t, id))
    ensures i < n && AsksLoudly(ss[i], steps[i], id)
  {
    hide Do, Enabled, AsksLoudly;
    if n > 0 {
      hide HeadsForCallback, Owners, Guards, Pool, OneLife, References, Inverse;
      var s, step := ss[n - 1], steps[n - 1];
      RunKeepsInv(ss, steps, pool, n - 1);
      if id in ss[n].fired {
        if id in s.fired {
          i := CallbackWasAskedFor(ss, steps, pool, n - 1, id, t);
        } else {
          FiredStep(s, pool, step, id);
          i := CallbackWasAskedFor(ss, steps, pool, n - 1, id, step.t);
        }
      } else {
        HeadingStep(s, pool, step, t, id);
        if AsksLoudly(s, step, id) {
          i := n - 1;
        } else {
          i := CallbackWasAskedFor(ss, steps, pool, n - 1, id, t);
        }
      }
    }
  }

  ghost predicate PastGuard(s: State, t: nat, id: string) {
    t in s.threads && s.threads[t].guarding.Some? && s.threads[t].guarding.value.id == id
  }

  ghost function Workers(s: State): set<nat> {
    set t | t in s.threads && s.threads[t].sock.Some?
  }

  /** At most one thread is past the guard of a connection, a set flag always has the
      thread that will clear it, and no more workers run than the pool holds. */
  lemma GuardAndPool(ss: seq<State>, steps: seq<Step>, pool: nat, n: nat, id: string)
    requires IsRun(ss, steps, pool) && n < |ss|
    ensures forall t, u :: PastGuard(ss[n], t, id) && PastGuard(ss[n], u, id) ==> t == u
    ensures id in ss[n].processing <==> exists t :: PastGuard(ss[n], t, id)
    ensures |Workers(ss[n])| <= pool && forall t :: PastGuard(ss[n], t, id) ==> t in Workers(ss[n])
  {
    hide OneLife, References, Owners, Inverse;
    RunKeepsInv(ss, steps, pool, n);
    var s := ss[n];
    assert id in s.processing ==> PastGuard(s, s.processing[id], id);
    assert forall t :: t in s.threads ==> HasSlot(s, t);
    SubsetSize(Workers(s), s.slots);
  }

  lemma {:induction false} SubsetSize(a: set<nat>, b: set<nat>)
    requires a <= b
    ensures |a| <= |b|
  {
    if a != {} {
      var x :| x in a;
      SubsetSize(a - {x}, b - {x});
    }
  }

  // ----- whose connection a worker handles -----

  /** Everything a worker holds is the connection whose socket it was started for. */
  ghost predicate KeepsToOwn(s: State, t: nat) {
    t in s.threads && s.threads[t].sock.Some? ==>
      var own, pc, guarding := s.threads[t].sock.value, s.threads[t].pc, s.threads[t].guarding;
      && (pc.Looked? || pc.Evicting? || pc.Closing? || pc.Firing? ==> pc.c == own)
      && (guarding.Some? ==> guarding.value == own)
  }

  /** t looks its connection up and finds one, though its own socket has been closed since
      it read the descriptor. */
  ghost predicate LooksUpTooLate(s: State, step: Step, t: nat) {
    && step == Lookup(t) && At(s, t) && s.threads[t].pc.HasFd? && s.threads[t].sock.Some?
    && s.threads[t].pc.fd in s.reg.byFd && !SocketOpen(s, s.threads[t].sock.value)
  }

  /** What is found is the worker's own connection exactly while its socket is open. */
  lemma LookupFindsOwn(s: State, pool: nat, t: nat)
    requires Inverse(s.reg) && SocketsKnown(s) && Owners(s)
    requires t in s.threads && SockKnown(s, t) && s.threads[t].pc.HasFd? && s.threads[t].pc.fd in s.reg.byFd
    ensures s.threads[t].sock.Some?
    ensures s.reg.byFd[s.threads[t].pc.fd] == s.threads[t].sock.value <==> SocketOpen(s, s.threads[t].sock.value)
  {
    assert EntryOwns(s, s.reg.byFd[s.threads[t].pc.fd].id);
  }

  lemma EntryIsTheOne(s: State, t: nat)
    requires Inverse(s.reg) && References(s) && t in s.threads && s.threads[t].pc.Evicting?
    ensures s.threads[t].pc.c.id in s.reg.byID ==> s.reg.byID[s.threads[t].pc.c.id] == s.threads[t].pc.c
  {
    assert ThreadKnows(s, t);
  }

  lemma LookupKeepsToOwn(s: State, pool: nat, t: nat)
    requires Inverse(s.reg) && SocketsKnown(s) && Owners(s) && Enabled(s, pool, Lookup(t))
    requires SockKnown(s, t) && KeepsToOwn(s, t)
    ensures KeepsToOwn(Do(s, pool, Lookup(t)), t) <==> !LooksUpTooLate(s, Lookup(t), t)
  {
    hide Inverse, SocketsKnown, Owners, SocketOpen;
    if s.threads[t].pc.fd in s.reg.byFd {
      LookupFindsOwn(s, pool, t);
    }
  }

  lemma OthersKeepToOwn(s: State, pool: nat, step: Step, t: nat)
    requires Enabled(s, pool, step) && KeepsToOwn(s, t) && step != Lookup(t)
    requires step == RemoveEntry(t) && s.threads[t].pc.c.id in s.reg.byID ==>
               s.reg.byID[s.threads[t].pc.c.id] == s.threads[t].pc.c
    ensures KeepsToOwn(Do(s, pool, step), t)
  {
    hide FdOf, Added, Removed, RemovedByFd;
  }

  lemma StepKeepsToOwn(s: State, pool: nat, step: Step, t: nat)
    requires Inv(s, pool) && Enabled(s, pool, step) && KeepsToOwn(s, t)
    ensures KeepsToOwn(Do(s, pool, step), t) <==> !LooksUpTooLate(s, step, t)
  {
    hide OneLife, Guards, Pool, Inverse, Owners, SocketsKnown, ThreadKnows, SockKnown, Do, KeepsToOwn, SocketOpen;
    if step == Lookup(t) {
      LookupKeepsToOwn(s, pool, t);
    } else {
      if step == RemoveEntry(t) {
        EntryIsTheOne(s, t);
      }
      OthersKeepToOwn(s, pool, step, t);
    }
  }

  /** Throughout a run a worker handles only the connection it was started for exactly when
      it never looks one up too late. */
  lemma {:induction false} OwnIsExact(ss: seq<State>, steps: seq<Step>, pool: nat, t: nat, n: nat)
    requires IsRun(ss, steps, pool) && n < |ss|
    ensures (forall k :: 0 <= k <= n ==> KeepsToOwn(ss[k], t)) <==>
            forall i :: 0 <= i < n ==> !LooksUpTooLate(ss[i], steps[i], t)
  {
    hide Inv, Do, Enabled, LooksUpTooLate;
    if n > 0 {
      hide KeepsToOwn;
      OwnIsExact(ss, steps, pool, t, n - 1);
      OwnStep(ss, steps, pool, t, n - 1);
      hide IsRun;
      assert (forall k :: 0 <= k <= n ==> KeepsToOwn(ss[k], t)) <==>
             (forall k :: 0 <= k <= n - 1 ==> KeepsToOwn(ss[k], t)) && KeepsToOwn(ss[n], t);
      assert (forall i :: 0 <= i < n ==> !LooksUpTooLate(ss[i], steps[i], t)) <==>
             (forall i :: 0 <= i < n - 1 ==> !LooksUpTooLate(ss[i], steps[i], t)) &&
             !LooksUpTooLate(ss[n - 1], steps[n - 1], t);
    }
  }

  lemma OwnStep(ss: seq<State>, steps: seq<Step>, pool: nat, t: nat, i: nat)
    requires IsRun(ss, steps, pool) && i < |steps|
    ensures |ss| == |steps| + 1
    ensures KeepsToOwn(ss[i], t) ==> (KeepsToOwn(ss[i + 1], t) <==> !LooksUpTooLate(ss[i], steps[i], t))
  {
    hide Inv, Do, Enabled, LooksUpTooLate, KeepsToOwn;
    RunKeepsInv(ss, steps, pool, i);
    if KeepsToOwn(ss[i], t) {
      StepKeepsToOwn(ss[i], pool, steps[i], t);
    }
  }

  lemma Extend(ss: seq<State>, steps: seq<Step>, pool: nat, step: Step) returns (ss': seq<State>, steps': seq<Step>)
    requires IsRun(ss, steps, pool) && Enabled(ss[|steps|], pool, step)
    ensures IsRun(ss', steps', pool) && steps' == steps + [step] && |ss'| == |ss| + 1 == |steps'| + 1
    ensures ss'[..|ss|] == ss && ss'[|steps'|] == Do(ss[|steps|], pool, step)
  {
    hide Enabled, Do;
    ss', steps' := ss + [Do(ss[|steps|], pool, step)], steps + [step];
  }

  const X := Connection("x", 5)
  const Y := Connection("y", 5)

  /** "x" is gone and its descriptor free, which a worker started for "x" still holds. */
  lemma DescriptorFreed(pool: nat) returns (ss: seq<State>, steps: seq<Step>)
    requires pool >= 1
    ensures IsRun(ss, steps, pool) && |steps| == 7 && |ss| == 8
    ensures ss[7] == State(map[], map["x" := X], {"x"}, Registry(map[], map[]), map[], {1},
                           map[1 := Thread(HasFd(5), None, Some(X)), 2 := Thread(Firing(X), None, None)],
                           multiset{}, {})
  {
    ss, steps := [EMPTY], [];
    ss, steps := Extend(ss, steps, pool, Open(X));
    ss, steps := Extend(ss, steps, pool, Add(X));
    ss, steps := Extend(ss, steps, pool, Spawn(1, X));
    assert ss[3].threads == map[1 := Thread(Idle, None, Some(X))] && ss[3].slots == {1};
    ss, steps := Extend(ss, steps, pool, ReadFd(1));
    ss, steps := Extend(ss, steps, pool, StartRemove(2, X, false));
    assert ss[5].threads == map[1 := Thread(HasFd(5), None, Some(X)), 2 := Thread(Evicting(X, false), None, None)];
    assert ss[5].reg == Registry(map["x" := X], map[5 := X]) && ss[5].open == map[5 := X];
    ss, steps := Extend(ss, steps, pool, RemoveEntry(2));
    ss, steps := Extend(ss, steps, pool, Close(2));
  }

  /** Such a lookup happens: "x" is removed and closed while its worker holds descriptor 5,
      "y" is accepted on 5, and the worker finds "y", reads from the closed socket of "x",
      and removes "y". */
  lemma WrongConnectionEvicted(pool: nat) returns (ss: seq<State>, steps: seq<Step>)
    requires pool >= 1
    ensures IsRun(ss, steps, pool) && |ss| == 13
    ensures 1 in ss[12].threads && ss[12].threads[1].sock == Some(X) && ss[12].threads[1].pc == Evicting(Y, false)
    ensures "y" in ss[12].reg.byID && SocketOpen(ss[12], Y)
  {
    ss, steps := DescriptorFreed(pool);
    ss, steps := Extend(ss, steps, pool, Open(Y));
    ss, steps := Extend(ss, steps, pool, Add(Y));
    assert ss[9].reg == Registry(map["y" := Y], map[5 := Y]);
    ss, steps := Extend(ss, steps, pool, Lookup(1));
    assert ss[10].threads[1] == Thread(Looked(Y), None, Some(X));
    ss, steps := Extend(ss, steps, pool, Guard(1));
    ss, steps := Extend(ss, steps, pool, Evict(1));
  }
}
