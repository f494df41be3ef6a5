/**
 The waiting queue in Redis (internal/matching/queue.go): a sorted set of sessions, a
 set per interest hash, a set per tag, and one record per session; every key but the
 sorted set expires.

 Conventions used throughout: times are milliseconds on one monotone clock; a key is
 live while the clock is below its expiry; one pipeline is one step with one clock
 reading; no Redis call fails.
 */
module MatchQueue {
  import opened Redis
  import opened InterestEncoding

  const KEY_TTL := 60_000

  type Index = map<string, Keyed<set<string>>>

  datatype Record = Record(interests: string, hash: string, joinedAt: int)

  datatype Entry = Entry(sessionID: string, interests: seq<string>, hash: string, joinedAt: int)

  datatype Store = Store(
    now: int,
    queue: map<string, int>,
    exact: Index,
    interest: Index,
    records: map<string, Keyed<Record>>)

  // ----- expiring sets -----

  /** SMEMBERS. */
  function Members(ix: Index, key: string, now: int): set<string> {
    if key in ix && now < ix[key].expireAt then ix[key].value else {}
  }

  /** SADD followed by EXPIRE. */
  function SAdd(ix: Index, key: string, sid: string, now: int): Index {
    ix[key := Keyed(Members(ix, key, now) + {sid}, now + KEY_TTL)]
  }

  /** SREM; Redis drops a set with its last member. */
  function SRem(ix: Index, key: string, sid: string, now: int): Index {
    if sid !in Members(ix, key, now) then ix
    else if ix[key].value == {sid} then ix - {key}
    else ix[key := Keyed(ix[key].value - {sid}, ix[key].expireAt)]
  }

  /** EXPIRE on a set that may be missing. */
  function Touch(ix: Index, key: string, now: int): Index {
    if Members(ix, key, now) == {} then ix else ix[key := Keyed(ix[key].value, now + KEY_TTL)]
  }

  function SAddAll(ix: Index, tags: seq<string>, sid: string, now: int): Index {
    if tags == [] then ix
    else SAdd(SAddAll(ix, tags[..|tags| - 1], sid, now), tags[|tags| - 1], sid, now)
  }

  function SRemAll(ix: Index, tags: seq<string>, sid: string, now: int): Index {
    if tags == [] then ix
    else SRem(SRemAll(ix, tags[..|tags| - 1], sid, now), tags[|tags| - 1], sid, now)
  }

  function TouchAll(ix: Index, tags: seq<string>, now: int): Index {
    if tags == [] then ix
    else Touch(TouchAll(ix, tags[..|tags| - 1], now), tags[|tags| - 1], now)
  }

  // ----- the operations as functions of the whole store -----

  function GetEntry(s: Store, sid: string): Option<Entry> {
    if sid in s.records && s.now < s.records[sid].expireAt then
      var r := s.records[sid].value;
      Some(Entry(sid, Decode(r.interests), r.hash, r.joinedAt))
    else None
  }

  function Enqueued(s: Store, digest: Digest, sid: string, tags: seq<string>): Store {
    var hash := InterestsHash(digest, tags);
    Store(s.now,
          s.queue[sid := s.now],
          SAdd(s.exact, hash, sid, s.now),
          SAddAll(s.interest, tags, sid, s.now),
          s.records[sid := Keyed(Record(Join(tags), hash, s.now), s.now + KEY_TTL)])
  }

  /** Dequeue does nothing for a session whose record is missing or expired. */
  function Dequeued(s: Store, sid: string): Store {
    match GetEntry(s, sid)
    case None => s
    case Some(e) =>
      Store(s.now,
            s.queue - {sid},
            SRem(s.exact, e.hash, sid, s.now),
            SRemAll(s.interest, e.interests, sid, s.now),
            s.records - {sid})
  }

  function Refreshed(s: Store, sid: string): Store {
    match GetEntry(s, sid)
    case None => s
    case Some(e) =>
      Store(s.now,
            s.queue,
            Touch(s.exact, e.hash, s.now),
            TouchAll(s.interest, e.interests, s.now),
            s.records[sid := Keyed(s.records[sid].value, s.now + KEY_TTL)])
  }

  // ----- what sets hold after a run of additions, removals or refreshes -----

  /** sid is a member of key, and stays one until time until. */
  ghost predicate Holds(ix: Index, key: string, sid: string, until: int) {
    key in ix && sid in ix[key].value && until <= ix[key].expireAt
  }

  lemma {:induction false} SAddAllMembers(ix: Index, tags: seq<string>, sid: string, now: int, key: string)
    ensures Members(SAddAll(ix, tags, sid, now), key, now) ==
            Members(ix, key, now) + if key in tags then {sid} else {}
    ensures key in tags ==> Holds(SAddAll(ix, tags, sid, now), key, sid, now + KEY_TTL)
  {
    if tags != [] {
      SAddAllMembers(ix, tags[..|tags| - 1], sid, now, key);
      assert tags == tags[..|tags| - 1] + [tags[|tags| - 1]];
    }
  }

  lemma {:induction false} SRemAllMembers(ix: Index, tags: seq<string>, sid: string, now: int, key: string)
    ensures Members(SRemAll(ix, tags, sid, now), key, now) ==
            Members(ix, key, now) - if key in tags then {sid} else {}
  {
    if tags != [] {
      SRemAllMembers(ix, tags[..|tags| - 1], sid, now, key);
      assert tags == tags[..|tags| - 1] + [tags[|tags| - 1]];
    }
  }

  lemma {:induction false} TouchAllMembers(ix: Index, tags: seq<string>, now: int, key: string)
    ensures Members(TouchAll(ix, tags, now), key, now) == Members(ix, key, now)
    ensures key in tags ==>
              forall sid :: sid in Members(ix, key, now) ==> Holds(TouchAll(ix, tags, now), key, sid, now + KEY_TTL)
  {
    if tags != [] {
      TouchAllMembers(ix, tags[..|tags| - 1], now, key);
      assert tags == tags[..|tags| - 1] + [tags[|tags| - 1]];
    }
  }

  lemma {:induction false} SAddAllKeeps(ix: Index, tags: seq<string>, sid: string, now: int,
                                        key: string, x: string, until: int)
    requires Holds(ix, key, x, until) && now < until <= now + KEY_TTL
    ensures Holds(SAddAll(ix, tags, sid, now), key, x, until)
  {
    if tags != [] {
      SAddAllKeeps(ix, tags[..|tags| - 1], sid, now, key, x, until);
    }
  }

  lemma {:induction false} SRemAllKeeps(ix: Index, tags: seq<string>, sid: string, now: int,
                                        key: string, x: string, until: int)
    requires Holds(ix, key, x, until) && x != sid
    ensures Holds(SRemAll(ix, tags, sid, now), key, x, until)
  {
    if tags != [] {
      SRemAllKeeps(ix, tags[..|tags| - 1], sid, now, key, x, until);
    }
  }

  lemma {:induction false} TouchAllKeeps(ix: Index, tags: seq<string>, now: int, key: string, x: string, until: int)
    requires Holds(ix, key, x, until) && now < until <= now + KEY_TTL
    ensures Holds(TouchAll(ix, tags, now), key, x, until)
  {
    if tags != [] {
      TouchAllKeeps(ix, tags[..|tags| - 1], now, key, x, until);
    }
  }

  // ----- coherence of the queue, the records and the indexes -----

  /** The tags and the hash a session waits under. */
  function TagsOf(s: Store, sid: string): seq<string>
    requires sid in s.records
  {
    Decode(s.records[sid].value.interests)
  }

  function HashOf(s: Store, sid: string): string
    requires sid in s.records
  {
    s.records[sid].value.hash
  }

  /** The record of a queued session carries its score and is live; it was written for a
      full lifetime at the latest request or refresh. */
  ghost predicate HasRecord(s: Store, sid: string)
    requires sid in s.queue
  {
    && sid in s.records
    && s.records[sid].value.joinedAt == s.queue[sid] <= s.now < s.records[sid].expireAt
    && s.queue[sid] + KEY_TTL <= s.records[sid].expireAt <= s.now + KEY_TTL
  }

  ghost predicate Recorded(s: Store) {
    forall sid :: sid in s.queue ==> HasRecord(s, sid)
  }

  /** A queued session is indexed under its hash for at least as long as its own record
      lives. */
  ghost predicate HashIndexed(s: Store, sid: string) {
    sid in s.records && Holds(s.exact, HashOf(s, sid), sid, s.records[sid].expireAt)
  }

  /** Whoever is queued can be found through its record and its hash. */
  ghost predicate HashCovered(s: Store) {
    Recorded(s) && forall sid :: sid in s.queue ==> HashIndexed(s, sid)
  }

  /** The same for its hash and each of its tags. */
  ghost predicate Indexed(s: Store, sid: string) {
    && HashIndexed(s, sid)
    && forall t :: t in TagsOf(s, sid) ==> Holds(s.interest, t, sid, s.records[sid].expireAt)
  }

  /** Whoever is queued can be found through its record, its hash and its tags. */
  ghost predicate Covered(s: Store) {
    Recorded(s) && forall sid :: sid in s.queue ==> Indexed(s, sid)
  }

  ghost predicate WaitsUnderHash(s: Store, sid: string, hash: string) {
    sid in s.queue && sid in s.records && HashOf(s, sid) == hash
  }

  ghost predicate WaitsUnderTag(s: Store, sid: string, tag: string) {
    sid in s.queue && sid in s.records && tag in TagsOf(s, sid)
  }

  ghost predicate ExactSound(s: Store) {
    forall k, sid :: sid in Members(s.exact, k, s.now) ==> WaitsUnderHash(s, sid, k)
  }

  ghost predicate InterestSound(s: Store) {
    forall k, sid :: sid in Members(s.interest, k, s.now) ==> WaitsUnderTag(s, sid, k)
  }

  /** Nothing live in an index or among the records belongs to a session that is not
      queued, or not queued under that hash or tag. */
  ghost predicate Sound(s: Store) {
    && ExactSound(s)
    && InterestSound(s)
    && forall sid :: sid in s.records && s.now < s.records[sid].expireAt ==> sid in s.queue
  }

  /** Whoever is found under a hash is queued under it. */
  ghost predicate HashAgrees(s: Store) {
    HashCovered(s) && ExactSound(s)
  }

  /** Whoever is found is queued as well. */
  ghost predicate Coherent(s: Store) {
    Covered(s) && Sound(s)
  }

  /** In a covered store a queued session is a member of the live sets of its hash and of
      each of its tags. */
  lemma QueuedIsFound(s: Store, x: string)
    requires Covered(s) && x in s.queue
    ensures GetEntry(s, x).Some? && GetEntry(s, x).value.joinedAt == s.queue[x]
    ensures x in Members(s.exact, HashOf(s, x), s.now)
    ensures forall t :: t in TagsOf(s, x) ==> x in Members(s.interest, t, s.now)
  {
    assert HasRecord(s, x) && Indexed(s, x);
    forall t | t in TagsOf(s, x) ensures x in Members(s.interest, t, s.now) {
      assert Holds(s.interest, t, x, s.records[x].expireAt);
    }
  }

  /** In a coherent store each index set is what a scan of the queue would collect. */
  lemma IndexesEqualScan(s: Store, key: string)
    requires Coherent(s)
    ensures Members(s.exact, key, s.now) == set x | x in s.queue && WaitsUnderHash(s, x, key)
    ensures Members(s.interest, key, s.now) == set x | x in s.queue && WaitsUnderTag(s, x, key)
  {
    forall x | x in s.queue
      ensures HashOf(s, x) == key ==> x in Members(s.exact, key, s.now)
      ensures key in TagsOf(s, x) ==> x in Members(s.interest, key, s.now)
    {
      QueuedIsFound(s, x);
    }
  }

  /** While the hash index agrees with the queue, its sets are what a scan would collect. */
  lemma HashSetsEqualScan(s: Store, key: string)
    requires HashAgrees(s)
    ensures Members(s.exact, key, s.now) == set x | x in s.queue && WaitsUnderHash(s, x, key)
  {
    forall x | x in s.queue && WaitsUnderHash(s, x, key) ensures x in Members(s.exact, key, s.now) {
      assert HasRecord(s, x) && HashIndexed(s, x);
    }
  }

  // ----- Enqueue -----

  /** Joining again while queued repeats the hash. */
  ghost predicate RepeatsHash(s: Store, digest: Digest, sid: string, tags: seq<string>) {
    sid in s.queue && sid in s.records ==> HashOf(s, sid) == InterestsHash(digest, tags)
  }

  /** Joining again while queued leaves no stale index entry: same hash, no tag dropped. */
  ghost predicate LeavesNothingBehind(s: Store, digest: Digest, sid: string, tags: seq<string>) {
    sid in s.queue && sid in s.records ==>
      HashOf(s, sid) == InterestsHash(digest, tags) && forall t :: t in TagsOf(s, sid) ==> t in tags
  }

  lemma EnqueuedIndexes(s: Store, digest: Digest, sid: string, tags: seq<string>)
    ensures var s' := Enqueued(s, digest, sid, tags);
      && (forall k, x :: x in Members(s'.exact, k, s.now) <==>
            x in Members(s.exact, k, s.now) || (x == sid && k == InterestsHash(digest, tags)))
      && (forall k, x :: x in Members(s'.interest, k, s.now) <==>
            x in Members(s.interest, k, s.now) || (x == sid && k in tags))
  {
    var s' := Enqueued(s, digest, sid, tags);
    forall k, x
      ensures x in Members(s'.interest, k, s.now) <==> x in Members(s.interest, k, s.now) || (x == sid && k in tags)
    {
      SAddAllMembers(s.interest, tags, sid, s.now, k);
    }
  }

  /** A session that joins is a member of its new tag sets and of those it was in. */
  lemma EnqueuedTagMember(s: Store, digest: Digest, sid: string, tags: seq<string>, t: string)
    requires t in tags || sid in Members(s.interest, t, s.now)
    requires InterestSound(Enqueued(s, digest, sid, tags))
    ensures t in Decode(Join(tags))
  {
    var s' := Enqueued(s, digest, sid, tags);
    SAddAllMembers(s.interest, tags, sid, s.now, t);
    assert sid in Members(s'.interest, t, s'.now);
    assert t in TagsOf(s', sid);
  }

  lemma EnqueuedHashMember(s: Store, digest: Digest, sid: string, tags: seq<string>, hash: string)
    requires sid in Members(s.exact, hash, s.now)
    requires ExactSound(Enqueued(s, digest, sid, tags))
    ensures hash == InterestsHash(digest, tags)
  {
    var s' := Enqueued(s, digest, sid, tags);
    assert sid in Members(s'.exact, hash, s'.now);
    assert HashOf(s', sid) == hash;
  }

  lemma EnqueuedUnsound(s: Store, digest: Digest, sid: string, tags: seq<string>)
    requires Coherent(s)
    requires Sound(Enqueued(s, digest, sid, tags))
    ensures RoundTrips(tags) && LeavesNothingBehind(s, digest, sid, tags)
  {
    forall t | t in tags ensures t in Decode(Join(tags)) {
      EnqueuedTagMember(s, digest, sid, tags, t);
    }
    LostTag(tags);
    DecodeJoin(tags);
    if sid in s.queue {
      IndexesEqualScan(s, HashOf(s, sid));
      EnqueuedHashMember(s, digest, sid, tags, HashOf(s, sid));
      forall t | t in TagsOf(s, sid) ensures t in tags {
        IndexesEqualScan(s, t);
        EnqueuedTagMember(s, digest, sid, tags, t);
      }
    }
  }

  lemma EnqueuedExactSound(s: Store, digest: Digest, sid: string, tags: seq<string>)
    requires Coherent(s) && LeavesNothingBehind(s, digest, sid, tags)
    ensures ExactSound(Enqueued(s, digest, sid, tags))
  {
    EnqueuedIndexes(s, digest, sid, tags);
  }

  lemma EnqueuedTagSound(s: Store, digest: Digest, sid: string, tags: seq<string>, k: string, x: string)
    requires Coherent(s) && RoundTrips(tags) && LeavesNothingBehind(s, digest, sid, tags)
    requires x in Members(Enqueued(s, digest, sid, tags).interest, k, s.now)
    ensures WaitsUnderTag(Enqueued(s, digest, sid, tags), x, k)
  {
    var s' := Enqueued(s, digest, sid, tags);
    SAddAllMembers(s.interest, tags, sid, s.now, k);
    if x == sid {
      DecodeJoin(tags);
      assert TagsOf(s', sid) == tags;
    } else {
      assert x in Members(s.interest, k, s.now);
    }
  }

  lemma EnqueuedInterestSound(s: Store, digest: Digest, sid: string, tags: seq<string>)
    requires Coherent(s) && RoundTrips(tags) && LeavesNothingBehind(s, digest, sid, tags)
    ensures InterestSound(Enqueued(s, digest, sid, tags))
  {
    var s' := Enqueued(s, digest, sid, tags);
    forall k, x | x in Members(s'.interest, k, s'.now) ensures WaitsUnderTag(s', x, k) {
      EnqueuedTagSound(s, digest, sid, tags, k, x);
    }
  }

  /** Joining, with whatever tags, leaves every queued session with a live record. */
  lemma EnqueueKeepsRecords(s: Store, digest: Digest, sid: string, tags: seq<string>)
    requires Recorded(s)
    ensures Recorded(Enqueued(s, digest, sid, tags))
  {
    hide InterestsHash, SAdd, SAddAll, Join;
    assert forall x :: x in s.queue ==> HasRecord(s, x);
  }

  lemma EnqueueKeepsHashCover(s: Store, digest: Digest, sid: string, tags: seq<string>)
    requires HashCovered(s)
    ensures HashCovered(Enqueued(s, digest, sid, tags))
  {
    hide InterestsHash, SAddAll, Join;
    EnqueueKeepsRecords(s, digest, sid, tags);
    assert forall x :: x in s.queue ==> HasRecord(s, x) && HashIndexed(s, x);
  }

  /** Joining keeps the hash index in agreement with the queue exactly when a session that
      is queued already repeats its hash, whatever becomes of its tags. */
  lemma EnqueueKeepsHashes(s: Store, digest: Digest, sid: string, tags: seq<string>)
    requires HashAgrees(s)
    ensures HashAgrees(Enqueued(s, digest, sid, tags)) <==> RepeatsHash(s, digest, sid, tags)
  {
    hide InterestsHash, SAddAll, SAdd, Join;
    var s' := Enqueued(s, digest, sid, tags);
    EnqueueKeepsHashCover(s, digest, sid, tags);
    EnqueuedIndexes(s, digest, sid, tags);
    if sid in s.queue {
      HashSetsEqualScan(s, HashOf(s, sid));
      assert HasRecord(s, sid);
      assert sid in Members(s.exact, HashOf(s, sid), s.now);
    }
  }

  lemma {:induction false} SAddAllSkips(ix: Index, tags: seq<string>, sid: string, now: int, key: string)
    requires key !in tags
    ensures key in SAddAll(ix, tags, sid, now) <==> key in ix
    ensures key in ix ==> SAddAll(ix, tags, sid, now)[key] == ix[key]
  {
    if tags != [] {
      SAddAllSkips(ix, tags[..|tags| - 1], sid, now, key);
    }
  }

  /** Every piece read back was a tag of the list, or the session is in its set already and
      for long enough. */
  ghost predicate PiecesIndexed(s: Store, sid: string, tags: seq<string>) {
    forall t :: t in Decode(Join(tags)) ==> t in tags || Holds(s.interest, t, sid, s.now + KEY_TTL)
  }

  lemma EnqueuedIndexed(s: Store, digest: Digest, sid: string, tags: seq<string>)
    ensures Indexed(Enqueued(s, digest, sid, tags), sid) <==> PiecesIndexed(s, sid, tags)
  {
    var s' := Enqueued(s, digest, sid, tags);
    hide InterestsHash, Decode, Join, SAddAll;
    forall t
      ensures Holds(s'.interest, t, sid, s.now + KEY_TTL) <==> t in tags || Holds(s.interest, t, sid, s.now + KEY_TTL)
    {
      if t in tags {
        SAddAllMembers(s.interest, tags, sid, s.now, t);
      } else {
        SAddAllSkips(s.interest, tags, sid, s.now, t);
      }
    }
    assert Holds(s'.exact, HashOf(s', sid), sid, s.now + KEY_TTL);
  }

  lemma EnqueuedKeepsIndexed(s: Store, digest: Digest, sid: string, tags: seq<string>, x: string)
    requires Covered(s) && x in s.queue && x != sid
    ensures Indexed(Enqueued(s, digest, sid, tags), x)
  {
    var s' := Enqueued(s, digest, sid, tags);
    hide InterestsHash, Decode, Join, SAddAll;
    assert HasRecord(s, x) && Indexed(s, x);
    forall t | t in TagsOf(s, x) ensures Holds(s'.interest, t, x, s.records[x].expireAt) {
      SAddAllKeeps(s.interest, tags, sid, s.now, t, x, s.records[x].expireAt);
    }
  }

  /** Joining keeps every queued session in the sets of its hash and tags exactly when the
      pieces its own list is read back as are sets it is in; tags without a comma always do. */
  lemma EnqueueKeepsCover(s: Store, digest: Digest, sid: string, tags: seq<string>)
    requires Covered(s)
    ensures Covered(Enqueued(s, digest, sid, tags)) <==> PiecesIndexed(s, sid, tags)
    ensures (forall t :: t in tags ==> ',' !in t) ==> PiecesIndexed(s, sid, tags)
  {
    var s' := Enqueued(s, digest, sid, tags);
    hide InterestsHash, Decode, Indexed, PiecesIndexed;
    EnqueueKeepsRecords(s, digest, sid, tags);
    EnqueuedIndexed(s, digest, sid, tags);
    forall x | x in s.queue && x != sid ensures Indexed(s', x) {
      EnqueuedKeepsIndexed(s, digest, sid, tags, x);
    }
    if forall t :: t in tags ==> ',' !in t {
      CommaFreeListed(s, sid, tags);
    }
  }

  lemma CommaFreeListed(s: Store, sid: string, tags: seq<string>)
    requires forall t :: t in tags ==> ',' !in t
    ensures PiecesIndexed(s, sid, tags)
  {
    hide Split;
    if tags != [""] {
      DecodeJoin(tags);
    }
  }

  /** Enqueue keeps the store coherent exactly when the list survives the comma encoding
      and the session, if already queued, drops neither its hash nor a tag. */
  lemma EnqueueKeepsCoherence(s: Store, digest: Digest, sid: string, tags: seq<string>)
    requires Coherent(s)
    ensures Coherent(Enqueued(s, digest, sid, tags)) <==>
              RoundTrips(tags) && LeavesNothingBehind(s, digest, sid, tags)
  {
    if RoundTrips(tags) && LeavesNothingBehind(s, digest, sid, tags) {
      EnqueuedExactSound(s, digest, sid, tags);
      EnqueuedInterestSound(s, digest, sid, tags);
      EnqueueKeepsCover(s, digest, sid, tags);
    }
    if Coherent(Enqueued(s, digest, sid, tags)) {
      EnqueuedUnsound(s, digest, sid, tags);
    }
  }

  // ----- Dequeue -----

  lemma DequeuedIndexes(s: Store, sid: string)
    requires GetEntry(s, sid).Some?
    ensures var s' := Dequeued(s, sid);
      && (forall k, x :: x in Members(s'.exact, k, s.now) <==>
            x in Members(s.exact, k, s.now) && !(x == sid && k == HashOf(s, sid)))
      && (forall k, x :: x in Members(s'.interest, k, s.now) <==>
            x in Members(s.interest, k, s.now) && !(x == sid && k in TagsOf(s, sid)))
  {
    var s' := Dequeued(s, sid);
    forall k, x
      ensures x in Members(s'.interest, k, s.now) <==>
              x in Members(s.interest, k, s.now) && !(x == sid && k in TagsOf(s, sid))
    {
      SRemAllMembers(s.interest, TagsOf(s, sid), sid, s.now, k);
    }
  }

  /** While every queued session has its record, Dequeue takes the session out of the queue
      and keeps the records of all others, whatever the indexes hold. */
  lemma DequeueKeepsRecords(s: Store, sid: string)
    requires Recorded(s)
    ensures var s' := Dequeued(s, sid);
      && Recorded(s')
      && s'.now == s.now
      && s'.queue == s.queue - {sid}
      && (forall x :: x in s'.queue ==> x in s'.records && x in s.records && s'.records[x] == s.records[x])
  {
    hide Decode, SRem, SRemAll;
    var s' := Dequeued(s, sid);
    if GetEntry(s, sid).None? {
      assert sid in s.queue ==> HasRecord(s, sid);
      assert s.queue - {sid} == s.queue;
    }
    forall x | x in s'.queue
      ensures x in s'.records && x in s.records && s'.records[x] == s.records[x] && HasRecord(s', x)
    {
      assert HasRecord(s, x);
    }
  }

  lemma DequeueKeepsHashCover(s: Store, sid: string)
    requires HashCovered(s)
    ensures HashCovered(Dequeued(s, sid))
  {
    hide Decode, SRemAll;
    DequeueKeepsRecords(s, sid);
    assert forall x :: x in s.queue ==> HashIndexed(s, x);
  }

  lemma DequeueKeepsHashes(s: Store, sid: string)
    requires HashAgrees(s)
    ensures HashAgrees(Dequeued(s, sid))
  {
    DequeueKeepsHashCover(s, sid);
    if GetEntry(s, sid).Some? {
      DequeuedIndexes(s, sid);
      hide Decode, SRem, SRemAll, Members, HashCovered;
      var s' := Dequeued(s, sid);
      forall k, x | x in Members(s'.exact, k, s'.now) ensures WaitsUnderHash(s', x, k) {
        assert WaitsUnderHash(s, x, k);
      }
    }
  }

  lemma DequeueKeepsCover(s: Store, sid: string)
    requires Covered(s)
    ensures Covered(Dequeued(s, sid))
  {
    var s' := Dequeued(s, sid);
    DequeueKeepsRecords(s, sid);
    if GetEntry(s, sid).Some? {
      forall x | x in s'.queue ensures Indexed(s', x) {
        assert Indexed(s, x);
        forall t | t in TagsOf(s, x) ensures Holds(s'.interest, t, x, s.records[x].expireAt) {
          SRemAllKeeps(s.interest, TagsOf(s, sid), sid, s.now, t, x, s.records[x].expireAt);
        }
      }
    }
  }

  lemma DequeuedSound(s: Store, sid: string)
    requires Coherent(s) && GetEntry(s, sid).Some?
    ensures ExactSound(Dequeued(s, sid)) && InterestSound(Dequeued(s, sid))
  {
    var s' := Dequeued(s, sid);
    DequeuedIndexes(s, sid);
    forall x | x in s.records && x != sid
      ensures x in s'.records && TagsOf(s', x) == TagsOf(s, x) && HashOf(s', x) == HashOf(s, x)
    {
    }
  }

  /** In a coherent store Dequeue removes the session everywhere and nothing else. */
  lemma DequeueKeepsCoherence(s: Store, sid: string)
    requires Coherent(s)
    ensures var s' := Dequeued(s, sid);
      && Coherent(s')
      && Absent(s', sid)
      && s'.queue == s.queue - {sid}
      && (forall k, x :: x != sid ==>
            && (x in Members(s'.exact, k, s.now) <==> x in Members(s.exact, k, s.now))
            && (x in Members(s'.interest, k, s.now) <==> x in Members(s.interest, k, s.now)))
      && (forall x :: x != sid ==> GetEntry(s', x) == GetEntry(s, x))
  {
    DequeueKeepsRecords(s, sid);
    DequeueKeepsCover(s, sid);
    if GetEntry(s, sid).Some? {
      DequeuedSound(s, sid);
      DequeuedIndexes(s, sid);
    }
  }

  /** Dequeue takes a queued session out of the queue exactly when its record is live;
      a session whose record has expired cannot be dequeued at all. */
  lemma DequeueTakesEffect(s: Store, sid: string, x: string)
    requires x in s.queue
    ensures x !in Dequeued(s, sid).queue <==> x == sid && GetEntry(s, sid).Some?
    ensures GetEntry(s, x).None? ==> GetEntry(Dequeued(s, sid), x).None?
  {
  }

  // ----- Dequeue against Enqueue -----

  /** Everything the queue's readers can observe. */
  ghost predicate SameView(s: Store, s': Store) {
    && s.now == s'.now
    && s.queue == s'.queue
    && (forall k, x :: x in Members(s.exact, k, s.now) <==> x in Members(s'.exact, k, s.now))
    && (forall k, x :: x in Members(s.interest, k, s.now) <==> x in Members(s'.interest, k, s.now))
    && (forall x :: GetEntry(s, x) == GetEntry(s', x))
  }

  ghost predicate Absent(s: Store, sid: string) {
    && sid !in s.queue
    && GetEntry(s, sid).None?
    && (forall k :: sid !in Members(s.exact, k, s.now))
    && (forall k :: sid !in Members(s.interest, k, s.now))
  }

  lemma EnqueuedThenDequeued(s: Store, digest: Digest, sid: string, tags: seq<string>)
    requires Absent(s, sid)
    ensures var s' := Dequeued(Enqueued(s, digest, sid, tags), sid);
      && s'.now == s.now && s'.queue == s.queue
      && (forall x :: GetEntry(s', x) == GetEntry(s, x))
      && (forall k, x :: x in Members(s'.exact, k, s.now) <==> x in Members(s.exact, k, s.now))
      && (forall k, x :: x in Members(s'.interest, k, s.now) <==>
            x in Members(s.interest, k, s.now) || (x == sid && k in tags && k !in Decode(Join(tags))))
  {
    var s1 := Enqueued(s, digest, sid, tags);
    EnqueuedIndexes(s, digest, sid, tags);
    DequeuedIndexes(s1, sid);
    assert TagsOf(s1, sid) == Decode(Join(tags)) && HashOf(s1, sid) == InterestsHash(digest, tags);
    assert Dequeued(s1, sid).queue == s.queue;
  }

  /** For a session that is nowhere in the store, Dequeue undoes Enqueue exactly when the
      interest list survives the comma encoding; otherwise a tag set keeps a stale member. */
  lemma DequeueUndoesEnqueue(s: Store, digest: Digest, sid: string, tags: seq<string>)
    requires Absent(s, sid)
    ensures SameView(Dequeued(Enqueued(s, digest, sid, tags), sid), s) <==> RoundTrips(tags)
  {
    var s' := Dequeued(Enqueued(s, digest, sid, tags), sid);
    EnqueuedThenDequeued(s, digest, sid, tags);
    LostTag(tags);
    if !RoundTrips(tags) {
      var t :| t in tags && t !in Decode(Join(tags));
      assert sid in Members(s'.interest, t, s.now);
    }
  }

  // ----- what goes wrong otherwise -----

  const EMPTY := Store(0, map[], map[], map[], map[])

  /** A tag with a comma: the session is gone, its entry in the tag's set is not. */
  lemma CommaTagStaysBehind(digest: Digest)
    ensures var s := Dequeued(Enqueued(EMPTY, digest, "x", ["a,b"]), "x");
      "x" !in s.queue && GetEntry(s, "x").None? && "x" in Members(s.interest, "a,b", s.now)
  {
    EnqueuedThenDequeued(EMPTY, digest, "x", ["a,b"]);
    var pieces := Decode(Join(["a,b"]));
    assert "a,b"[1] == ',' && ',' in "a,b";
    assert "a,b" !in pieces;
  }

  /** A second request with other tags while queued: the old tag's set keeps the session. */
  lemma RejoinLeavesOldTag(digest: Digest)
    ensures var s := Enqueued(EMPTY, digest, "x", ["a"]);
      Coherent(s) && !Coherent(Enqueued(s, digest, "x", ["b"]))
  {
    assert ',' !in "a" && ',' !in "b";
    EnqueueKeepsCoherence(EMPTY, digest, "x", ["a"]);
    var s := Enqueued(EMPTY, digest, "x", ["a"]);
    EnqueueKeepsCoherence(s, digest, "x", ["b"]);
    DecodeJoin(["a"]);
    assert "a" in TagsOf(s, "x") && "a" !in ["b"];
  }

  // ----- RefreshTTLs and the passage of time -----

  lemma RefreshedIndexes(s: Store, sid: string)
    requires GetEntry(s, sid).Some?
    ensures var s' := Refreshed(s, sid);
      && (forall k, x :: x in Members(s'.exact, k, s.now) <==> x in Members(s.exact, k, s.now))
      && (forall k, x :: x in Members(s'.interest, k, s.now) <==> x in Members(s.interest, k, s.now))
  {
    forall k {
      TouchAllMembers(s.interest, TagsOf(s, sid), s.now, k);
    }
  }

  lemma RefreshKeepsRecords(s: Store, sid: string)
    requires Recorded(s)
    ensures Recorded(Refreshed(s, sid)) && Refreshed(s, sid).queue == s.queue && Refreshed(s, sid).now == s.now
  {
    hide Decode, Touch, TouchAll;
    forall x | x in s.queue ensures HasRecord(Refreshed(s, sid), x) {
      assert HasRecord(s, x);
    }
  }

  lemma RefreshKeepsHashCover(s: Store, sid: string)
    requires HashCovered(s)
    ensures HashCovered(Refreshed(s, sid))
  {
    hide Decode, TouchAll;
    RefreshKeepsRecords(s, sid);
    assert forall x :: x in s.queue ==> HasRecord(s, x) && HashIndexed(s, x);
  }

  lemma RefreshKeepsHashes(s: Store, sid: string)
    requires HashAgrees(s)
    ensures HashAgrees(Refreshed(s, sid))
  {
    RefreshKeepsHashCover(s, sid);
    if GetEntry(s, sid).Some? {
      RefreshedIndexes(s, sid);
      hide Decode, Touch, TouchAll, Members, HashCovered;
      var s' := Refreshed(s, sid);
      forall k, x | x in Members(s'.exact, k, s'.now) ensures WaitsUnderHash(s', x, k) {
        assert WaitsUnderHash(s, x, k);
      }
    }
  }

  lemma RefreshedIndexed(s: Store, sid: string, x: string)
    requires Covered(s) && GetEntry(s, sid).Some? && x in s.queue
    ensures Indexed(Refreshed(s, sid), x)
  {
    var s' := Refreshed(s, sid);
    var tags := TagsOf(s, sid);
    assert HasRecord(s, x) && Indexed(s, x);
    assert Holds(s'.exact, HashOf(s, x), x, s'.records[x].expireAt);
    forall t | t in TagsOf(s, x) ensures Holds(s'.interest, t, x, s'.records[x].expireAt) {
      assert Holds(s.interest, t, x, s.records[x].expireAt);
      TouchAllMembers(s.interest, tags, s.now, t);
      TouchAllKeeps(s.interest, tags, s.now, t, x, s.records[x].expireAt);
    }
  }

  lemma RefreshKeepsCover(s: Store, sid: string)
    requires Covered(s)
    ensures Covered(Refreshed(s, sid))
  {
    RefreshKeepsRecords(s, sid);
    if GetEntry(s, sid).Some? {
      forall x | x in s.queue ensures Indexed(Refreshed(s, sid), x) {
        RefreshedIndexed(s, sid, x);
      }
    }
  }

  lemma RefreshedSound(s: Store, sid: string)
    requires Sound(s) && GetEntry(s, sid).Some?
    ensures Sound(Refreshed(s, sid))
  {
    var s' := Refreshed(s, sid);
    RefreshedIndexes(s, sid);
    forall x | x in s.records
      ensures x in s'.records && TagsOf(s', x) == TagsOf(s, x) && HashOf(s', x) == HashOf(s, x)
    {
    }
  }

  lemma RefreshKeepsCoherence(s: Store, sid: string)
    requires Coherent(s)
    ensures Coherent(Refreshed(s, sid)) && SameView(Refreshed(s, sid), s)
  {
    RefreshKeepsCover(s, sid);
    if GetEntry(s, sid).Some? {
      RefreshedSound(s, sid);
      RefreshedIndexes(s, sid);
    }
  }

  function Later(s: Store, now: int): Store {
    s.(now := now)
  }

  /** No queued session waits out the lifetime its record started with. */
  ghost predicate NobodyWaitsOut(s: Store, now: int) {
    s.now <= now && forall x :: x in s.queue ==> now < s.queue[x] + KEY_TTL
  }

  lemma TimeKeepsRecords(s: Store, now: int)
    requires Recorded(s) && NobodyWaitsOut(s, now)
    ensures Recorded(Later(s, now))
  {
    forall x | x in s.queue ensures HasRecord(Later(s, now), x) {
      assert HasRecord(s, x);
    }
  }

  lemma TimeKeepsHashCover(s: Store, now: int)
    requires HashCovered(s) && NobodyWaitsOut(s, now)
    ensures HashCovered(Later(s, now))
  {
    TimeKeepsRecords(s, now);
    assert forall x :: x in s.queue ==> HashIndexed(s, x);
  }

  lemma TimeKeepsHashes(s: Store, now: int)
    requires HashAgrees(s) && NobodyWaitsOut(s, now)
    ensures HashAgrees(Later(s, now))
  {
    TimeKeepsHashCover(s, now);
    assert forall k :: Members(Later(s, now).exact, k, now) <= Members(s.exact, k, s.now);
  }

  lemma TimeKeepsCover(s: Store, now: int)
    requires Covered(s) && NobodyWaitsOut(s, now)
    ensures Covered(Later(s, now))
  {
    TimeKeepsRecords(s, now);
    forall x | x in s.queue ensures Indexed(Later(s, now), x) {
      assert Indexed(s, x);
    }
  }

  /** Coherence lasts as long as no queued session has waited out its record. */
  lemma TimeKeepsCoherence(s: Store, now: int)
    requires Coherent(s) && NobodyWaitsOut(s, now)
    ensures Coherent(Later(s, now))
  {
    var s' := Later(s, now);
    TimeKeepsCover(s, now);
    assert forall k :: Members(s'.exact, k, now) <= Members(s.exact, k, s.now);
    assert forall k :: Members(s'.interest, k, now) <= Members(s.interest, k, s.now);
  }

  // ----- the order of the queue -----

  /** Sorted-set order: by score, then by member. */
  predicate Before(q: map<string, int>, a: string, b: string)
    requires a in q && b in q
  {
    q[a] < q[b] || (q[a] == q[b] && Leq(a, b))
  }

  /** ids is ZRANGE 0 -1 restricted to the members in part. */
  ghost predicate IsZRange(q: map<string, int>, part: set<string>, ids: seq<string>) {
    && (forall i :: 0 <= i < |ids| ==> ids[i] in q && ids[i] in part)
    && (forall x :: x in part ==> x in ids)
    && (forall i, j :: 0 <= i < j < |ids| ==> ids[i] != ids[j] && Before(q, ids[i], ids[j]))
  }

  lemma BeforeAll(q: map<string, int>, part: set<string>, x: string, ids: seq<string>)
    requires IsZRange(q, part, ids) && ids != []
    requires x in q && Before(q, x, ids[0])
    ensures forall j :: 0 <= j < |ids| ==> Before(q, x, ids[j])
  {
    forall j | 0 <= j < |ids| ensures Before(q, x, ids[j]) {
      if j > 0 && q[x] == q[ids[j]] { LeqTransitive(x, ids[0], ids[j]); }
    }
  }

  lemma ZPrepend(q: map<string, int>, part: set<string>, x: string, ids: seq<string>)
    requires IsZRange(q, part, ids) && x in q && x !in part
    requires forall j :: 0 <= j < |ids| ==> Before(q, x, ids[j])
    ensures IsZRange(q, part + {x}, [x] + ids)
  {
    forall y | y in part + {x} ensures y in [x] + ids {
      if y != x { assert y in ids; }
    }
  }

  lemma ZTail(q: map<string, int>, part: set<string>, ids: seq<string>)
    requires IsZRange(q, part, ids) && ids != []
    ensures IsZRange(q, part - {ids[0]}, ids[1..])
  {
    forall y | y in part - {ids[0]} ensures y in ids[1..] {
      assert y in ids && ids == [ids[0]] + ids[1..];
    }
  }

  function ZInsert(q: map<string, int>, ghost part: set<string>, x: string, ids: seq<string>): (r: seq<string>)
    requires IsZRange(q, part, ids)
    requires x in q && x !in part
    ensures IsZRange(q, part + {x}, r)
  {
    if ids == [] then [x]
    else if Before(q, x, ids[0]) then
      BeforeAll(q, part, x, ids);
      ZPrepend(q, part, x, ids);
      [x] + ids
    else
      ZTail(q, part, ids);
      LeqTotal(x, ids[0]);
      var r := ZInsert(q, part - {ids[0]}, x, ids[1..]);
      assert forall j :: 0 <= j < |r| ==> r[j] == x || r[j] in ids[1..];
      ZPrepend(q, part - {ids[0]} + {x}, ids[0], r);
      assert part - {ids[0]} + {x} + {ids[0]} == part + {x};
      [ids[0]] + r
  }

  /** The queue has one order only. */
  lemma {:induction false} ZRangeUnique(q: map<string, int>, part: set<string>, a: seq<string>, b: seq<string>)
    requires IsZRange(q, part, a) && IsZRange(q, part, b)
    ensures a == b
    decreases |a|
  {
    if a == [] {
      assert part == {};
    } else {
      assert a[0] in b && b != [] && b[0] in a;
      FirstIsLeast(q, part, a, b[0]);
      FirstIsLeast(q, part, b, a[0]);
      if a[0] != b[0] {
        LeqAntisymmetric(a[0], b[0]);
        assert false;
      }
      ZTail(q, part, a);
      ZTail(q, part, b);
      ZRangeUnique(q, part - {a[0]}, a[1..], b[1..]);
      assert a == [a[0]] + a[1..] && b == [b[0]] + b[1..];
    }
  }

  lemma FirstIsLeast(q: map<string, int>, part: set<string>, ids: seq<string>, x: string)
    requires IsZRange(q, part, ids) && x in ids
    ensures ids != [] && x in q && ids[0] in q && (x == ids[0] || Before(q, ids[0], x))
  {
    var i :| 0 <= i < |ids| && ids[i] == x;
    if i > 0 {
      assert Before(q, ids[0], ids[i]);
    }
  }

  // ----- how long things live -----

  /** Left alone, a session that has joined is queued from that moment on, and its record
      and index entries live for exactly one minute. */
  lemma JoinLastsAMinute(s: Store, digest: Digest, sid: string, tags: seq<string>, t: int, tag: string)
    requires s.now <= t && tag in tags
    ensures var s' := Later(Enqueued(s, digest, sid, tags), t);
      && sid in s'.queue && s'.queue[sid] == s.now
      && (GetEntry(s', sid).Some? <==> t < s.now + 60_000)
      && (GetEntry(s', sid).Some? ==>
            GetEntry(s', sid).value == Entry(sid, Decode(Join(tags)), InterestsHash(digest, tags), s.now))
      && (sid in Members(s'.exact, InterestsHash(digest, tags), t) <==> t < s.now + 60_000)
      && (sid in Members(s'.interest, tag, t) <==> t < s.now + 60_000)
  {
    hide InterestsHash, Decode, Join;
    SAddAllExpiry(s.interest, tags, sid, s.now, tag);
    hide SAddAll;
  }

  lemma {:induction false} SAddAllExpiry(ix: Index, tags: seq<string>, sid: string, now: int, key: string)
    requires key in tags
    ensures var r := SAddAll(ix, tags, sid, now); key in r && sid in r[key].value && r[key].expireAt == now + KEY_TTL
  {
    var init, last := tags[..|tags| - 1], tags[|tags| - 1];
    assert tags == init + [last];
    if key in init {
      SAddAllExpiry(ix, init, sid, now, key);
    }
  }

  lemma {:induction false} TouchAllExpiry(ix: Index, tags: seq<string>, now: int, key: string)
    requires key in tags && Members(ix, key, now) != {}
    ensures var r := TouchAll(ix, tags, now); key in r && r[key] == Keyed(ix[key].value, now + KEY_TTL)
  {
    var init, last := tags[..|tags| - 1], tags[|tags| - 1];
    assert tags == init + [last];
    TouchAllMembers(ix, init, now, key);
    if key in init {
      TouchAllExpiry(ix, init, now, key);
    } else {
      TouchAllSkips(ix, init, now, key);
    }
  }

  lemma {:induction false} TouchAllSkips(ix: Index, tags: seq<string>, now: int, key: string)
    requires key !in tags
    ensures key in TouchAll(ix, tags, now) <==> key in ix
    ensures key in ix ==> TouchAll(ix, tags, now)[key] == ix[key]
  {
    if tags != [] {
      TouchAllSkips(ix, tags[..|tags| - 1], now, key);
    }
  }

  /** A refresh gives the record and the sets of a session that is found another minute. */
  lemma RefreshLastsAMinute(s: Store, sid: string, t: int, tag: string)
    requires GetEntry(s, sid).Some? && s.now <= t
    requires sid in Members(s.exact, HashOf(s, sid), s.now)
    requires tag in TagsOf(s, sid) && sid in Members(s.interest, tag, s.now)
    ensures var s' := Later(Refreshed(s, sid), t);
      && (GetEntry(s', sid) == if t < s.now + 60_000 then GetEntry(s, sid) else None)
      && (sid in Members(s'.exact, HashOf(s, sid), t) <==> t < s.now + 60_000)
      && (sid in Members(s'.interest, tag, t) <==> t < s.now + 60_000)
  {
    TouchAllExpiry(s.interest, TagsOf(s, sid), s.now, tag);
    hide TouchAll, Decode;
  }

  class Queue {
    const digest: Digest
    var now: int
    var queue: map<string, int>
    var exact: Index
    var interest: Index
    var records: map<string, Keyed<Record>>

    function State(): Store
      reads this
    {
      Store(now, queue, exact, interest, records)
    }

    constructor (digest: Digest, now: int)
      ensures State() == Store(now, map[], map[], map[], map[])
      ensures this.digest == digest
    {
      this.digest := digest;
      this.now, queue, exact, interest, records := now, map[], map[], map[], map[];
    }

    method Enqueue(sid: string, tags: seq<string>)
      modifies this
      ensures State() == Enqueued(old(State()), digest, sid, tags)
    {
      hide InterestsHash, Join, SAdd;
      var hash := InterestsHash(digest, tags);
      var byTag := interest;
      for i := 0 to |tags|
        invariant byTag == SAddAll(interest, tags[..i], sid, now)
      {
        assert tags[..i + 1][..i] == tags[..i];
        byTag := SAdd(byTag, tags[i], sid, now);
      }
      assert tags[..|tags|] == tags;
      queue, exact, interest, records :=
        queue[sid := now],
        SAdd(exact, hash, sid, now),
        byTag,
        records[sid := Keyed(Record(Join(tags), hash, now), now + KEY_TTL)];
    }

    method Dequeue(sid: string)
      modifies this
      ensures State() == Dequeued(old(State()), sid)
    {
      var entry := GetEntry(State(), sid);
      if entry.None? {
        return;
      }
      var tags := entry.value.interests;
      var byTag := interest;
      for i := 0 to |tags|
        invariant byTag == SRemAll(interest, tags[..i], sid, now)
      {
        assert tags[..i + 1][..i] == tags[..i];
        byTag := SRem(byTag, tags[i], sid, now);
      }
      assert tags[..|tags|] == tags;
      queue, exact, interest, records :=
        queue - {sid},
        SRem(exact, entry.value.hash, sid, now),
        byTag,
        records - {sid};
    }

    method RefreshTTLs(sid: string)
      modifies this
      ensures State() == Refreshed(old(State()), sid)
    {
      var entry := GetEntry(State(), sid);
      if entry.None? {
        return;
      }
      var tags := entry.value.interests;
      var byTag := interest;
      for i := 0 to |tags|
        invariant byTag == TouchAll(interest, tags[..i], now)
      {
        assert tags[..i + 1][..i] == tags[..i];
        byTag := Touch(byTag, tags[i], now);
      }
      assert tags[..|tags|] == tags;
      exact, interest, records :=
        Touch(exact, entry.value.hash, now),
        byTag,
        records[sid := Keyed(records[sid].value, now + KEY_TTL)];
    }

    /** Every queued session once, oldest first. */
    method GetAllQueued() returns (ids: seq<string>)
      ensures IsZRange(queue, queue.Keys, ids)
    {
      ids := [];
      var rest := queue.Keys;
      while rest != {}
        invariant rest <= queue.Keys
        invariant IsZRange(queue, queue.Keys - rest, ids)
        decreases rest
      {
        var x :| x in rest;
        ids := ZInsert(queue, queue.Keys - rest, x, ids);
        assert queue.Keys - rest + {x} == queue.Keys - (rest - {x});
        rest := rest - {x};
      }
    }
  }
}
