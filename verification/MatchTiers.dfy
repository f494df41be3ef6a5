/**
 The four ways of finding a partner for one waiting session
 (internal/matching/exact.go, overlap.go, single.go, random.go).

 Each tier has a declarative result predicate and a method with the source's loops that
 meets it. The predicates leave open what Go and Redis leave open: the order of set
 members, of map iteration, and of ties in an unstable sort.
 */
module MatchTiers {
  import opened Redis
  import opened InterestEncoding
  import opened MatchQueue

  datatype MatchCandidate = MatchCandidate(sessionA: string, sessionB: string, sharedInterests: seq<string>)

  // ----- what each tier promises -----

  ghost predicate ExactCandidate(s: Store, sid: string, x: string) {
    && x != sid && x in s.queue
    && GetEntry(s, sid).Some?
    && x in Members(s.exact, GetEntry(s, sid).value.hash, s.now)
  }

  ghost predicate IsExactResult(s: Store, sid: string, r: Option<MatchCandidate>) {
    match r
    case None => forall x :: !ExactCandidate(s, sid, x)
    case Some(m) =>
      && m.sessionA == sid
      && ExactCandidate(s, sid, m.sessionB)
      && m.sharedInterests == GetEntry(s, sid).value.interests
  }

  /** The tags of the list under which x is indexed. */
  ghost function SharedTags(s: Store, tags: seq<string>, x: string): set<string> {
    set t | t in tags && x in Members(s.interest, t, s.now)
  }

  ghost predicate TagCandidate(s: Store, sid: string, x: string) {
    && x != sid && x in s.queue
    && GetEntry(s, sid).Some?
    && SharedTags(s, GetEntry(s, sid).value.interests, x) != {}
  }

  /** The occurrences in the list of tags under which x is indexed. */
  function SharedList(s: Store, tags: seq<string>, x: string): seq<string> {
    if tags == [] then []
    else
      var t := tags[|tags| - 1];
      SharedList(s, tags[..|tags| - 1], x) + if x in Members(s.interest, t, s.now) then [t] else []
  }

  /** Go's scores[x]: one point per occurrence. */
  function Score(s: Store, tags: seq<string>, x: string): nat {
    |SharedList(s, tags, x)|
  }

  ghost predicate IsSortedListing(l: seq<string>, tags: set<string>) {
    && Sorted(l)
    && (forall t :: t in l <==> t in tags)
    && (forall i, j :: 0 <= i < j < |l| ==> l[i] != l[j])
  }

  ghost predicate IsOverlapResult(s: Store, sid: string, r: Option<MatchCandidate>) {
    match r
    case None => forall x :: !TagCandidate(s, sid, x)
    case Some(m) =>
      && m.sessionA == sid
      && TagCandidate(s, sid, m.sessionB)
      && (forall y :: TagCandidate(s, sid, y) ==>
            Score(s, GetEntry(s, sid).value.interests, y) <= Score(s, GetEntry(s, sid).value.interests, m.sessionB))
      && IsSortedListing(m.sharedInterests, SharedTags(s, GetEntry(s, sid).value.interests, m.sessionB))
  }

  ghost predicate IsSingleResult(s: Store, sid: string, r: Option<MatchCandidate>) {
    match r
    case None => forall x :: !TagCandidate(s, sid, x)
    case Some(m) =>
      && m.sessionA == sid
      && TagCandidate(s, sid, m.sessionB)
      && Sorted(m.sharedInterests)
      && multiset(m.sharedInterests) == multiset(SharedList(s, GetEntry(s, sid).value.interests, m.sessionB))
  }

  /** The longest-waiting other session, whatever its interests. */
  ghost predicate IsRandomResult(s: Store, sid: string, r: Option<MatchCandidate>) {
    match r
    case None => forall x :: x in s.queue ==> x == sid
    case Some(m) =>
      && m.sessionA == sid
      && m.sessionB in s.queue && m.sessionB != sid
      && (forall y :: y in s.queue && y != sid && y != m.sessionB ==> Before(s.queue, m.sessionB, y))
      && m.sharedInterests == []
  }

  // ----- facts about the two ways of counting -----

  lemma {:induction false} SharedListMembers(s: Store, tags: seq<string>, x: string)
    ensures forall t :: t in SharedList(s, tags, x) <==> t in SharedTags(s, tags, x)
    ensures Score(s, tags, x) > 0 <==> SharedTags(s, tags, x) != {}
  {
    if tags != [] {
      SharedListMembers(s, tags[..|tags| - 1], x);
      SharedTagsInit(s, tags, x);
    }
    var l := SharedList(s, tags, x);
    if l != [] {
      assert l[0] in SharedTags(s, tags, x);
    }
  }

  ghost predicate Distinct(tags: seq<string>) {
    forall i, j :: 0 <= i < j < |tags| ==> tags[i] != tags[j]
  }

  lemma DistinctInit(tags: seq<string>)
    requires Distinct(tags) && tags != []
    ensures Distinct(tags[..|tags| - 1]) && tags[|tags| - 1] !in tags[..|tags| - 1]
  {
  }

  lemma SharedTagsInit(s: Store, tags: seq<string>, x: string)
    requires tags != []
    ensures var init, t := tags[..|tags| - 1], tags[|tags| - 1];
      SharedTags(s, tags, x) == SharedTags(s, init, x) + if x in Members(s.interest, t, s.now) then {t} else {}
  {
    assert tags == tags[..|tags| - 1] + [tags[|tags| - 1]];
  }

  lemma SharedTagsListed(s: Store, tags: seq<string>, x: string, t: string)
    requires t in SharedTags(s, tags, x)
    ensures t in tags
  {
  }

  /** With distinct own tags a score is the number of shared tags. */
  lemma {:induction false} ScoreCountsTags(s: Store, tags: seq<string>, x: string)
    requires Distinct(tags)
    ensures Score(s, tags, x) == |SharedTags(s, tags, x)|
  {
    if tags == [] {
      assert SharedTags(s, tags, x) == {};
    } else {
      hide Members, SharedTags, Distinct;
      var init, t := tags[..|tags| - 1], tags[|tags| - 1];
      DistinctInit(tags);
      ScoreCountsTags(s, init, x);
      SharedTagsInit(s, tags, x);
      if t in SharedTags(s, init, x) {
        SharedTagsListed(s, init, x, t);
      }
    }
  }

  lemma ScoreStep(s: Store, tags: seq<string>, i: nat, x: string)
    requires i < |tags|
    ensures Score(s, tags[..i + 1], x) ==
            Score(s, tags[..i], x) + if x in Members(s.interest, tags[i], s.now) then 1 else 0
    ensures SharedList(s, tags[..i + 1], x) ==
            SharedList(s, tags[..i], x) + if x in Members(s.interest, tags[i], s.now) then [tags[i]] else []
    ensures SharedTags(s, tags[..i + 1], x) ==
            SharedTags(s, tags[..i], x) + if x in Members(s.interest, tags[i], s.now) then {tags[i]} else {}
  {
    assert tags[..i + 1][..i] == tags[..i];
    assert tags[..i + 1] == tags[..i] + [tags[i]];
  }

  // ----- listing a set, ranking by score -----

  /** A Go map range: every element once, in no particular order. */
  method Listing(elements: set<string>) returns (l: seq<string>)
    ensures forall x :: x in l <==> x in elements
    ensures forall i, j :: 0 <= i < j < |l| ==> l[i] != l[j]
  {
    l := [];
    var rest := elements;
    while rest != {}
      invariant rest <= elements
      invariant forall x :: x in l <==> x in elements && x !in rest
      invariant forall i, j :: 0 <= i < j < |l| ==> l[i] != l[j]
      decreases rest
    {
      var x :| x in rest;
      l := l + [x];
      rest := rest - {x};
    }
  }

  lemma SortedListing(l: seq<string>, tags: set<string>)
    requires forall t :: t in l <==> t in tags
    requires forall i, j :: 0 <= i < j < |l| ==> l[i] != l[j]
    ensures IsSortedListing(Sort(l), tags)
  {
    forall t ensures t in Sort(l) <==> t in tags {
      assert t in multiset(Sort(l)) <==> t in multiset(l);
    }
    DistinctMultiset(l);
    MultisetDistinct(Sort(l));
  }

  lemma {:induction false} DistinctMultiset(l: seq<string>)
    requires forall i, j :: 0 <= i < j < |l| ==> l[i] != l[j]
    ensures forall t :: multiset(l)[t] <= 1
  {
    if l != [] {
      DistinctMultiset(l[1..]);
      assert l == [l[0]] + l[1..];
      assert l[0] !in l[1..];
    }
  }

  lemma MultisetDistinct(l: seq<string>)
    requires forall t :: multiset(l)[t] <= 1
    ensures forall i, j :: 0 <= i < j < |l| ==> l[i] != l[j]
  {
    forall i, j | 0 <= i < j < |l| ensures l[i] != l[j] {
      assert l == l[..j] + l[j..];
      assert l[i] in l[..j] && l[j] in l[j..];
      assert multiset(l)[l[j]] == multiset(l[..j])[l[j]] + multiset(l[j..])[l[j]];
    }
  }

  method SortStrings(l: seq<string>) returns (r: seq<string>)
    ensures Sorted(r) && multiset(r) == multiset(l)
  {
    r := Sort(l);
  }

  method SortedTags(tags: set<string>) returns (r: seq<string>)
    ensures IsSortedListing(r, tags)
  {
    var listed := Listing(tags);
    SortedListing(listed, tags);
    r := Sort(listed);
  }

  predicate Ranked(scores: map<string, nat>, ids: seq<string>) {
    && (forall i :: 0 <= i < |ids| ==> ids[i] in scores)
    && (forall i, j :: 0 <= i < j < |ids| ==> scores[ids[i]] >= scores[ids[j]])
  }

  function RankInsert(scores: map<string, nat>, x: string, ids: seq<string>): (r: seq<string>)
    requires Ranked(scores, ids) && x in scores
    ensures Ranked(scores, r)
    ensures forall y :: y in r <==> y == x || y in ids
  {
    if ids == [] || scores[ids[0]] <= scores[x] then [x] + ids
    else
      assert ids == [ids[0]] + ids[1..];
      var r := RankInsert(scores, x, ids[1..]);
      assert forall j :: 0 <= j < |r| ==> r[j] == x || r[j] in ids[1..];
      [ids[0]] + r
  }

  /** Highest score first; ties in any order. */
  method RankByScore(scores: map<string, nat>) returns (ids: seq<string>)
    ensures Ranked(scores, ids)
    ensures forall x :: x in ids <==> x in scores
  {
    ids := [];
    var rest := scores.Keys;
    while rest != {}
      invariant rest <= scores.Keys
      invariant Ranked(scores, ids)
      invariant forall x :: x in ids <==> x in scores && x !in rest
      decreases rest
    {
      var x :| x in rest;
      ids := RankInsert(scores, x, ids);
      rest := rest - {x};
    }
  }

  // ----- the tiers -----

  method TryExactMatch(q: Queue, sid: string) returns (r: Option<MatchCandidate>)
    ensures IsExactResult(q.State(), sid, r)
  {
    var s := q.State();
    var entry := GetEntry(s, sid);
    if entry.None? {
      return None;
    }
    var rest := Members(s.exact, entry.value.hash, s.now);
    while rest != {}
      invariant forall x :: ExactCandidate(s, sid, x) ==> x in rest
      decreases rest
    {
      var candidate :| candidate in rest;
      if candidate != sid && candidate in s.queue {
        assert candidate in Members(s.exact, entry.value.hash, s.now);
        return Some(MatchCandidate(sid, candidate, entry.value.interests));
      }
      rest := rest - {candidate};
    }
    return None;
  }

  /** Scores and shared tags over the list done; sessions in extra count one more tag. */
  ghost predicate Tallied(s: Store, sid: string, done: seq<string>, tag: string, extra: set<string>,
                          scores: map<string, nat>, shared: map<string, set<string>>) {
    && shared.Keys == scores.Keys
    && (forall x :: x in scores <==> x != sid && (Score(s, done, x) > 0 || x in extra))
    && (forall x :: x in scores ==> scores[x] == Score(s, done, x) + if x in extra then 1 else 0)
    && (forall x :: x in scores ==> shared[x] == SharedTags(s, done, x) + if x in extra then {tag} else {})
  }

  lemma TallyTag(s: Store, sid: string, tags: seq<string>, i: nat, next: string,
                 scores: map<string, nat>, shared: map<string, set<string>>)
    requires i < |tags|
    requires Tallied(s, sid, tags[..i], tags[i], Members(s.interest, tags[i], s.now), scores, shared)
    ensures Tallied(s, sid, tags[..i + 1], next, {}, scores, shared)
  {
    forall x {
      ScoreStep(s, tags, i, x);
    }
  }

  lemma TallyOne(s: Store, sid: string, done: seq<string>, tag: string, extra: set<string>, x: string,
                 scores: map<string, nat>, shared: map<string, set<string>>)
    requires Tallied(s, sid, done, tag, extra, scores, shared) && x !in extra
    ensures x == sid ==> Tallied(s, sid, done, tag, extra + {x}, scores, shared)
    ensures x != sid ==>
              Tallied(s, sid, done, tag, extra + {x},
                      scores[x := 1 + if x in scores then scores[x] else 0],
                      shared[x := {tag} + if x in shared then shared[x] else {}])
  {
    SharedListMembers(s, done, x);
  }

  /** The inner loop: every member of the tag's set gains a point and the tag. */
  method TallyMembers(s: Store, sid: string, tags: seq<string>, i: nat,
                      scores0: map<string, nat>, shared0: map<string, set<string>>, ghost next: string)
    returns (scores: map<string, nat>, shared: map<string, set<string>>)
    requires i < |tags|
    requires Tallied(s, sid, tags[..i], tags[i], {}, scores0, shared0)
    ensures Tallied(s, sid, tags[..i + 1], next, {}, scores, shared)
  {
    var members := Members(s.interest, tags[i], s.now);
    var rest := members;
    scores, shared := scores0, shared0;
    while rest != {}
      invariant rest <= members
      invariant Tallied(s, sid, tags[..i], tags[i], members - rest, scores, shared)
      decreases rest
    {
      var x :| x in rest;
      TallyOne(s, sid, tags[..i], tags[i], members - rest, x, scores, shared);
      if x != sid {
        scores := scores[x := 1 + if x in scores then scores[x] else 0];
        shared := shared[x := {tags[i]} + if x in shared then shared[x] else {}];
      }
      assert members - (rest - {x}) == members - rest + {x};
      rest := rest - {x};
    }
    assert members - rest == members;
    TallyTag(s, sid, tags, i, next, scores, shared);
  }

  method Tally(s: Store, sid: string, tags: seq<string>)
    returns (scores: map<string, nat>, shared: map<string, set<string>>)
    ensures Tallied(s, sid, tags, "", {}, scores, shared)
  {
    scores, shared := map[], map[];
    for i := 0 to |tags|
      invariant Tallied(s, sid, tags[..i], if i < |tags| then tags[i] else "", {}, scores, shared)
    {
      scores, shared := TallyMembers(s, sid, tags, i, scores, shared, if i + 1 < |tags| then tags[i + 1] else "");
    }
    assert tags[..|tags|] == tags;
  }

  lemma TalliedCandidates(s: Store, sid: string, scores: map<string, nat>, shared: map<string, set<string>>)
    requires GetEntry(s, sid).Some?
    requires Tallied(s, sid, GetEntry(s, sid).value.interests, "", {}, scores, shared)
    ensures forall x :: TagCandidate(s, sid, x) <==> x in s.queue && x in scores
  {
    forall x ensures TagCandidate(s, sid, x) <==> x in s.queue && x in scores {
      SharedListMembers(s, GetEntry(s, sid).value.interests, x);
    }
  }

  /** The search over the ranking: the best-scoring candidate that is still queued. */
  method FirstQueued(queue: map<string, int>, scores: map<string, nat>) returns (best: Option<string>)
    ensures best.None? ==> forall y :: y in scores ==> y !in queue
    ensures best.Some? ==> best.value in scores && best.value in queue
    ensures best.Some? ==> forall y :: y in scores && y in queue ==> scores[y] <= scores[best.value]
  {
    var ranked := RankByScore(scores);
    for i := 0 to |ranked|
      invariant forall k :: 0 <= k < i ==> ranked[k] !in queue
    {
      if ranked[i] in queue {
        return Some(ranked[i]);
      }
    }
    return None;
  }

  lemma OverlapResult(s: Store, sid: string, scores: map<string, nat>, shared: map<string, set<string>>,
                      best: string, listed: seq<string>)
    requires GetEntry(s, sid).Some?
    requires Tallied(s, sid, GetEntry(s, sid).value.interests, "", {}, scores, shared)
    requires best in scores && best in s.queue
    requires forall y :: y in scores && y in s.queue ==> scores[y] <= scores[best]
    requires IsSortedListing(listed, shared[best])
    ensures IsOverlapResult(s, sid, Some(MatchCandidate(sid, best, listed)))
  {
    TalliedCandidates(s, sid, scores, shared);
    var tags := GetEntry(s, sid).value.interests;
    forall y | TagCandidate(s, sid, y) ensures Score(s, tags, y) <= Score(s, tags, best) {
      assert scores[y] == Score(s, tags, y);
    }
    assert shared[best] == SharedTags(s, tags, best);
  }

  method TryOverlapMatch(q: Queue, sid: string) returns (r: Option<MatchCandidate>)
    ensures IsOverlapResult(q.State(), sid, r)
  {
    var s := q.State();
    var entry := GetEntry(s, sid);
    if entry.None? {
      return None;
    }
    var scores, shared := Tally(s, sid, entry.value.interests);
    var best := FirstQueued(s.queue, scores);
    if best.None? {
      TalliedCandidates(s, sid, scores, shared);
      return None;
    }
    var listed := SortedTags(shared[best.value]);
    OverlapResult(s, sid, scores, shared, best.value, listed);
    return Some(MatchCandidate(sid, best.value, listed));
  }

  ghost predicate Gathered(s: Store, sid: string, done: seq<string>, tag: string, extra: set<string>,
                           shared: map<string, seq<string>>) {
    && (forall x :: x in shared <==> x != sid && (Score(s, done, x) > 0 || x in extra))
    && (forall x :: x in shared ==> shared[x] == SharedList(s, done, x) + if x in extra then [tag] else [])
  }

  lemma GatherTag(s: Store, sid: string, tags: seq<string>, i: nat, next: string, shared: map<string, seq<string>>)
    requires i < |tags|
    requires Gathered(s, sid, tags[..i], tags[i], Members(s.interest, tags[i], s.now), shared)
    ensures Gathered(s, sid, tags[..i + 1], next, {}, shared)
  {
    forall x {
      ScoreStep(s, tags, i, x);
    }
  }

  method GatherMembers(s: Store, sid: string, tags: seq<string>, i: nat,
                       shared0: map<string, seq<string>>, ghost next: string)
    returns (shared: map<string, seq<string>>)
    requires i < |tags|
    requires Gathered(s, sid, tags[..i], tags[i], {}, shared0)
    ensures Gathered(s, sid, tags[..i + 1], next, {}, shared)
  {
    var members := Members(s.interest, tags[i], s.now);
    var rest := members;
    shared := shared0;
    while rest != {}
      invariant rest <= members
      invariant Gathered(s, sid, tags[..i], tags[i], members - rest, shared)
      decreases rest
    {
      var x :| x in rest;
      if x != sid {
        shared := shared[x := if x !in shared then [tags[i]] else shared[x] + [tags[i]]];
      }
      assert members - (rest - {x}) == members - rest + {x};
      rest := rest - {x};
    }
    assert members - rest == members;
    GatherTag(s, sid, tags, i, next, shared);
  }

  method Gather(s: Store, sid: string, tags: seq<string>) returns (shared: map<string, seq<string>>)
    ensures Gathered(s, sid, tags, "", {}, shared)
  {
    shared := map[];
    for i := 0 to |tags|
      invariant Gathered(s, sid, tags[..i], if i < |tags| then tags[i] else "", {}, shared)
    {
      shared := GatherMembers(s, sid, tags, i, shared, if i + 1 < |tags| then tags[i + 1] else "");
    }
    assert tags[..|tags|] == tags;
  }

  lemma GatheredCandidates(s: Store, sid: string, shared: map<string, seq<string>>)
    requires GetEntry(s, sid).Some?
    requires Gathered(s, sid, GetEntry(s, sid).value.interests, "", {}, shared)
    ensures forall x :: TagCandidate(s, sid, x) <==> x in s.queue && x in shared
  {
    forall x ensures TagCandidate(s, sid, x) <==> x in s.queue && x in shared {
      SharedListMembers(s, GetEntry(s, sid).value.interests, x);
    }
  }

  method TrySingleInterestMatch(q: Queue, sid: string) returns (r: Option<MatchCandidate>)
    ensures IsSingleResult(q.State(), sid, r)
  {
    var s := q.State();
    var entry := GetEntry(s, sid);
    if entry.None? {
      return None;
    }
    var shared := Gather(s, sid, entry.value.interests);
    GatheredCandidates(s, sid, shared);
    var rest := shared.Keys;
    while rest != {}
      invariant rest <= shared.Keys
      invariant forall x :: TagCandidate(s, sid, x) ==> x in rest
      decreases rest
    {
      var candidate :| candidate in rest;
      if candidate in s.queue {
        var listed := SortStrings(shared[candidate]);
        return Some(MatchCandidate(sid, candidate, listed));
      }
      rest := rest - {candidate};
    }
    return None;
  }

  method TryRandomMatch(q: Queue, sid: string) returns (r: Option<MatchCandidate>)
    ensures IsRandomResult(q.State(), sid, r)
  {
    var ids := q.GetAllQueued();
    for i := 0 to |ids|
      invariant forall k :: 0 <= k < i ==> ids[k] == sid
    {
      if ids[i] != sid && ids[i] in q.queue {
        forall y | y in q.queue && y != sid && y != ids[i] ensures Before(q.queue, ids[i], y) {
          assert y in ids;
        }
        return Some(MatchCandidate(sid, ids[i], []));
      }
    }
    return None;
  }

  // ----- what the tiers mean for the waiting users -----

  /** Every record's hash is the hash of the tags it holds. */
  ghost predicate Hashed(s: Store, digest: Digest) {
    forall x :: x in s.queue && x in s.records ==>
      RoundTrips(TagsOf(s, x)) && HashOf(s, x) == InterestsHash(digest, TagsOf(s, x))
  }

  ghost function ListsInPlay(s: Store): set<seq<string>> {
    set x | x in s.queue && x in s.records :: TagsOf(s, x)
  }

  /** In a coherent store the tag candidates are the queued others with a common tag. */
  lemma SharedTagsMeaning(s: Store, sid: string, x: string)
    requires Coherent(s) && sid in s.queue && x in s.queue
    ensures SharedTags(s, TagsOf(s, sid), x) == set t | t in TagsOf(s, sid) && t in TagsOf(s, x)
  {
    forall t | t in TagsOf(s, sid) ensures x in Members(s.interest, t, s.now) <==> t in TagsOf(s, x) {
      IndexesEqualScan(s, t);
    }
  }

  lemma CommonTag(s: Store, sid: string, x: string, t: string)
    requires Covered(s) && sid in s.queue && x in s.queue && x != sid
    requires t in TagsOf(s, sid) && t in TagsOf(s, x)
    ensures TagCandidate(s, sid, x)
  {
    QueuedIsFound(s, sid);
    QueuedIsFound(s, x);
    assert t in SharedTags(s, TagsOf(s, sid), x);
  }

  lemma CoherentHashes(s: Store)
    requires Coherent(s)
    ensures HashAgrees(s)
  {
    assert forall x :: x in s.queue ==> Indexed(s, x);
  }

  /** asked holds the list each queued session waits with: the one its record was made from. */
  ghost predicate Asked(s: Store, digest: Digest, asked: map<string, seq<string>>) {
    forall x :: x in s.queue && x in s.records ==> AskedWith(s, digest, asked, x)
  }

  ghost predicate AskedWith(s: Store, digest: Digest, asked: map<string, seq<string>>, x: string)
    requires x in s.records
  {
    && x in asked
    && s.records[x].value.interests == Join(asked[x])
    && HashOf(s, x) == InterestsHash(digest, asked[x])
  }

  lemma QueuedAsked(s: Store, digest: Digest, asked: map<string, seq<string>>, x: string)
    requires Recorded(s) && Asked(s, digest, asked) && x in s.queue
    ensures GetEntry(s, x).Some? && AskedWith(s, digest, asked, x)
  {
    hide AskedWith;
    assert HasRecord(s, x);
  }

  lemma AskedIsHashed(s: Store, digest: Digest, asked: map<string, seq<string>>)
    requires Asked(s, digest, asked) && forall x :: x in asked ==> RoundTrips(asked[x])
    ensures Hashed(s, digest)
  {
    hide InterestsHash, RoundTrips, Join, Decode;
    forall x | x in s.queue && x in s.records
      ensures RoundTrips(TagsOf(s, x)) && HashOf(s, x) == InterestsHash(digest, TagsOf(s, x))
    {
      assert AskedWith(s, digest, asked, x);
      DecodeJoin(asked[x]);
    }
  }

  /** While the hash index agrees with the queue, the exact candidates are the other queued
      sessions with the same hash. */
  lemma ExactMeansSameHash(s: Store, sid: string, x: string)
    requires HashAgrees(s) && sid in s.queue
    ensures sid in s.records
    ensures ExactCandidate(s, sid, x) <==>
              x != sid && x in s.queue && x in s.records && HashOf(s, x) == HashOf(s, sid)
  {
    assert HasRecord(s, sid);
    HashSetsEqualScan(s, HashOf(s, sid));
  }

  /** Then, without collisions, they are those whose sorted tags have the same pieces; among
      lists that round-trip, those who asked for the same interests. The list reported is
      the user's own as read back. */
  lemma ExactMatchIsExact(s: Store, digest: Digest, asked: map<string, seq<string>>, sid: string, x: string)
    requires HashAgrees(s) && Asked(s, digest, asked) && CollisionFree(digest, asked.Values)
    requires sid in s.queue
    ensures sid in asked
    ensures ExactCandidate(s, sid, x) <==>
              x != sid && x in s.queue && x in asked && Pieces(Sort(asked[x])) == Pieces(Sort(asked[sid]))
    ensures x in asked && RoundTrips(asked[sid]) && RoundTrips(asked[x]) ==>
              (ExactCandidate(s, sid, x) <==> x != sid && x in s.queue && multiset(asked[x]) == multiset(asked[sid]))
    ensures GetEntry(s, sid).Some? && GetEntry(s, sid).value.interests == Decode(Join(asked[sid]))
  {
    ExactMeansSameHash(s, sid, x);
    QueuedAsked(s, digest, asked, sid);
    if x in s.queue {
      QueuedAsked(s, digest, asked, x);
      assert asked[x] in asked.Values && asked[sid] in asked.Values;
      hide Sort, Pieces, Join, RoundTrips, ExactCandidate, HashAgrees, Asked;
      CanonicalIdentifies(asked[x], asked[sid]);
    }
  }

  lemma SecondIsOffered(s: Store, digest: Digest, x: string, a: seq<string>, y: string, b: seq<string>)
    requires x != y && Absent(s, x)
    ensures ExactCandidate(Enqueued(Enqueued(s, digest, x, a), digest, y, b), y, x) <==>
              InterestsHash(digest, a) == InterestsHash(digest, b)
  {
    hide InterestsHash, Members, SAdd, SAddAll, Join, Decode;
    EnqueuedIndexes(s, digest, x, a);
    EnqueuedIndexes(Enqueued(s, digest, x, a), digest, y, b);
  }

  lemma SameHashMeansSamePieces(digest: Digest, a: seq<string>, b: seq<string>)
    requires CollisionFree(digest, {a, b})
    ensures InterestsHash(digest, a) == InterestsHash(digest, b) <==> Pieces(Sort(a)) == Pieces(Sort(b))
  {
    hide Canonical, Pieces, Sort;
    CanonicalIdentifies(a, b);
  }

  /** Two users who ask one after the other: without collisions the second is offered the
      first exactly when their sorted tags have the same pieces, whatever else is stored. */
  lemma ExactPair(s: Store, digest: Digest, x: string, a: seq<string>, y: string, b: seq<string>)
    requires x != y && Absent(s, x) && CollisionFree(digest, {a, b})
    ensures ExactCandidate(Enqueued(Enqueued(s, digest, x, a), digest, y, b), y, x) <==>
              Pieces(Sort(a)) == Pieces(Sort(b))
  {
    hide *;
    SecondIsOffered(s, digest, x, a, y, b);
    SameHashMeansSamePieces(digest, a, b);
  }

  /** A session that asks again keeps its place under its former hash: whoever asks next is
      offered it exactly for the new hash or the former one. */
  lemma RejoinIsOffered(s: Store, digest: Digest, x: string, a: seq<string>, y: string, b: seq<string>)
    requires HashAgrees(s) && x in s.queue && x != y
    ensures x in s.records
    ensures ExactCandidate(Enqueued(Enqueued(s, digest, x, a), digest, y, b), y, x) <==>
              InterestsHash(digest, b) == InterestsHash(digest, a) || InterestsHash(digest, b) == HashOf(s, x)
  {
    assert HasRecord(s, x);
    HashSetsEqualScan(s, InterestsHash(digest, b));
    hide InterestsHash, Members, SAdd, SAddAll, Join, Decode, HashAgrees;
    EnqueuedIndexes(s, digest, x, a);
    EnqueuedIndexes(Enqueued(s, digest, x, a), digest, y, b);
  }

  /** Whoever joins after another session with the same hash is offered it. */
  lemma SameHashIsOffered(s: Store, digest: Digest, x: string, a: seq<string>, y: string, b: seq<string>)
    requires x != y && InterestsHash(digest, a) == InterestsHash(digest, b)
    ensures var s' := Enqueued(Enqueued(s, digest, x, a), digest, y, b);
      IsExactResult(s', y, Some(MatchCandidate(y, x, Decode(Join(b)))))
  {
    hide InterestsHash, SAdd, SAddAll, Join, Decode, Members;
    EnqueuedIndexes(s, digest, x, a);
    EnqueuedIndexes(Enqueued(s, digest, x, a), digest, y, b);
  }

  /** So a tag with a comma joins users with different interests. */
  lemma CommaTagMatchesExactly(digest: Digest)
    ensures multiset(["a,b"]) != multiset(["a", "b"])
    ensures var s := Enqueued(Enqueued(EMPTY, digest, "x", ["a,b"]), digest, "y", ["a", "b"]);
      IsExactResult(s, "y", Some(MatchCandidate("y", "x", ["a", "b"])))
  {
    hide InterestsHash, Enqueued, IsExactResult;
    CommaTagSharesHash(digest);
    assert ',' !in "a" && ',' !in "b";
    DecodeJoin(["a", "b"]);
    SameHashIsOffered(EMPTY, digest, "x", ["a,b"], "y", ["a", "b"]);
  }

  /** A session that asks again stays in the set of a hash it was in. */
  lemma FormerHashIsOffered(s: Store, digest: Digest, x: string, a: seq<string>, y: string, b: seq<string>)
    requires x != y && x in Members(s.exact, InterestsHash(digest, b), s.now)
    ensures var s' := Enqueued(Enqueued(s, digest, x, a), digest, y, b);
      ExactCandidate(s', y, x) && x in s'.records && HashOf(s', x) == InterestsHash(digest, a)
  {
    hide InterestsHash, Members, SAdd, SAddAll, Join, Decode;
    EnqueuedIndexes(s, digest, x, a);
    EnqueuedIndexes(Enqueued(s, digest, x, a), digest, y, b);
  }

  lemma JoinedEntry(s: Store, digest: Digest, sid: string, tags: seq<string>)
    ensures var s' := Enqueued(s, digest, sid, tags);
      && s'.now == s.now
      && GetEntry(s', sid).Some? && GetEntry(s', sid).value.interests == Decode(Join(tags))
      && sid in s'.records && TagsOf(s', sid) == Decode(Join(tags))
      && (forall x :: x in s.records && x != sid ==> x in s'.records && TagsOf(s', x) == TagsOf(s, x))
  {
    hide InterestsHash, Join, Decode, SAdd, SAddAll;
  }

  /** And so does asking again with another interest while queued. */
  lemma RejoinMatchesExactly(digest: Digest)
    ensures var s := Enqueued(Enqueued(Enqueued(EMPTY, digest, "x", ["a"]), digest, "x", ["b"]), digest, "y", ["a"]);
      IsExactResult(s, "y", Some(MatchCandidate("y", "x", ["a"]))) && TagsOf(s, "x") == ["b"]
  {
    hide InterestsHash, Enqueued, Members, Join, Decode;
    assert ',' !in "a" && ',' !in "b";
    DecodeJoin(["a"]);
    DecodeJoin(["b"]);
    var s1 := Enqueued(EMPTY, digest, "x", ["a"]);
    EnqueuedIndexes(EMPTY, digest, "x", ["a"]);
    JoinedEntry(EMPTY, digest, "x", ["a"]);
    FormerHashIsOffered(s1, digest, "x", ["b"], "y", ["a"]);
    JoinedEntry(Enqueued(s1, digest, "x", ["b"]), digest, "y", ["a"]);
    JoinedEntry(s1, digest, "x", ["b"]);
  }

  /** Overlap match: no other queued session shares more of the user's (distinct) tags,
      and the reported list is exactly what the two share. */
  lemma OverlapMatchIsBest(s: Store, sid: string, m: MatchCandidate, y: string)
    requires Coherent(s) && sid in s.queue
    requires Distinct(TagsOf(s, sid))
    requires IsOverlapResult(s, sid, Some(m))
    requires y in s.queue && y != sid
    ensures m.sessionB in s.queue && m.sessionB != sid
    ensures |set t | t in TagsOf(s, sid) && t in TagsOf(s, y)| <=
            |set t | t in TagsOf(s, sid) && t in TagsOf(s, m.sessionB)|
    ensures forall t :: t in m.sharedInterests <==> t in TagsOf(s, sid) && t in TagsOf(s, m.sessionB)
  {
    SharedTagsMeaning(s, sid, y);
    SharedTagsMeaning(s, sid, m.sessionB);
    ScoreCountsTags(s, TagsOf(s, sid), y);
    ScoreCountsTags(s, TagsOf(s, sid), m.sessionB);
    SharedListMembers(s, TagsOf(s, sid), y);
  }

  /** How many entries of the list are also in the other one. */
  function Occurrences(tags: seq<string>, other: seq<string>): nat {
    if tags == [] then 0
    else Occurrences(tags[..|tags| - 1], other) + if tags[|tags| - 1] in other then 1 else 0
  }

  lemma {:induction false} ScoreCountsOccurrences(s: Store, tags: seq<string>, x: string)
    requires Coherent(s) && x in s.queue
    ensures x in s.records && Score(s, tags, x) == Occurrences(tags, TagsOf(s, x))
  {
    hide Coherent, Decode;
    QueuedTag(s, x, "");
    if tags != [] {
      ScoreCountsOccurrences(s, tags[..|tags| - 1], x);
      QueuedTag(s, x, tags[|tags| - 1]);
    }
  }

  lemma QueuedTag(s: Store, x: string, t: string)
    requires Coherent(s) && x in s.queue
    ensures x in s.records && (x in Members(s.interest, t, s.now) <==> t in TagsOf(s, x))
  {
    QueuedIsFound(s, x);
    IndexesEqualScan(s, t);
  }

  /** For any own list: no other queued session matches more of its entries, repeats
      counted, than the partner found. */
  lemma OverlapMatchIsHeaviest(s: Store, sid: string, m: MatchCandidate, y: string)
    requires Coherent(s) && sid in s.queue && IsOverlapResult(s, sid, Some(m))
    requires y in s.queue && y != sid
    ensures m.sessionB in s.queue && m.sessionB != sid
    ensures sid in s.records && y in s.records && m.sessionB in s.records
    ensures Occurrences(TagsOf(s, sid), TagsOf(s, y)) <= Occurrences(TagsOf(s, sid), TagsOf(s, m.sessionB))
    ensures Sorted(m.sharedInterests) && Distinct(m.sharedInterests)
    ensures forall t :: t in m.sharedInterests <==> t in TagsOf(s, sid) && t in TagsOf(s, m.sessionB)
  {
    QueuedTag(s, sid, "");
    SharedTagsMeaning(s, sid, m.sessionB);
    ScoreCountsOccurrences(s, TagsOf(s, sid), y);
    ScoreCountsOccurrences(s, TagsOf(s, sid), m.sessionB);
    SharedListMembers(s, TagsOf(s, sid), y);
  }

  lemma {:induction false} SharedListCounts(s: Store, tags: seq<string>, x: string, t: string)
    requires Coherent(s) && x in s.queue
    ensures x in s.records
    ensures multiset(SharedList(s, tags, x))[t] == if t in TagsOf(s, x) then multiset(tags)[t] else 0
  {
    hide Coherent, Decode;
    QueuedTag(s, x, "");
    if tags != [] {
      var init, last := tags[..|tags| - 1], tags[|tags| - 1];
      SharedListCounts(s, init, x, t);
      QueuedTag(s, x, last);
      assert tags == init + [last];
    }
  }

  /** The single-interest tier reports, sorted, every entry of the user's list that the
      partner listed too, and at least one. */
  lemma SingleMatchReports(s: Store, sid: string, m: MatchCandidate, t: string)
    requires Coherent(s) && sid in s.queue && IsSingleResult(s, sid, Some(m))
    ensures m.sessionB in s.queue && m.sessionB != sid
    ensures sid in s.records && m.sessionB in s.records && Sorted(m.sharedInterests) && m.sharedInterests != []
    ensures multiset(m.sharedInterests)[t] ==
              if t in TagsOf(s, m.sessionB) then multiset(TagsOf(s, sid))[t] else 0
  {
    QueuedTag(s, sid, "");
    SharedListCounts(s, TagsOf(s, sid), m.sessionB, t);
    SharedListMembers(s, TagsOf(s, sid), m.sessionB);
    assert |multiset(m.sharedInterests)| == |m.sharedInterests|;
  }

  const REPEATED := ["a", "a", "a", "b", "c"]

  /** "u" repeats a tag; "x" shares that one, "y" two others. */
  function RepeatStore(digest: Digest): Store {
    Enqueued(Enqueued(Enqueued(EMPTY, digest, "u", REPEATED), digest, "x", ["a"]), digest, "y", ["b", "c"])
  }

  lemma NewcomerKeepsCoherence(s: Store, digest: Digest, sid: string, tags: seq<string>)
    requires Coherent(s) && sid !in s.queue && RoundTrips(tags)
    ensures var s' := Enqueued(s, digest, sid, tags);
      && Coherent(s') && s'.queue == s.queue[sid := s.now]
      && sid in s'.records && TagsOf(s', sid) == tags
      && (forall x :: x in s.records && x != sid ==> x in s'.records && TagsOf(s', x) == TagsOf(s, x))
  {
    EnqueueKeepsCoherence(s, digest, sid, tags);
    DecodeJoin(tags);
  }

  lemma RepeatStoreIs(digest: Digest)
    ensures var s := RepeatStore(digest);
      && Coherent(s) && s.queue.Keys == {"u", "x", "y"} && s.records.Keys == {"u", "x", "y"}
      && TagsOf(s, "u") == REPEATED && TagsOf(s, "x") == ["a"] && TagsOf(s, "y") == ["b", "c"]
  {
    hide Coherent, Enqueued, Decode;
    assert ',' !in "a" && ',' !in "b" && ',' !in "c";
    assert Coherent(EMPTY) by { EmptyIsCoherent(); }
    var s1 := Enqueued(EMPTY, digest, "u", REPEATED);
    var s2 := Enqueued(s1, digest, "x", ["a"]);
    NewcomerKeepsCoherence(EMPTY, digest, "u", REPEATED);
    NewcomerKeepsCoherence(s1, digest, "x", ["a"]);
    NewcomerKeepsCoherence(s2, digest, "y", ["b", "c"]);
    JoinRecords(EMPTY, digest, "u", REPEATED);
    JoinRecords(s1, digest, "x", ["a"]);
    JoinRecords(s2, digest, "y", ["b", "c"]);
  }

  lemma EmptyIsCoherent()
    ensures Coherent(EMPTY)
  {
  }

  lemma JoinRecords(s: Store, digest: Digest, sid: string, tags: seq<string>)
    ensures Enqueued(s, digest, sid, tags).records.Keys == s.records.Keys + {sid}
  {
  }

  lemma OccurrencesStep(init: seq<string>, t: string, other: seq<string>)
    ensures Occurrences(init + [t], other) == Occurrences(init, other) + if t in other then 1 else 0
  {
    assert (init + [t])[..|init|] == init;
  }

  lemma RepeatCounts(other: seq<string>)
    ensures Occurrences(REPEATED, other) ==
              (if "a" in other then 3 else 0) + (if "b" in other then 1 else 0) + (if "c" in other then 1 else 0)
  {
    OccurrencesStep([], "a", other);
    OccurrencesStep(["a"], "a", other);
    OccurrencesStep(["a", "a"], "a", other);
    OccurrencesStep(["a", "a", "a"], "b", other);
    OccurrencesStep(["a", "a", "a", "b"], "c", other);
    hide Occurrences;
    assert [] + ["a"] == ["a"] && ["a"] + ["a"] == ["a", "a"] && ["a", "a"] + ["a"] == ["a", "a", "a"];
    assert ["a", "a", "a"] + ["b"] == ["a", "a", "a", "b"] && ["a", "a", "a", "b"] + ["c"] == REPEATED;
    assert Occurrences([], other) == 0 by { OccurrencesNone(other); }
  }

  lemma OccurrencesNone(other: seq<string>)
    ensures Occurrences([], other) == 0
  {
  }

  lemma RepeatPartner(digest: Digest, r: Option<MatchCandidate>)
    requires IsOverlapResult(RepeatStore(digest), "u", r)
    ensures r.Some? && r.value.sessionA == "u" && r.value.sessionB == "x"
  {
    hide RepeatStore, Coherent, Occurrences, Decode, SharedTags, Score;
    var s := RepeatStore(digest);
    RepeatStoreIs(digest);
    if r.None? {
      CoherentIsCovered(s);
      CommonTag(s, "u", "x", "a");
      assert false;
    }
    OverlapMatchIsHeaviest(s, "u", r.value, "x");
    RepeatCounts(["a"]);
    RepeatCounts(["b", "c"]);
    assert "a" !in ["b", "c"];
  }

  lemma CoherentIsCovered(s: Store)
    requires Coherent(s)
    ensures Covered(s)
  {
  }

  /** A repeated tag outweighs two shared ones: "u" is given "x", who shares one of its tags,
      and not "y", who shares two. */
  lemma RepeatedTagMisleads(digest: Digest, r: Option<MatchCandidate>)
    requires IsOverlapResult(RepeatStore(digest), "u", r)
    ensures r == Some(MatchCandidate("u", "x", ["a"]))
    ensures |set t | t in REPEATED && t in ["a"]| == 1 && |set t | t in REPEATED && t in ["b", "c"]| == 2
  {
    hide RepeatStore, Coherent, Decode, SharedTags, Score;
    var s := RepeatStore(digest);
    RepeatStoreIs(digest);
    RepeatPartner(digest, r);
    SharedTagsMeaning(s, "u", "x");
    CoherentIsCovered(s);
    QueuedIsFound(s, "u");
    assert (set t | t in REPEATED && t in ["a"]) == {"a"};
    assert (set t | t in REPEATED && t in ["b", "c"]) == {"b", "c"} && "b" != "c";
    OnlyListing(r.value.sharedInterests, "a");
  }

  lemma OnlyListing(l: seq<string>, t: string)
    requires IsSortedListing(l, {t})
    ensures l == [t]
  {
    DistinctMultiset(l);
    assert forall u :: u in multiset(l) <==> u in l;
    assert multiset(l) == multiset{t};
    assert |multiset(l)| == |l|;
    assert l[0] in l;
  }

  lemma SharedHead(a: seq<string>, b: seq<string>)
    requires multiset(a) == multiset(b) && a != []
    ensures a[0] in b
  {
    assert a[0] in multiset(b);
  }

  /** A queued other session with the same non-empty interests is a tag candidate. */
  lemma ExactGivesTagCandidate(s: Store, digest: Digest, sid: string, m: MatchCandidate)
    requires Coherent(s) && Hashed(s, digest) && CollisionFree(digest, ListsInPlay(s))
    requires sid in s.queue && IsExactResult(s, sid, Some(m)) && TagsOf(s, sid) != []
    ensures TagCandidate(s, sid, m.sessionB)
  {
    var x := m.sessionB;
    CoherentHashes(s);
    ExactMeansSameHash(s, sid, x);
    assert TagsOf(s, sid) in ListsInPlay(s) && TagsOf(s, x) in ListsInPlay(s);
    HashIdentifies(digest, ListsInPlay(s), TagsOf(s, sid), TagsOf(s, x));
    SharedHead(TagsOf(s, sid), TagsOf(s, x));
    CommonTag(s, sid, x, TagsOf(s, sid)[0]);
  }

  /** Each tier finds a partner whenever a stricter one does, but for overlap matching of a
      user without interests, which never does; overlap and single-interest matching
      succeed together. */
  lemma TierOrdering(s: Store, digest: Digest, sid: string,
                     exact: Option<MatchCandidate>, overlap: Option<MatchCandidate>,
                     single: Option<MatchCandidate>, random: Option<MatchCandidate>)
    requires Coherent(s) && Hashed(s, digest) && CollisionFree(digest, ListsInPlay(s)) && sid in s.queue
    requires IsExactResult(s, sid, exact) && IsOverlapResult(s, sid, overlap)
    requires IsSingleResult(s, sid, single) && IsRandomResult(s, sid, random)
    ensures exact.Some? ==> (overlap.Some? <==> TagsOf(s, sid) != [])
    ensures overlap.Some? <==> single.Some?
    ensures exact.Some? || overlap.Some? ==> random.Some?
  {
    if exact.Some? && TagsOf(s, sid) != [] {
      ExactGivesTagCandidate(s, digest, sid, exact.value);
    }
  }
}
