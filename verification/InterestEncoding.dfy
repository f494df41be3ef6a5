/**
 Interest lists as the matching queue stores them: sorted for the hash, joined with
 commas for the session record, split again when the record is read
 (internal/matching/queue.go).

 SHA-256 is not modelled: the digest is a function parameter, and the absence of
 collisions is a hypothesis of the lemmas that need it.
 */
module InterestEncoding {

  type Digest = string -> string

  /** The byte order that Go's sort.Strings and Redis sorted sets use. */
  predicate Leq(a: string, b: string) {
    a == [] || (b != [] && (a[0] < b[0] || (a[0] == b[0] && Leq(a[1..], b[1..]))))
  }

  lemma {:induction false} LeqTotal(a: string, b: string)
    ensures Leq(a, b) || Leq(b, a)
  {
    if a != [] && b != [] && a[0] == b[0] {
      LeqTotal(a[1..], b[1..]);
    }
  }

  lemma {:induction false} LeqAntisymmetric(a: string, b: string)
    requires Leq(a, b) && Leq(b, a)
    ensures a == b
  {
    if a != [] {
      LeqAntisymmetric(a[1..], b[1..]);
      assert a == [a[0]] + a[1..] && b == [b[0]] + b[1..];
    }
  }

  lemma {:induction false} LeqTransitive(a: string, b: string, c: string)
    requires Leq(a, b) && Leq(b, c)
    ensures Leq(a, c)
  {
    if a != [] && a[0] == b[0] == c[0] {
      LeqTransitive(a[1..], b[1..], c[1..]);
    }
  }

  /** a ends where b goes on, or is smaller where they first differ. */
  ghost predicate DiffersAt(a: string, b: string, i: nat) {
    i <= |a| && i <= |b| && a[..i] == b[..i] && (i == |a| || (i < |b| && a[i] < b[i]))
  }

  /** Dictionary order. */
  lemma {:induction false} LeqIsLexicographic(a: string, b: string)
    ensures Leq(a, b) <==> exists i: nat :: DiffersAt(a, b, i)
  {
    if a == [] {
      assert DiffersAt(a, b, 0);
    } else if b != [] {
      LeqIsLexicographic(a[1..], b[1..]);
      assert a == [a[0]] + a[1..] && b == [b[0]] + b[1..];
      if a[0] < b[0] {
        assert DiffersAt(a, b, 0);
      } else if a[0] == b[0] {
        forall i: nat ensures DiffersAt(a[1..], b[1..], i) <==> DiffersAt(a, b, i + 1) {
          ShiftDiffers(a, b, i);
        }
        if i: nat :| DiffersAt(a, b, i) {
          assert i > 0;
          assert DiffersAt(a[1..], b[1..], i - 1);
        }
      }
    }
  }

  lemma ShiftDiffers(a: string, b: string, i: nat)
    requires a != [] && b != [] && a[0] == b[0]
    ensures DiffersAt(a[1..], b[1..], i) <==> DiffersAt(a, b, i + 1)
  {
    if i + 1 <= |a| && i + 1 <= |b| {
      assert a[..i + 1] == [a[0]] + a[1..][..i] && b[..i + 1] == [b[0]] + b[1..][..i];
    }
  }

  // ----- sorting -----

  predicate Sorted(s: seq<string>) {
    forall i, j :: 0 <= i < j < |s| ==> Leq(s[i], s[j])
  }

  function Insert(x: string, s: seq<string>): (r: seq<string>)
    requires Sorted(s)
    ensures Sorted(r)
    ensures multiset(r) == multiset(s) + multiset{x}
  {
    if s == [] then [x]
    else if Leq(x, s[0]) then
      assert forall j :: 0 <= j < |s| ==> Leq(x, s[j]) by {
        forall j | 0 <= j < |s| ensures Leq(x, s[j]) {
          if j > 0 { LeqTransitive(x, s[0], s[j]); }
        }
      }
      [x] + s
    else
      var rest := Insert(x, s[1..]);
      assert forall j :: 0 <= j < |rest| ==> Leq(s[0], rest[j]) by {
        LeqTotal(x, s[0]);
        forall j | 0 <= j < |rest| ensures Leq(s[0], rest[j]) {
          assert rest[j] in multiset(rest);
          assert rest[j] == x || rest[j] in s[1..];
        }
      }
      assert s == [s[0]] + s[1..];
      [s[0]] + rest
  }

  /** sort.Strings on a copy. */
  function Sort(s: seq<string>): (r: seq<string>)
    ensures Sorted(r)
    ensures multiset(r) == multiset(s)
    ensures |r| == |s|
  {
    if s == [] then []
    else
      assert s == [s[0]] + s[1..];
      var r := Insert(s[0], Sort(s[1..]));
      assert |multiset(r)| == |r|;
      r
  }

  lemma HeadIsLeast(a: seq<string>, x: string)
    requires Sorted(a) && x in multiset(a)
    ensures a != [] && Leq(a[0], x)
  {
    var i :| 0 <= i < |a| && a[i] == x;
    LeqTotal(x, x);
  }

  lemma DropHead(a: seq<string>)
    requires a != []
    ensures multiset(a[1..]) == multiset(a) - multiset{a[0]}
  {
    assert a == [a[0]] + a[1..];
  }

  /** A multiset of strings has exactly one sorted listing. */
  lemma {:induction false} SortedListingUnique(a: seq<string>, b: seq<string>)
    requires Sorted(a) && Sorted(b)
    requires multiset(a) == multiset(b)
    ensures a == b
  {
    assert |multiset(a)| == |a| && |multiset(b)| == |b|;
    if a != [] {
      HeadIsLeast(b, a[0]);
      HeadIsLeast(a, b[0]);
      LeqAntisymmetric(a[0], b[0]);
      DropHead(a);
      DropHead(b);
      SortedListingUnique(a[1..], b[1..]);
    }
  }

  lemma SortCanonical(a: seq<string>, b: seq<string>)
    ensures Sort(a) == Sort(b) <==> multiset(a) == multiset(b)
  {
    if multiset(a) == multiset(b) {
      SortedListingUnique(Sort(a), Sort(b));
    }
  }

  // ----- joining and splitting on commas -----

  /** strings.Join(l, ","). */
  function Join(l: seq<string>): string {
    if l == [] then ""
    else if |l| == 1 then l[0]
    else l[0] + "," + Join(l[1..])
  }

  /** strings.Split(s, ","), which always yields at least one piece. */
  function Split(s: string): (r: seq<string>)
    ensures |r| >= 1
    ensures forall t :: t in r ==> ',' !in t
  {
    if s == "" then [""]
    else if s[0] == ',' then [""] + Split(s[1..])
    else
      var r := Split(s[1..]);
      [[s[0]] + r[0]] + r[1..]
  }

  /** How GetEntry reads the interests field back: the empty string is the empty list. */
  function Decode(s: string): seq<string> {
    if s == "" then [] else Split(s)
  }

  /** The lists that survive a write and a read of the session record. */
  predicate RoundTrips(l: seq<string>) {
    (forall t :: t in l ==> ',' !in t) && l != [""]
  }

  lemma {:induction false} SplitPrepend(t: string, s: string)
    requires ',' !in t
    ensures Split(t + s) == [t + Split(s)[0]] + Split(s)[1..]
  {
    if t == "" {
      assert t + s == s && t + Split(s)[0] == Split(s)[0];
    } else {
      SplitPrepend(t[1..], s);
      assert (t + s)[1..] == t[1..] + s;
      assert [t[0]] + (t[1..] + Split(s)[0]) == t + Split(s)[0];
    }
  }

  lemma {:induction false} SplitJoin(l: seq<string>)
    requires l != []
    requires forall t :: t in l ==> ',' !in t
    ensures Split(Join(l)) == l
  {
    if |l| == 1 {
      SplitPrepend(l[0], "");
      assert l[0] + "" == l[0] && l == [l[0]];
    } else {
      var rest := "," + Join(l[1..]);
      SplitPrepend(l[0], rest);
      assert l[0] + "," + Join(l[1..]) == l[0] + rest;
      assert rest[1..] == Join(l[1..]);
      SplitJoin(l[1..]);
      assert Split(rest) == [""] + l[1..];
      assert l[0] + "" == l[0] && l == [l[0]] + l[1..];
    }
  }

  lemma JoinEmpty(l: seq<string>)
    ensures Join(l) == "" <==> l == [] || l == [""]
  {
    if |l| == 1 {
      assert l == [l[0]];
    } else if |l| > 1 {
      assert ',' in Join(l);
    }
  }

  /** Enqueue followed by GetEntry returns the list it was given exactly for the
      comma-free lists other than the list holding one empty tag. */
  lemma DecodeJoin(l: seq<string>)
    ensures Decode(Join(l)) == l <==> RoundTrips(l)
  {
    JoinEmpty(l);
    if RoundTrips(l) && l != [] {
      SplitJoin(l);
    }
  }

  /** A tag that does not survive is lost from the decoded list, so a list fails to
      round-trip exactly when one of its tags goes missing. */
  lemma LostTag(l: seq<string>)
    ensures RoundTrips(l) <==> forall t :: t in l ==> t in Decode(Join(l))
  {
    DecodeJoin(l);
    if l == [""] {
      assert "" in l && "" !in Decode(Join(l));
    }
  }

  /** The pieces into which commas cut the tags of a list; no tags are one empty piece. */
  function Pieces(l: seq<string>): seq<string> {
    if l == [] then [""] else if |l| == 1 then Split(l[0]) else Split(l[0]) + Pieces(l[1..])
  }

  lemma {:induction false} SplitComma(u: string, v: string)
    ensures Split(u + "," + v) == Split(u) + Split(v)
  {
    var s := u + "," + v;
    if u == "" {
      assert s == "," + v && s[1..] == v;
    } else {
      assert s[1..] == u[1..] + "," + v;
      SplitComma(u[1..], v);
    }
  }

  lemma {:induction false} SplitJoinPieces(l: seq<string>)
    ensures Split(Join(l)) == Pieces(l)
  {
    if |l| > 1 {
      SplitJoinPieces(l[1..]);
      SplitComma(l[0], Join(l[1..]));
    }
  }

  lemma {:induction false} JoinSplit(s: string)
    ensures Join(Split(s)) == s
  {
    if s != "" {
      var r := Split(s[1..]);
      JoinSplit(s[1..]);
      assert s == [s[0]] + s[1..];
      if s[0] == ',' {
        assert ([""] + r)[1..] == r;
      } else {
        assert ([[s[0]] + r[0]] + r[1..])[1..] == r[1..];
        assert |r| > 1 ==> [s[0]] + r[0] + "," + Join(r[1..]) == [s[0]] + (r[0] + "," + Join(r[1..]));
      }
    }
  }

  // ----- the interest hash -----

  /** The string that InterestsHash digests. */
  function Canonical(l: seq<string>): string {
    Join(Sort(l))
  }

  function InterestsHash(digest: Digest, l: seq<string>): string {
    digest(Canonical(l))
  }

  /** No two of the canonical strings of the lists in play share a digest. */
  ghost predicate CollisionFree(digest: Digest, lists: set<seq<string>>) {
    forall a, b :: a in lists && b in lists && digest(Canonical(a)) == digest(Canonical(b)) ==>
      Canonical(a) == Canonical(b)
  }

  lemma RoundTripsPermutation(a: seq<string>, b: seq<string>)
    requires multiset(a) == multiset(b) && RoundTrips(a)
    ensures RoundTrips(b)
  {
    forall t | t in b ensures ',' !in t {
      assert t in multiset(a);
    }
    assert |multiset(a)| == |a| && |multiset(b)| == |b|;
    assert |a| == 1 ==> a == [a[0]];
  }

  /** The digested strings of two lists are equal exactly when their sorted tags have the
      same comma-separated pieces; for lists that round-trip, exactly when the lists are
      equal as multisets. */
  lemma CanonicalIdentifies(a: seq<string>, b: seq<string>)
    ensures Canonical(a) == Canonical(b) <==> Pieces(Sort(a)) == Pieces(Sort(b))
    ensures RoundTrips(a) && RoundTrips(b) ==> (Canonical(a) == Canonical(b) <==> multiset(a) == multiset(b))
  {
    SplitJoinPieces(Sort(a));
    SplitJoinPieces(Sort(b));
    JoinSplit(Join(Sort(a)));
    JoinSplit(Join(Sort(b)));
    SortCanonical(a, b);
    if RoundTrips(a) && RoundTrips(b) {
      RoundTripsPermutation(a, Sort(a));
      RoundTripsPermutation(b, Sort(b));
      DecodeJoin(Sort(a));
      DecodeJoin(Sort(b));
    }
  }

  /** A tag with a comma has the hash of the list of its pieces. */
  lemma CommaTagSharesHash(digest: Digest)
    ensures multiset(["a,b"]) != multiset(["a", "b"])
    ensures InterestsHash(digest, ["a,b"]) == InterestsHash(digest, ["a", "b"])
  {
    assert |multiset(["a,b"])| == 1 && |multiset(["a", "b"])| == 2;
    SortedListingUnique(Sort(["a,b"]), ["a,b"]);
    SortedListingUnique(Sort(["a", "b"]), ["a", "b"]);
    assert Join(["b"]) == "b" && ["a", "b"][1..] == ["b"];
    assert Join(["a", "b"]) == "a" + "," + "b" == "a,b";
  }

  /** Order never changes the hash; without collisions nothing else shares it. */
  lemma HashIdentifies(digest: Digest, lists: set<seq<string>>, a: seq<string>, b: seq<string>)
    requires a in lists && b in lists
    ensures multiset(a) == multiset(b) ==> InterestsHash(digest, a) == InterestsHash(digest, b)
    ensures RoundTrips(a) && RoundTrips(b) && CollisionFree(digest, lists) ==>
              (InterestsHash(digest, a) == InterestsHash(digest, b) <==> multiset(a) == multiset(b))
  {
    SortCanonical(a, b);
    CanonicalIdentifies(a, b);
  }
}
