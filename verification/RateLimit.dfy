/** The rate limiter (internal/ratelimit/limiter.go). */
module RateLimit {
  import opened Redis
  import opened FixedWindow

  datatype Rule = Rule(key: string, limit: int, window: int)

  const RULE_MESSAGE := Rule("rl:msg:", 5, 10_000)
  const RULE_MATCH := Rule("rl:match:", 10, 60_000)
  const RULE_CONNECT := Rule("rl:conn:", 5, 60_000)

  function Verdict(counters: Counters, key: string, now: int, rule: Rule): bool {
    Hit(Lookup(counters, key), now, rule.window).value <= rule.limit
  }

  function RemainingFor(counters: Counters, key: string, now: int, rule: Rule): int {
    if key in counters && now < counters[key].expireAt then
      var remaining := rule.limit - counters[key].value;
      if remaining < 0 then 0 else remaining
    else rule.limit
  }

  class Limiter {
    var now: int
    var counters: Counters

    method Allow(identifier: string, rule: Rule) returns (allowed: bool)
      modifies this`counters
      ensures counters == Incremented(old(counters), rule.key + identifier, now, rule.window)
      ensures allowed == Verdict(old(counters), rule.key + identifier, now, rule)
    {
      var key := rule.key + identifier;
      var count := 1;
      if key in counters && now < counters[key].expireAt {
        count := counters[key].value + 1;
        counters := counters[key := Keyed(count, counters[key].expireAt)];
      } else {
        counters := counters[key := Keyed(count, now + rule.window)];
      }
      allowed := count <= rule.limit;
    }

    method Remaining(identifier: string, rule: Rule) returns (remaining: int)
      ensures remaining == RemainingFor(counters, rule.key + identifier, now, rule)
    {
      var key := rule.key + identifier;
      if key !in counters || now >= counters[key].expireAt {
        return rule.limit;
      }
      remaining := rule.limit - counters[key].value;
      if remaining < 0 {
        remaining := 0;
      }
    }
  }

  /** A request is allowed exactly when some were remaining just before it, and an allowed
      request uses up exactly one. */
  lemma AllowedIffRemaining(counters: Counters, key: string, now: int, rule: Rule)
    requires rule.window > 0
    ensures Verdict(counters, key, now, rule) <==> RemainingFor(counters, key, now, rule) > 0
    ensures Verdict(counters, key, now, rule) ==>
              RemainingFor(Incremented(counters, key, now, rule.window), key, now, rule) ==
              RemainingFor(counters, key, now, rule) - 1
    ensures rule.limit >= 0 && !Verdict(counters, key, now, rule) ==> RemainingFor(counters, key, now, rule) == 0
  {
  }

  // ----- runs over many rules and identifiers -----

  datatype Request = Request(rule: Rule, identifier: string, at: int)

  function EventOf(r: Request): Event {
    Event(r.rule.key + r.identifier, r.at, r.rule.window)
  }

  function Events(reqs: seq<Request>): (events: seq<Event>)
    ensures |events| == |reqs|
  {
    seq(|reqs|, i requires 0 <= i < |reqs| => EventOf(reqs[i]))
  }

  predicate IsOf(r: Request, rule: Rule, identifier: string) {
    r.rule == rule && r.identifier == identifier
  }

  /** What the limiter answers to the i-th request. */
  function Allowed(reqs: seq<Request>, i: nat): bool
    requires i < |reqs|
  {
    Verdict(After(Events(reqs), i), reqs[i].rule.key + reqs[i].identifier, reqs[i].at, reqs[i].rule)
  }

  /** How many of the first n requests of the identifier under the rule are allowed in the
      span of the given length that begins at from. */
  function AllowedDuring(reqs: seq<Request>, rule: Rule, identifier: string, from: int, span: int, n: nat): nat
    requires n <= |reqs|
  {
    if n == 0 then 0
    else
      AllowedDuring(reqs, rule, identifier, from, span, n - 1) +
      if IsOf(reqs[n - 1], rule, identifier) && from <= reqs[n - 1].at < from + span && Allowed(reqs, n - 1)
      then 1 else 0
  }

  /** Nothing but requests of this identifier under this rule uses its key. */
  ghost predicate OwnKey(reqs: seq<Request>, rule: Rule, identifier: string) {
    forall i :: 0 <= i < |reqs| && EventOf(reqs[i]).key == rule.key + identifier ==>
      reqs[i].rule == rule && reqs[i].identifier == identifier
  }

  lemma OwnKeyWindow(reqs: seq<Request>, rule: Rule, identifier: string)
    requires OwnKey(reqs, rule, identifier)
    ensures SameWindow(Events(reqs), rule.key + identifier, rule.window)
  {
    forall i | 0 <= i < |reqs| && Events(reqs)[i].key == rule.key + identifier
      ensures Events(reqs)[i].window == rule.window
    {
      assert EventOf(reqs[i]).key == rule.key + identifier;
    }
  }

  /** The requests allowed are those a window counter of the identifier's own requests
      would serve, whatever else is going on under other identifiers and rules. */
  lemma {:induction false} OthersMakeNoDifference(reqs: seq<Request>, rule: Rule, identifier: string, from: int, n: nat)
    requires n <= |reqs| && OwnKey(reqs, rule, identifier)
    ensures var ts := TimesOf(Events(reqs), rule.key + identifier, n);
      AllowedDuring(reqs, rule, identifier, from, rule.window, n) ==
      ServedDuring(ts, rule.window, rule.limit, from, |ts|)
  {
    if n > 0 {
      var key, r := rule.key + identifier, reqs[n - 1];
      var ts := TimesOf(Events(reqs), key, n - 1);
      OthersMakeNoDifference(reqs, rule, identifier, from, n - 1);
      assert Events(reqs)[n - 1] == EventOf(r);
      if EventOf(r).key == key {
        OwnKeyWindow(reqs, rule, identifier);
        KeysAreIndependent(Events(reqs), key, rule.window, n - 1);
        StatePrefix(ts, r.at, rule.window, |ts|);
        ServedPrefix(ts, r.at, rule.window, rule.limit, from, |ts|);
        assert TimesOf(Events(reqs), key, n) == ts + [r.at];
      } else {
        assert TimesOf(Events(reqs), key, n) == ts;
      }
    }
  }

  /** Over any run no span of one window allows one identifier more than 2 * limit - 1
      requests under a rule whose key it shares with nothing else. */
  lemma RunBound(reqs: seq<Request>, rule: Rule, identifier: string, from: int)
    requires Ordered(Events(reqs)) && OwnKey(reqs, rule, identifier)
    requires rule.window > 0 && rule.limit >= 1
    ensures AllowedDuring(reqs, rule, identifier, from, rule.window, |reqs|) <= 2 * rule.limit - 1
  {
    OthersMakeNoDifference(reqs, rule, identifier, from, |reqs|);
    TimesAreMonotone(Events(reqs), rule.key + identifier, |reqs|);
    var ts := TimesOf(Events(reqs), rule.key + identifier, |reqs|);
    SpanBound(ts, rule.window, rule.limit, from, |ts|);
  }

  // ----- the standing rules -----

  predicate Standing(rule: Rule) {
    rule == RULE_MESSAGE || rule == RULE_MATCH || rule == RULE_CONNECT
  }

  /** Under the three standing rules a key tells both the rule and the identifier. */
  lemma KeysNeverCollide(r: Rule, i: string, r': Rule, i': string)
    requires Standing(r) && Standing(r')
    ensures r.key + i == r'.key + i' <==> r == r' && i == i'
  {
    var k, k' := r.key + i, r'.key + i';
    assert RULE_MESSAGE.key[3..5] == "ms" && RULE_MATCH.key[3..5] == "ma" && RULE_CONNECT.key[3..5] == "co";
    assert k[3..5] == r.key[3..5] && k'[3..5] == r'.key[3..5];
    assert "ms"[1] != "ma"[1] && "ms"[0] != "co"[0] && "ma"[0] != "co"[0];
    assert k[|r.key|..] == i && k'[|r'.key|..] == i';
  }

  lemma StandingKeys(reqs: seq<Request>, rule: Rule, identifier: string)
    requires Standing(rule) && forall i :: 0 <= i < |reqs| ==> Standing(reqs[i].rule)
    ensures OwnKey(reqs, rule, identifier)
  {
    forall i | 0 <= i < |reqs| && EventOf(reqs[i]).key == rule.key + identifier
      ensures reqs[i].rule == rule && reqs[i].identifier == identifier
    {
      KeysNeverCollide(reqs[i].rule, reqs[i].identifier, rule, identifier);
    }
  }

  /** With all three rules in use, over any run: at most 9 messages in any 10 seconds, 19
      match requests and 9 connections in any minute, for every identifier. */
  lemma StandingRules(reqs: seq<Request>, identifier: string, from: int)
    requires Ordered(Events(reqs)) && forall i :: 0 <= i < |reqs| ==> Standing(reqs[i].rule)
    ensures AllowedDuring(reqs, RULE_MESSAGE, identifier, from, 10_000, |reqs|) <= 9
    ensures AllowedDuring(reqs, RULE_MATCH, identifier, from, 60_000, |reqs|) <= 19
    ensures AllowedDuring(reqs, RULE_CONNECT, identifier, from, 60_000, |reqs|) <= 9
  {
    StandingKeys(reqs, RULE_MESSAGE, identifier);
    StandingKeys(reqs, RULE_MATCH, identifier);
    StandingKeys(reqs, RULE_CONNECT, identifier);
    RunBound(reqs, RULE_MESSAGE, identifier, from);
    RunBound(reqs, RULE_MATCH, identifier, from);
    RunBound(reqs, RULE_CONNECT, identifier, from);
  }

  // ----- what is allowed after a silence -----

  /** How many of the requests before n are the identifier's under the rule. */
  function Own(reqs: seq<Request>, rule: Rule, identifier: string, n: nat): nat
    requires n <= |reqs|
  {
    if n == 0 then 0 else Own(reqs, rule, identifier, n - 1) + if IsOf(reqs[n - 1], rule, identifier) then 1 else 0
  }

  /** The identifier's i-th request comes at least one span after its previous one. */
  ghost predicate AfterSilence(reqs: seq<Request>, rule: Rule, identifier: string, span: int, i: nat)
    requires i < |reqs|
  {
    && IsOf(reqs[i], rule, identifier)
    && forall j :: 0 <= j < i && IsOf(reqs[j], rule, identifier) ==> reqs[j].at + span <= reqs[i].at
  }

  lemma EventKeys(reqs: seq<Request>, rule: Rule, identifier: string, n: nat)
    requires n < |reqs| && OwnKey(reqs, rule, identifier)
    ensures Events(reqs)[n].at == reqs[n].at
    ensures Events(reqs)[n].key == rule.key + identifier <==> IsOf(reqs[n], rule, identifier)
  {
    assert Events(reqs)[n] == EventOf(reqs[n]);
  }

  /** The times of the own requests, and where the i-th request is among them. */
  lemma {:induction false} OwnTimes(reqs: seq<Request>, rule: Rule, identifier: string, i: nat, n: nat)
    requires i < n <= |reqs| && OwnKey(reqs, rule, identifier) && IsOf(reqs[i], rule, identifier)
    ensures var ts := TimesOf(Events(reqs), rule.key + identifier, n);
      && |ts| == Own(reqs, rule, identifier, n)
      && Own(reqs, rule, identifier, i) < |ts|
      && ts[Own(reqs, rule, identifier, i)] == reqs[i].at
  {
    EventKeys(reqs, rule, identifier, n - 1);
    if i + 1 < n {
      OwnTimes(reqs, rule, identifier, i, n - 1);
    } else {
      OwnLength(reqs, rule, identifier, i);
    }
  }

  lemma {:induction false} OwnLength(reqs: seq<Request>, rule: Rule, identifier: string, n: nat)
    requires n <= |reqs| && OwnKey(reqs, rule, identifier)
    ensures |TimesOf(Events(reqs), rule.key + identifier, n)| == Own(reqs, rule, identifier, n)
  {
    if n > 0 {
      EventKeys(reqs, rule, identifier, n - 1);
      OwnLength(reqs, rule, identifier, n - 1);
    }
  }

  lemma {:induction false} LastOwn(reqs: seq<Request>, rule: Rule, identifier: string, n: nat) returns (j: nat)
    requires n <= |reqs| && OwnKey(reqs, rule, identifier) && Own(reqs, rule, identifier, n) > 0
    ensures j < n && IsOf(reqs[j], rule, identifier)
    ensures Own(reqs, rule, identifier, j) == Own(reqs, rule, identifier, n) - 1
  {
    if IsOf(reqs[n - 1], rule, identifier) {
      j := n - 1;
    } else {
      j := LastOwn(reqs, rule, identifier, n - 1);
    }
  }

  /** After a silence of one window, the first limit requests within a window are allowed and
      the further ones refused. */
  lemma AfterSilenceExactly(reqs: seq<Request>, rule: Rule, identifier: string, i: nat, k: nat)
    requires Ordered(Events(reqs)) && OwnKey(reqs, rule, identifier) && rule.window > 0
    requires i <= k < |reqs| && AfterSilence(reqs, rule, identifier, rule.window, i)
    requires IsOf(reqs[k], rule, identifier) && reqs[k].at < reqs[i].at + rule.window
    ensures Allowed(reqs, k) <==>
              Own(reqs, rule, identifier, k) - Own(reqs, rule, identifier, i) < rule.limit
  {
    hide Own, TimesOf, Events, Ordered, OwnKey, Allowed, CountAt, StartAt;
    var key := rule.key + identifier;
    var a, p := Own(reqs, rule, identifier, i), Own(reqs, rule, identifier, k);
    var ts := TimesOf(Events(reqs), key, k + 1);
    OwnTimes(reqs, rule, identifier, i, k + 1);
    OwnTimes(reqs, rule, identifier, k, k + 1);
    OwnGrows(reqs, rule, identifier, i, k);
    if a > 0 {
      var j := LastOwn(reqs, rule, identifier, i);
      OwnTimes(reqs, rule, identifier, j, k + 1);
    }
    TimesAreMonotone(Events(reqs), key, k + 1);
    FreshWindow(ts, rule.window, a, p);
    CountDecides(reqs, rule, identifier, k);
  }

  lemma {:induction false} OwnGrows(reqs: seq<Request>, rule: Rule, identifier: string, i: nat, k: nat)
    requires i <= k <= |reqs|
    ensures Own(reqs, rule, identifier, i) <= Own(reqs, rule, identifier, k)
  {
    if i < k {
      OwnGrows(reqs, rule, identifier, i, k - 1);
    }
  }

  lemma CountDecides(reqs: seq<Request>, rule: Rule, identifier: string, k: nat)
    requires k < |reqs| && OwnKey(reqs, rule, identifier) && IsOf(reqs[k], rule, identifier)
    ensures var ts := TimesOf(Events(reqs), rule.key + identifier, k + 1);
      && Own(reqs, rule, identifier, k) < |ts|
      && (Allowed(reqs, k) <==> CountAt(ts, rule.window, Own(reqs, rule, identifier, k)) <= rule.limit)
  {
    var key := rule.key + identifier;
    var before := TimesOf(Events(reqs), key, k);
    EventKeys(reqs, rule, identifier, k);
    OwnLength(reqs, rule, identifier, k);
    OwnKeyWindow(reqs, rule, identifier);
    KeysAreIndependent(Events(reqs), key, rule.window, k);
    StatePrefix(before, reqs[k].at, rule.window, |before|);
    assert TimesOf(Events(reqs), key, k + 1) == before + [reqs[k].at];
  }

  /** If request i comes after a silence of one span, request k within the span is allowed
      exactly when fewer than limit have come since. */
  ghost predicate Quota(reqs: seq<Request>, rule: Rule, identifier: string, span: int, limit: int, i: nat, k: nat)
    requires i <= k < |reqs|
  {
    (AfterSilence(reqs, rule, identifier, span, i) && IsOf(reqs[k], rule, identifier) &&
     reqs[k].at < reqs[i].at + span) ==>
      (Allowed(reqs, k) <==> Own(reqs, rule, identifier, k) - Own(reqs, rule, identifier, i) < limit)
  }

  lemma StandingQuota(reqs: seq<Request>, rule: Rule, identifier: string, i: nat, k: nat)
    requires Ordered(Events(reqs)) && Standing(rule) && forall j :: 0 <= j < |reqs| ==> Standing(reqs[j].rule)
    requires i <= k < |reqs|
    ensures Quota(reqs, rule, identifier, rule.window, rule.limit, i, k)
  {
    hide AfterSilence, Own, Allowed, OwnKey, Ordered, Events;
    StandingKeys(reqs, rule, identifier);
    if AfterSilence(reqs, rule, identifier, rule.window, i) && IsOf(reqs[k], rule, identifier) &&
       reqs[k].at < reqs[i].at + rule.window {
      AfterSilenceExactly(reqs, rule, identifier, i, k);
    }
  }

  /** After ten seconds without a message the next five within ten seconds pass and further
      ones do not; likewise ten match requests and five connections in a minute. */
  lemma StandingQuotas(reqs: seq<Request>, identifier: string, i: nat, k: nat)
    requires Ordered(Events(reqs)) && forall j :: 0 <= j < |reqs| ==> Standing(reqs[j].rule)
    requires i <= k < |reqs|
    ensures Quota(reqs, RULE_MESSAGE, identifier, 10_000, 5, i, k)
    ensures Quota(reqs, RULE_MATCH, identifier, 60_000, 10, i, k)
    ensures Quota(reqs, RULE_CONNECT, identifier, 60_000, 5, i, k)
  {
    hide Quota;
    StandingQuota(reqs, RULE_MESSAGE, identifier, i, k);
    StandingQuota(reqs, RULE_MATCH, identifier, i, k);
    StandingQuota(reqs, RULE_CONNECT, identifier, i, k);
  }
}
