/**
 Report counting and automatic bans (internal/ban/store.go). Times are milliseconds.
 */
module BanStore {
  import opened Redis
  import opened FixedWindow

  const MINUTE := 60_000
  const HOUR := 60 * MINUTE
  const DAY := 24 * HOUR
  const BAN_15_MIN := 15 * MINUTE
  const BAN_1_HOUR := HOUR
  const BAN_24_HOUR := DAY
  const REPORTS_TTL := DAY
  const AUTO_BAN_THRESHOLD := 3

  function EscalationDuration(offenses: int): int {
    if offenses <= 1 then BAN_15_MIN else if offenses == 2 then BAN_1_HOUR else BAN_24_HOUR
  }

  datatype Db = Db(reports: Counters, bans: map<string, Keyed<string>>)

  function Counted(db: Db, fp: string, now: int): Db {
    db.(reports := Incremented(db.reports, fp, now, REPORTS_TTL))
  }

  function Banned(db: Db, fp: string, now: int, duration: int, reason: string): Db {
    db.(bans := db.bans[fp := Keyed(reason, now + duration)])
  }

  function Reported(db: Db, fp: string, now: int): Db {
    var count := Hit(Lookup(db.reports, fp), now, REPORTS_TTL).value;
    if count >= AUTO_BAN_THRESHOLD then
      Banned(Counted(db, fp, now), fp, now, EscalationDuration(count), "multiple_reports")
    else Counted(db, fp, now)
  }

  function Escalated(db: Db, fp: string, now: int, reason: string): Db {
    var count := Hit(Lookup(db.reports, fp), now, REPORTS_TTL).value;
    Banned(Counted(db, fp, now), fp, now, EscalationDuration(count), reason)
  }

  function Unbanned(db: Db, fp: string): Db {
    db.(bans := db.bans - {fp})
  }

  function OffenseCount(db: Db, fp: string, now: int): nat {
    if fp in db.reports && now < db.reports[fp].expireAt then db.reports[fp].value else 0
  }

  predicate BanLive(db: Db, fp: string, now: int) {
    fp in db.bans && now < db.bans[fp].expireAt
  }

  /** TTL answers in seconds, rounded to the nearest. */
  function SecondsLeft(db: Db, fp: string, now: int): int {
    if BanLive(db, fp, now) then (db.bans[fp].expireAt - now + 500) / 1000 else 0
  }

  class Store {
    var now: int
    var reports: map<string, Keyed<nat>>
    var bans: map<string, Keyed<string>>

    function State(): Db
      reads this
    {
      Db(reports, bans)
    }

    method IsBanned(fp: string) returns (banned: bool, remaining: int, reason: string)
      ensures banned == BanLive(State(), fp, now)
      ensures remaining == SecondsLeft(State(), fp, now)
      ensures reason == if banned then bans[fp].value else ""
    {
      if fp !in bans || now >= bans[fp].expireAt {
        return false, 0, "";
      }
      return true, (bans[fp].expireAt - now + 500) / 1000, bans[fp].value;
    }

    method Ban(fp: string, duration: int, reason: string)
      modifies this`bans
      ensures State() == Banned(old(State()), fp, now, duration, reason)
    {
      bans := bans[fp := Keyed(reason, now + duration)];
    }

    method Unban(fp: string)
      modifies this`bans
      ensures State() == Unbanned(old(State()), fp)
      ensures forall t :: !BanLive(State(), fp, t)
      ensures forall other, t :: other != fp ==> BanLive(State(), other, t) == old(BanLive(State(), other, t))
    {
      bans := bans - {fp};
    }

    method Increment(fp: string) returns (count: nat)
      modifies this`reports
      ensures State() == Counted(old(State()), fp, now)
      ensures count == Hit(Lookup(old(reports), fp), now, REPORTS_TTL).value
    {
      count := 1;
      if fp in reports && now < reports[fp].expireAt {
        count := reports[fp].value + 1;
        reports := reports[fp := Keyed(count, reports[fp].expireAt)];
      } else {
        reports := reports[fp := Keyed(count, now + REPORTS_TTL)];
      }
    }

    method Escalate(fp: string, reason: string) returns (duration: int)
      modifies this
      ensures State() == Escalated(old(State()), fp, now, reason) && now == old(now)
      ensures bans[fp].expireAt == now + duration
    {
      var count := Increment(fp);
      duration := EscalationDuration(count);
      Ban(fp, duration, reason);
    }

    method ReportAndCheck(fp: string) returns (banned: bool, duration: int)
      modifies this
      ensures State() == Reported(old(State()), fp, now) && now == old(now)
      ensures banned <==> OffenseCount(State(), fp, now) >= AUTO_BAN_THRESHOLD
      ensures duration == if banned then BAN_24_HOUR else 0
    {
      var count := Increment(fp);
      if count >= AUTO_BAN_THRESHOLD {
        duration := EscalationDuration(count);
        Ban(fp, duration, "multiple_reports");
        return true, duration;
      }
      return false, 0;
    }
  }

  /** The server's report handler: a report that brings no ban by itself brings one when
      the stored reports of the last 24 hours, counted elsewhere, reach the threshold. */
  function Handled(db: Db, fp: string, now: int, stored: int): Db {
    var db' := Reported(db, fp, now);
    if OffenseCount(db', fp, now) < AUTO_BAN_THRESHOLD <= stored then Escalated(db', fp, now, "multiple_reports")
    else db'
  }

  method HandleReport(store: Store, fp: string, stored: int) returns (banned: bool, duration: int)
    modifies store
    ensures store.State() == Handled(old(store.State()), fp, store.now, stored) && store.now == old(store.now)
    ensures banned <==> OffenseCount(store.State(), fp, store.now) >= AUTO_BAN_THRESHOLD || stored >= AUTO_BAN_THRESHOLD
    ensures banned ==> fp in store.bans && store.bans[fp].expireAt == store.now + duration
  {
    banned, duration := store.ReportAndCheck(fp);
    if !banned && stored >= AUTO_BAN_THRESHOLD {
      duration := store.Escalate(fp, "multiple_reports");
      banned := true;
    }
  }

  /** The seconds answered are the nearest to the time left, half a second counting up. */
  lemma SecondsAreNearest(db: Db, fp: string, now: int)
    requires BanLive(db, fp, now)
    ensures var left, seconds := db.bans[fp].expireAt - now, SecondsLeft(db, fp, now);
      1000 * seconds - 500 <= left < 1000 * seconds + 500
  {
  }

  /** The bans in seconds: a day from the third counted report on and none before; an
      escalation brings a quarter of an hour, an hour, or a day. */
  lemma BanLengths(db: Db, fp: string, now: int, reason: string)
    ensures var count := OffenseCount(db, fp, now);
      && (count >= 2 ==> SecondsLeft(Reported(db, fp, now), fp, now) == 86_400)
      && (count < 2 ==> SecondsLeft(Reported(db, fp, now), fp, now) == SecondsLeft(db, fp, now))
      && SecondsLeft(Escalated(db, fp, now, reason), fp, now) ==
         (if count == 0 then 900 else if count == 1 then 3_600 else 86_400)
      && OffenseCount(Reported(db, fp, now), fp, now) == OffenseCount(Escalated(db, fp, now, reason), fp, now) ==
         count + 1
  {
  }

  /** Lifting a ban undoes it at all times and for nobody else, but forgives nothing: with
      two reports still counted the next one bans at once. */
  lemma UnbanIsNoAmnesty(db: Db, fp: string, now: int, duration: int, reason: string)
    ensures Unbanned(Banned(db, fp, now, duration, reason), fp) == Unbanned(db, fp)
    ensures fp !in db.bans ==> Unbanned(Banned(db, fp, now, duration, reason), fp) == db
    ensures BanLive(Reported(Unbanned(db, fp), fp, now), fp, now) <==> OffenseCount(db, fp, now) >= 2
  {
    assert Unbanned(Banned(db, fp, now, duration, reason), fp).bans == Unbanned(db, fp).bans;
    assert fp !in db.bans ==> db.bans - {fp} == db.bans;
  }

  // ----- how many reports bring a ban -----

  ghost predicate Bans(ts: seq<int>, i: nat)
    requires i < |ts|
  {
    CountAt(ts, REPORTS_TTL, i) >= AUTO_BAN_THRESHOLD
  }

  /** A ban has at least three reports behind it within the last 24 hours. */
  lemma BanNeedsThreeReports(ts: seq<int>, i: nat)
    requires Monotone(ts) && i < |ts| && Bans(ts, i)
    ensures i >= 2 && ts[i] - 86_400_000 < ts[i - 2]
  {
    WindowOf(ts, REPORTS_TTL, i);
  }

  /** Any four reports within 24 hours include a banning one: otherwise a span would hold
      four increments counted at most two, more than the window bound for a limit of two. */
  lemma FourReportsBan(ts: seq<int>, i: nat, last: nat)
    requires Monotone(ts) && i + 3 <= last < |ts| && ts[last] < ts[i] + 86_400_000
    ensures exists j: nat :: i <= j <= last && Bans(ts, j)
  {
    SpanBound(ts, REPORTS_TTL, 2, ts[i], i + 4);
    assert ts[i] <= ts[i + 1] <= ts[i + 2] <= ts[i + 3] <= ts[last];
    var served := n requires 0 <= n <= |ts| => ServedDuring(ts, REPORTS_TTL, 2, ts[i], n);
    assert served(i + 4) == served(i + 3) + if Bans(ts, i + 3) then 0 else 1;
    assert served(i + 3) == served(i + 2) + if Bans(ts, i + 2) then 0 else 1;
    assert served(i + 2) == served(i + 1) + if Bans(ts, i + 1) then 0 else 1;
    assert served(i + 1) == served(i) + if Bans(ts, i) then 0 else 1;
  }

  /** Four is the least such number: three reports within 24 hours, spread over two
      windows, can all go unpunished. */
  lemma ThreeReportsMayNotBan()
    ensures var ts := [0, DAY - 1, DAY, DAY + 1];
      Monotone(ts) && ts[3] < ts[1] + DAY && !Bans(ts, 1) && !Bans(ts, 2) && !Bans(ts, 3)
  {
    var ts := [0, DAY - 1, DAY, DAY + 1];
    assert State(ts, REPORTS_TTL, 0) == None;
    assert State(ts, REPORTS_TTL, 1) == Some(Keyed(1, DAY));
    assert State(ts, REPORTS_TTL, 2) == Some(Keyed(2, DAY));
    assert State(ts, REPORTS_TTL, 3) == Some(Keyed(1, 2 * DAY));
    assert State(ts, REPORTS_TTL, 4) == Some(Keyed(2, 2 * DAY));
  }

  // ----- runs of reports against any fingerprints -----

  /** stored is the number of stored reports the handler finds. */
  datatype Report = Report(fp: string, at: int, stored: int)

  function After(reports: seq<Report>, n: nat): Db
    requires n <= |reports|
  {
    if n == 0 then Db(map[], map[])
    else Handled(After(reports, n - 1), reports[n - 1].fp, reports[n - 1].at, reports[n - 1].stored)
  }

  function Events(reports: seq<Report>): (events: seq<Event>)
    ensures |events| == |reports|
  {
    seq(|reports|, i requires 0 <= i < |reports| => Event(reports[i].fp, reports[i].at, REPORTS_TTL))
  }

  /** When fp was reported. */
  function ReportTimes(reports: seq<Report>, fp: string, n: nat): seq<int>
    requires n <= |reports|
  {
    TimesOf(Events(reports), fp, n)
  }

  /** The stored reports never step in: they reach the threshold only when the counter does. */
  ghost predicate CountersDecide(reports: seq<Report>) {
    forall i :: 0 <= i < |reports| ==> CounterDecides(After(reports, i), reports[i])
  }

  predicate CounterDecides(db: Db, r: Report) {
    r.stored < AUTO_BAN_THRESHOLD || OffenseCount(db, r.fp, r.at) + 1 >= AUTO_BAN_THRESHOLD
  }

  lemma CounterDecidesAlone(db: Db, r: Report)
    requires CounterDecides(db, r)
    ensures Handled(db, r.fp, r.at, r.stored) == Reported(db, r.fp, r.at)
  {
  }

  lemma CounterDecidesAt(reports: seq<Report>, n: nat)
    requires n < |reports| && CountersDecide(reports)
    ensures CounterDecides(After(reports, n), reports[n])
  {
    hide After, CounterDecides;
  }

  lemma NextReport(reports: seq<Report>, n: nat)
    requires n < |reports| && CountersDecide(reports)
    ensures After(reports, n + 1) == Reported(After(reports, n), reports[n].fp, reports[n].at)
  {
    hide CountersDecide, CounterDecides, Handled, Reported;
    CounterDecidesAt(reports, n);
    CounterDecidesAlone(After(reports, n), reports[n]);
  }

  lemma {:induction false} CountersFollowReports(reports: seq<Report>, n: nat)
    requires n <= |reports| && CountersDecide(reports)
    ensures After(reports, n).reports == FixedWindow.After(Events(reports), n)
  {
    hide CountersDecide, Handled;
    if n > 0 {
      CountersFollowReports(reports, n - 1);
      NextReport(reports, n - 1);
      assert Events(reports)[n - 1] == Event(reports[n - 1].fp, reports[n - 1].at, REPORTS_TTL);
    }
  }

  /** A fingerprint's counter is that of its own reports. */
  lemma FingerprintsAreIndependent(reports: seq<Report>, fp: string, n: nat)
    requires n <= |reports| && CountersDecide(reports)
    ensures var ts := ReportTimes(reports, fp, n); Lookup(After(reports, n).reports, fp) == State(ts, REPORTS_TTL, |ts|)
  {
    hide CountersDecide, After;
    CountersFollowReports(reports, n);
    KeysAreIndependent(Events(reports), fp, REPORTS_TTL, n);
  }

  lemma ReportBans(reports: seq<Report>, n: nat)
    requires n < |reports| && CountersDecide(reports)
    ensures var ts := ReportTimes(reports, reports[n].fp, n);
      ReportTimes(reports, reports[n].fp, n + 1) == ts + [reports[n].at]
    ensures var fp, ts := reports[n].fp, ReportTimes(reports, reports[n].fp, n);
      After(reports, n + 1).bans ==
      if Bans(ts + [reports[n].at], |ts|) then
        After(reports, n).bans[fp := Keyed("multiple_reports", reports[n].at + DAY)]
      else After(reports, n).bans
  {
    hide CountersDecide, After;
    var fp, ts := reports[n].fp, ReportTimes(reports, reports[n].fp, n);
    assert Events(reports)[n] == Event(fp, reports[n].at, REPORTS_TTL);
    FingerprintsAreIndependent(reports, fp, n);
    StatePrefix(ts, reports[n].at, REPORTS_TTL, |ts|);
    NextReport(reports, n);
  }

  ghost predicate BannedBy(ts: seq<int>, now: int) {
    exists i :: 0 <= i < |ts| && Bans(ts, i) && now < ts[i] + 86_400_000
  }

  lemma OneMoreReport(ts: seq<int>, t: int, now: int)
    requires Monotone(ts + [t])
    ensures BannedBy(ts + [t], now) <==> if Bans(ts + [t], |ts|) then now < t + DAY else BannedBy(ts, now)
  {
    var ts' := ts + [t];
    forall i | 0 <= i < |ts| ensures Bans(ts', i) == Bans(ts, i) && ts'[i] == ts[i] <= t {
      StatePrefix(ts, t, REPORTS_TTL, i + 1);
      assert ts'[i] <= ts'[|ts|];
    }
    if i :| 0 <= i < |ts'| && Bans(ts', i) && now < ts'[i] + DAY {
      assert i < |ts| ==> Bans(ts, i);
    }
    if i :| 0 <= i < |ts| && Bans(ts, i) && now < ts[i] + DAY {
      assert Bans(ts', i) && now < ts'[i] + DAY;
    }
    if Bans(ts', |ts|) && now < t + DAY {
      assert ts'[|ts|] == t;
    }
  }

  /** In a run of reports against any fingerprints, one is banned at a later time exactly
      when a banning report against it fell within the 24 hours before. */
  lemma {:induction false} BannedExactlyWhen(reports: seq<Report>, fp: string, n: nat, now: int)
    requires Ordered(Events(reports)) && CountersDecide(reports) && n <= |reports|
    ensures BanLive(After(reports, n), fp, now) <==> BannedBy(ReportTimes(reports, fp, n), now)
  {
    hide CountersDecide;
    if n > 0 {
      BannedExactlyWhen(reports, fp, n - 1, now);
      ReportBans(reports, n - 1);
      assert Events(reports)[n - 1].key == reports[n - 1].fp;
      hide After;
      if reports[n - 1].fp == fp {
        TimesAreMonotone(Events(reports), fp, n);
        OneMoreReport(ReportTimes(reports, fp, n - 1), reports[n - 1].at, now);
      } else {
        assert ReportTimes(reports, fp, n) == ReportTimes(reports, fp, n - 1);
      }
    }
  }

  lemma {:induction false} ExpiryBounded(reports: seq<Report>, fp: string, n: nat)
    requires Ordered(Events(reports)) && 0 < n <= |reports|
    ensures fp in After(reports, n).bans ==> After(reports, n).bans[fp].expireAt <= reports[n - 1].at + DAY
  {
    if n > 1 {
      ExpiryBounded(reports, fp, n - 1);
      assert Events(reports)[n - 2].at <= Events(reports)[n - 1].at;
    }
  }

  /** In any run of handled reports a report brings the end of a ban forward exactly when
      the stored reports bring the new ban, the counter has lapsed, and more than an hour
      was left: the counters alone never shorten a ban. */
  lemma ReportShortensExactlyWhen(reports: seq<Report>, fp: string, n: nat)
    requires Ordered(Events(reports)) && n < |reports| && fp in After(reports, n).bans
    ensures fp in After(reports, n + 1).bans
    ensures var r, expireAt := reports[n], After(reports, n).bans[fp].expireAt;
      After(reports, n + 1).bans[fp].expireAt < expireAt <==>
        r.fp == fp && r.stored >= 3 && OffenseCount(After(reports, n), fp, r.at) == 0 && expireAt > r.at + HOUR
  {
    ExpiryBounded(reports, fp, n);
    assert Events(reports)[n - 1].at <= Events(reports)[n].at;
    hide After;
    assert After(reports, n + 1) == Handled(After(reports, n), reports[n].fp, reports[n].at, reports[n].stored);
  }

  /** Reports counted by Redis alone never shorten anybody's ban. */
  lemma ReportsNeverShorten(reports: seq<Report>, fp: string, n: nat)
    requires Ordered(Events(reports)) && CountersDecide(reports) && n < |reports|
    ensures fp in After(reports, n).bans ==>
              fp in After(reports, n + 1).bans &&
              After(reports, n).bans[fp].expireAt <= After(reports, n + 1).bans[fp].expireAt
  {
    hide CountersDecide, After, Events;
    if fp in After(reports, n).bans {
      ReportShortensExactlyWhen(reports, fp, n);
      CounterDecidesAt(reports, n);
    }
  }

  /** Escalate by itself: it replaces a ban that would have outlived the one it brings,
      which is a short one when the offence counter has lapsed or stands at one. */
  lemma EscalateShortensExactlyWhen(db: Db, fp: string, now: int, reason: string)
    requires fp in db.bans
    ensures Escalated(db, fp, now, reason).bans[fp].expireAt < db.bans[fp].expireAt <==>
              || (OffenseCount(db, fp, now) == 0 && db.bans[fp].expireAt > now + BAN_15_MIN)
              || (OffenseCount(db, fp, now) == 1 && db.bans[fp].expireAt > now + BAN_1_HOUR)
              || db.bans[fp].expireAt > now + BAN_24_HOUR
  {
  }

  /** In the handler the report has just been counted, so a lapsed counter stands at one
      when Escalate runs, and the quarter of an hour never occurs. */
  lemma HandledShortensExactlyWhen(db: Db, fp: string, now: int, stored: int)
    requires fp in db.bans
    ensures var left := db.bans[fp].expireAt - now;
      Handled(db, fp, now, stored).bans[fp].expireAt < db.bans[fp].expireAt <==>
        || (OffenseCount(db, fp, now) == 0 && stored >= 3 && left > BAN_1_HOUR)
        || (OffenseCount(db, fp, now) == 1 && stored >= 3 && left > BAN_24_HOUR)
        || (OffenseCount(db, fp, now) >= 2 && left > BAN_24_HOUR)
  {
  }

  /** Three reports, the last an hour before their window closes, ban until 23 hours after
      it. A fourth as the window closes, the third stored within the last day, leaves an hour. */
  lemma FourthReportShortens(fp: string)
    ensures var reports := [Report(fp, 0, 1), Report(fp, 1, 2), Report(fp, 23 * HOUR, 3), Report(fp, DAY, 3)];
      && fp in After(reports, 3).bans && After(reports, 3).bans[fp].expireAt == 47 * HOUR
      && fp in After(reports, 4).bans && After(reports, 4).bans[fp].expireAt == DAY + HOUR
  {
    var reports := [Report(fp, 0, 1), Report(fp, 1, 2), Report(fp, 23 * HOUR, 3), Report(fp, DAY, 3)];
    assert After(reports, 0) == Db(map[], map[]);
    assert After(reports, 1) == Db(map[fp := Keyed(1, DAY)], map[]);
    assert After(reports, 2) == Db(map[fp := Keyed(2, DAY)], map[]);
    assert After(reports, 3) ==
      Db(map[fp := Keyed(3, DAY)], map[fp := Keyed("multiple_reports", 47 * HOUR)]);
  }
}
