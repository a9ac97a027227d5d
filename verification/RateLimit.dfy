/**
 The in-memory limiter and cooldowns (name-authority/src/ratelimit.rs): hits are forgotten
 as soon as a call finds them outside its window, and a large table is cleaned as a whole.
 Times are instants of one monotonic clock.
 */
module RateLimit {
  type Hits = seq<int>
  type Table = map<string, Hits>

  const CLEANUP_ABOVE := 50_000

  function BucketKey(bucket: string, key: string): string {
    bucket + ":" + key
  }

  lemma ColonEnds(s: string, b: string, c: string)
    requires |b| < |s| && s[|b|] == ':' && |c| <= |s| && c == s[..|c|]
    ensures ':' !in c ==> |c| <= |b|
  {
    if |b| < |c| {
      assert c[|b|] == ':';
    }
  }

  /** Buckets do not share keys as long as their names hold no colon. */
  lemma BucketKeysDistinct(b: string, k: string, c: string, l: string)
    requires ':' !in b && ':' !in c && BucketKey(b, k) == BucketKey(c, l)
    ensures b == c && k == l
  {
    var s := BucketKey(b, k);
    assert s[|b|] == ':' && b == s[..|b|] && k == s[|b| + 1..];
    assert s[|c|] == ':' && c == s[..|c|] && l == s[|c| + 1..];
    ColonEnds(s, b, c);
    ColonEnds(s, c, b);
  }

  predicate Within(t: int, now: int, window: nat) {
    now - t < window
  }

  /** The hits younger than `window`, in order: `retain`. */
  function Keep(hits: Hits, now: int, window: nat): (r: Hits)
    ensures |r| <= |hits|
    ensures forall t :: t in r <==> t in hits && Within(t, now, window)
  {
    if hits == [] then []
    else
      var last := hits[|hits| - 1];
      var rest := Keep(hits[..|hits| - 1], now, window);
      assert hits == hits[..|hits| - 1] + [last];
      if Within(last, now, window) then rest + [last] else rest
  }

  predicate Fresh(hits: Hits, now: int, window: nat) {
    exists t | t in hits :: Within(t, now, window)
  }

  function HitsOf(table: Table, name: string): Hits {
    if name in table then table[name] else []
  }

  function Cleanup(table: Table, now: int, window: nat): Table {
    map name | name in table && Fresh(table[name], now, window) :: table[name]
  }

  // ---------------------------------------------------------------------------
  // The calls

  datatype Call =
    | Allow(name: string, max: nat, window: nat, now: int)
    | CooldownActive(name: string, window: nat, now: int)
    | RecordOp(name: string, now: int)

  /** The table after an accepted `allow`, before the cleanup. */
  function Pushed(table: Table, c: Call): Table
    requires c.Allow?
  {
    table[c.name := Keep(HitsOf(table, c.name), c.now, c.window) + [c.now]]
  }

  predicate Cleans(table: Table, c: Call) {
    c.Allow? && |Keep(HitsOf(table, c.name), c.now, c.window)| < c.max && |Pushed(table, c)| > CLEANUP_ABOVE
  }

  /** The program's own answer; `record_op` answers nothing, here `true`. */
  function Answer(table: Table, c: Call): bool {
    match c
    case Allow(name, max, window, now) => |Keep(HitsOf(table, name), now, window)| < max
    case CooldownActive(name, window, now) => Keep(HitsOf(table, name), now, window) != []
    case RecordOp(_, _) => true
  }

  function After(table: Table, c: Call): Table {
    match c
    case Allow(name, max, window, now) =>
      if !Answer(table, c) then table[name := Keep(HitsOf(table, name), now, window)]
      else if Cleans(table, c) then Cleanup(Pushed(table, c), now, window)
      else Pushed(table, c)
    case CooldownActive(name, window, now) =>
      if name in table then table[name := Keep(table[name], now, window)] else table
    case RecordOp(name, now) => table[name := HitsOf(table, name) + [now]]
  }

  class Limiter {
    var rate: Table

    constructor ()
      ensures rate == map[]
    {
      rate := map[];
    }

    method AllowCall(bucket: string, ip: string, max: nat, window: nat, now: int) returns (allowed: bool)
      modifies this
      ensures var c := Allow(BucketKey(bucket, ip), max, window, now);
              rate == After(old(rate), c) && allowed == Answer(old(rate), c)
    {
      var name := BucketKey(bucket, ip);
      if name !in rate {
        rate := rate[name := []];
      }
      rate := rate[name := Keep(rate[name], now, window)];
      if |rate[name]| >= max {
        return false;
      }
      rate := rate[name := rate[name] + [now]];
      assert rate == Pushed(old(rate), Allow(name, max, window, now));
      if |rate| > CLEANUP_ABOVE {
        rate := map k | k in rate && Fresh(rate[k], now, window) :: rate[k];
      }
      return true;
    }

    method Cooling(bucket: string, key: string, window: nat, now: int) returns (active: bool)
      modifies this
      ensures var c := CooldownActive(BucketKey(bucket, key), window, now);
              rate == After(old(rate), c) && active == Answer(old(rate), c)
    {
      var name := BucketKey(bucket, key);
      if name in rate {
        rate := rate[name := Keep(rate[name], now, window)];
        return rate[name] != [];
      }
      return false;
    }

    method Record(bucket: string, key: string, now: int)
      modifies this
      ensures rate == After(old(rate), RecordOp(BucketKey(bucket, key), now))
    {
      var name := BucketKey(bucket, key);
      if name !in rate {
        rate := rate[name := []];
      }
      rate := rate[name := rate[name] + [now]];
    }
  }

  // ---------------------------------------------------------------------------
  // The reference: a log that only grows

  datatype Hit = Hit(name: string, at: int)

  type Log = seq<Hit>

  /** The hits of one bucket younger than `window`. */
  function Recent(log: Log, name: string, now: int, window: nat): Hits {
    if log == [] then []
    else
      var last := log[|log| - 1];
      var rest := Recent(log[..|log| - 1], name, now, window);
      if last.name == name && Within(last.at, now, window) then rest + [last.at] else rest
  }

  function LogAnswer(log: Log, c: Call): bool {
    match c
    case Allow(name, max, window, now) => |Recent(log, name, now, window)| < max
    case CooldownActive(name, window, now) => Recent(log, name, now, window) != []
    case RecordOp(_, _) => true
  }

  /** Accepted calls and recorded operations are logged. */
  function LogAfter(log: Log, c: Call): Log {
    if c.RecordOp? || (c.Allow? && LogAnswer(log, c)) then log + [Hit(c.name, c.now)] else log
  }

  /** The table and the answers of the program. */
  function PrunedRun(cs: seq<Call>): (r: (Table, seq<bool>))
    ensures |r.1| == |cs|
  {
    if cs == [] then (map[], [])
    else
      var (table, answers) := PrunedRun(cs[..|cs| - 1]);
      (After(table, cs[|cs| - 1]), answers + [Answer(table, cs[|cs| - 1])])
  }

  /** The log and the answers of the reference. */
  function LogRun(cs: seq<Call>): (r: (Log, seq<bool>))
    ensures |r.1| == |cs|
  {
    if cs == [] then ([], [])
    else
      var (log, answers) := LogRun(cs[..|cs| - 1]);
      (LogAfter(log, cs[|cs| - 1]), answers + [LogAnswer(log, cs[|cs| - 1])])
  }

  ghost predicate Chronological(cs: seq<Call>) {
    forall i, j | 0 <= i < j < |cs| :: cs[i].now <= cs[j].now
  }

  /** The bucket is always asked with one window, its own. */
  ghost predicate Asked(cs: seq<Call>, name: string, own: nat) {
    forall i | 0 <= i < |cs| && cs[i].name == name && !cs[i].RecordOp? :: cs[i].window == own
  }

  /** A cleanup in this call, if there is one, does not drop the bucket within its own window. */
  ghost predicate SparesIn(table: Table, c: Call, name: string, own: nat) {
    Cleans(table, c) && Fresh(HitsOf(Pushed(table, c), name), c.now, own) ==>
      Fresh(HitsOf(Pushed(table, c), name), c.now, c.window)
  }

  ghost predicate Spared(cs: seq<Call>, name: string, own: nat) {
    forall i | 0 <= i < |cs| :: SparesIn(PrunedRun(cs[..i]).0, cs[i], name, own)
  }

  // ---------------------------------------------------------------------------
  // Refinement

  lemma {:induction false} KeepTwice(hits: Hits, now: int, later: int, window: nat)
    requires now <= later
    ensures Keep(Keep(hits, now, window), later, window) == Keep(hits, later, window)
  {
    if hits != [] {
      var last, rest := hits[|hits| - 1], hits[..|hits| - 1];
      KeepTwice(rest, now, later, window);
      var kept := Keep(rest, now, window);
      assert (kept + [last])[..|kept|] == kept;
    }
  }

  lemma KeepPush(hits: Hits, t: int, later: int, window: nat)
    ensures Keep(hits + [t], later, window) == Keep(hits, later, window) + if Within(t, later, window) then [t] else []
  {
    assert (hits + [t])[..|hits|] == hits;
  }

  lemma RecentPush(log: Log, hit: Hit, name: string, later: int, window: nat)
    ensures Recent(log + [hit], name, later, window) ==
            Recent(log, name, later, window) + if hit.name == name && Within(hit.at, later, window) then [hit.at] else []
  {
    assert (log + [hit])[..|log|] == log;
  }

  lemma StaleStays(hits: Hits, now: int, later: int, window: nat)
    requires now <= later && !Fresh(hits, now, window)
    ensures Keep(hits, later, window) == []
  {
    var kept := Keep(hits, later, window);
    if kept != [] {
      assert kept[0] in kept;
      assert Within(kept[0], now, window);
    }
  }

  ghost predicate Agrees(table: Table, log: Log, name: string, later: int, own: nat) {
    Keep(HitsOf(table, name), later, own) == Recent(log, name, later, own)
  }

  /** From `now` on, the table holds of the bucket what the log holds in the bucket's window. */
  ghost predicate Faithful(table: Table, log: Log, name: string, own: nat, now: int) {
    forall later | now <= later :: Agrees(table, log, name, later, own)
  }

  lemma AnswerAgrees(table: Table, log: Log, now: int, c: Call, own: nat)
    requires Faithful(table, log, c.name, own, now) && now <= c.now
    requires !c.RecordOp? ==> c.window == own
    ensures Answer(table, c) == LogAnswer(log, c)
  {
    assert Agrees(table, log, c.name, c.now, own);
  }

  lemma PushAgrees(table: Table, log: Log, c: Call, later: int)
    requires c.Allow? && c.now <= later && Agrees(table, log, c.name, later, c.window)
    ensures Agrees(Pushed(table, c), log + [Hit(c.name, c.now)], c.name, later, c.window)
  {
    var hits := HitsOf(table, c.name);
    KeepTwice(hits, c.now, later, c.window);
    KeepPush(Keep(hits, c.now, c.window), c.now, later, c.window);
    RecentPush(log, Hit(c.name, c.now), c.name, later, c.window);
  }

  lemma CleanupAgrees(table: Table, log: Log, now: int, window: nat, name: string, own: nat, later: int)
    requires now <= later && Agrees(table, log, name, later, own)
    requires Fresh(HitsOf(table, name), now, own) ==> Fresh(HitsOf(table, name), now, window)
    ensures Agrees(Cleanup(table, now, window), log, name, later, own)
  {
    if !Fresh(HitsOf(table, name), now, window) {
      StaleStays(HitsOf(table, name), now, later, own);
    }
  }

  /** A call that pushes to its bucket, seen from any bucket. */
  lemma AcceptedAgrees(table: Table, log: Log, c: Call, name: string, own: nat, later: int)
    requires c.Allow? && Answer(table, c) && c.now <= later && Agrees(table, log, name, later, own)
    requires c.name == name ==> c.window == own
    requires SparesIn(table, c, name, own)
    ensures Agrees(After(table, c), if c.name == name then log + [Hit(name, c.now)] else log, name, later, own)
  {
    var more := if c.name == name then log + [Hit(name, c.now)] else log;
    if c.name == name {
      PushAgrees(table, log, c, later);
    }
    assert Agrees(Pushed(table, c), more, name, later, own);
    if Cleans(table, c) {
      CleanupAgrees(Pushed(table, c), more, c.now, c.window, name, own, later);
    }
  }

  lemma OtherHits(log: Log, c: Call, name: string, later: int, own: nat)
    requires c.name != name
    ensures Recent(LogAfter(log, c), name, later, own) == Recent(log, name, later, own)
  {
    RecentPush(log, Hit(c.name, c.now), name, later, own);
  }

  lemma CallStaysFaithful(table: Table, log: Log, now: int, c: Call, name: string, own: nat)
    requires Faithful(table, log, name, own, now) && now <= c.now
    requires c.name == name && !c.RecordOp? ==> c.window == own
    requires SparesIn(table, c, name, own)
    ensures Faithful(After(table, c), LogAfter(log, c), name, own, c.now)
  {
    if c.name == name {
      AnswerAgrees(table, log, now, c, own);
    }
    forall later | c.now <= later
      ensures Agrees(After(table, c), LogAfter(log, c), name, later, own)
    {
      assert Agrees(table, log, name, later, own);
      if c.name != name {
        OtherHits(log, c, name, later, own);
      }
      if c.Allow? && Answer(table, c) {
        AcceptedAgrees(table, log, c, name, own, later);
      } else if c.RecordOp? {
        RecentPush(log, Hit(c.name, c.now), name, later, own);
        KeepPush(HitsOf(table, c.name), c.now, later, own);
      } else {
        KeepTwice(HitsOf(table, c.name), c.now, later, c.window);
      }
    }
  }

  /** The answers given to one bucket, in the program and in the reference. */
  ghost predicate SameAnswers(cs: seq<Call>, name: string) {
    Match(cs, PrunedRun(cs).1, LogRun(cs).1, name)
  }

  ghost predicate Match(cs: seq<Call>, p: seq<bool>, q: seq<bool>, name: string)
    requires |p| == |q| == |cs|
  {
    forall i | 0 <= i < |cs| && cs[i].name == name :: p[i] == q[i]
  }

  /** The time of the last call. */
  function Latest(cs: seq<Call>): int
    requires cs != []
  {
    cs[|cs| - 1].now
  }

  lemma SparedBefore(cs: seq<Call>, n: nat, name: string, own: nat)
    requires Spared(cs, name, own) && n <= |cs|
    ensures Spared(cs[..n], name, own)
  {
    assert forall i | 0 <= i < n :: cs[..n][..i] == cs[..i];
  }

  lemma {:induction false} RunStaysFaithful(cs: seq<Call>, name: string, own: nat)
    requires Chronological(cs) && Asked(cs, name, own) && Spared(cs, name, own)
    ensures SameAnswers(cs, name)
    ensures cs != [] ==> Faithful(PrunedRun(cs).0, LogRun(cs).0, name, own, Latest(cs))
  {
    if cs != [] {
      var n := |cs| - 1;
      var before, c := cs[..n], cs[n];
      SparedBefore(cs, n, name, own);
      RunStaysFaithful(before, name, own);
      var table, log := PrunedRun(before).0, LogRun(before).0;
      var now := if n == 0 then c.now else Latest(before);
      if n == 0 {
        assert forall later | now <= later :: Agrees(map[], [], name, later, own);
      }
      assert SparesIn(table, c, name, own);
      if c.name == name {
        AnswerAgrees(table, log, now, c, own);
      }
      AnswersGrow(cs);
      MatchSnoc(cs, PrunedRun(cs).1, LogRun(cs).1, name);
      CallStaysFaithful(table, log, now, c, name, own);
    }
  }

  lemma AnswersGrow(cs: seq<Call>)
    requires cs != []
    ensures var n := |cs| - 1;
            PrunedRun(cs).1[..n] == PrunedRun(cs[..n]).1 && LogRun(cs).1[..n] == LogRun(cs[..n]).1
  {
  }

  lemma MatchSnoc(cs: seq<Call>, p: seq<bool>, q: seq<bool>, name: string)
    requires cs != [] && |p| == |q| == |cs|
    ensures var n := |cs| - 1;
            Match(cs, p, q, name) <==> Match(cs[..n], p[..n], q[..n], name) && (cs[n].name == name ==> p[n] == q[n])
  {
    var n := |cs| - 1;
    if Match(cs[..n], p[..n], q[..n], name) {
      assert forall i | 0 <= i < n :: cs[..n][i] == cs[i] && p[..n][i] == p[i] && q[..n][i] == q[i];
    }
  }

  /**
   Despite pruning and cleanup, a bucket is answered as an ever-growing log would answer it,
   in every run whose cleanups never drop it within its own window.
   */
  lemma AnswersMatchLog(cs: seq<Call>, name: string, own: nat)
    requires Chronological(cs) && Asked(cs, name, own) && Spared(cs, name, own)
    ensures SameAnswers(cs, name)
  {
    RunStaysFaithful(cs, name, own);
  }

  /** Cleaning calls whose window is no smaller than the bucket's own never drop it too early. */
  lemma WideCleanupsSpare(cs: seq<Call>, name: string, own: nat)
    requires forall i | 0 <= i < |cs| && Cleans(PrunedRun(cs[..i]).0, cs[i]) :: own <= cs[i].window
    ensures Spared(cs, name, own)
  {
    forall i | 0 <= i < |cs|
      ensures SparesIn(PrunedRun(cs[..i]).0, cs[i], name, own)
    {
      var table, c := PrunedRun(cs[..i]).0, cs[i];
      if Cleans(table, c) && Fresh(HitsOf(Pushed(table, c), name), c.now, own) {
        var t :| t in HitsOf(Pushed(table, c), name) && Within(t, c.now, own);
        assert Within(t, c.now, c.window);
      }
    }
  }

  // ---------------------------------------------------------------------------
  // The bound

  /** Whether a call accepted at `at` lies in the half-open window of this length that ends at `end`. */
  predicate InWindow(at: int, end: int, window: nat) {
    end - window < at <= end
  }

  /** How many calls of a bucket were accepted within a window. */
  function AcceptedIn(cs: seq<Call>, answers: seq<bool>, name: string, end: int, window: nat): nat
    requires |cs| == |answers|
  {
    if cs == [] then 0
    else
      var n := |cs| - 1;
      AcceptedIn(cs[..n], answers[..n], name, end, window)
        + if cs[n].Allow? && cs[n].name == name && answers[n] && InWindow(cs[n].now, end, window) then 1 else 0
  }

  /** The bucket is used for calls with this limit only. */
  ghost predicate Limits(cs: seq<Call>, name: string, max: nat, own: nat) {
    forall i | 0 <= i < |cs| && cs[i].name == name :: cs[i].Allow? && cs[i].max == max && cs[i].window == own
  }

  function Logged(log: Log, name: string, end: int, window: nat): nat {
    if log == [] then 0
    else
      var last := log[|log| - 1];
      Logged(log[..|log| - 1], name, end, window) + if last.name == name && InWindow(last.at, end, window) then 1 else 0
  }

  lemma LoggedPush(log: Log, hit: Hit, name: string, end: int, window: nat)
    ensures Logged(log + [hit], name, end, window) ==
            Logged(log, name, end, window) + if hit.name == name && InWindow(hit.at, end, window) then 1 else 0
  {
    assert (log + [hit])[..|log|] == log;
  }

  lemma {:induction false} LoggedIsRecent(log: Log, name: string, now: int, end: int, window: nat)
    requires now <= end
    ensures Logged(log, name, end, window) <= |Recent(log, name, now, window)|
  {
    if log != [] {
      LoggedIsRecent(log[..|log| - 1], name, now, end, window);
    }
  }

  /** The log never holds more than the limit in any window. */
  lemma {:induction false} LogBound(cs: seq<Call>, name: string, max: nat, own: nat, end: int)
    requires Limits(cs, name, max, own)
    ensures Logged(LogRun(cs).0, name, end, own) <= max
  {
    if cs != [] {
      var n := |cs| - 1;
      LogBound(cs[..n], name, max, own, end);
      var log, c := LogRun(cs[..n]).0, cs[n];
      LoggedPush(log, Hit(c.name, c.now), name, end, own);
      if c.name == name && InWindow(c.now, end, own) {
        LoggedIsRecent(log, name, c.now, end, own);
      }
    }
  }

  /** Where the answers agree, the log holds the accepted calls. */
  lemma {:induction false} AcceptedAreLogged(cs: seq<Call>, name: string, max: nat, own: nat, end: int)
    requires Limits(cs, name, max, own) && SameAnswers(cs, name)
    ensures AcceptedIn(cs, PrunedRun(cs).1, name, end, own) == Logged(LogRun(cs).0, name, end, own)
  {
    if cs != [] {
      var n := |cs| - 1;
      var before, c := cs[..n], cs[n];
      AnswersGrow(cs);
      MatchSnoc(cs, PrunedRun(cs).1, LogRun(cs).1, name);
      AcceptedAreLogged(before, name, max, own, end);
      LoggedPush(LogRun(before).0, Hit(c.name, c.now), name, end, own);
    }
  }

  /**
   As long as no cleanup drops the bucket within its own window, no half-open window of that
   length holds more accepted calls than the limit, however it lies between the calls.
   */
  lemma WindowBound(cs: seq<Call>, name: string, max: nat, own: nat, end: int)
    requires Chronological(cs) && Limits(cs, name, max, own) && Spared(cs, name, own)
    ensures AcceptedIn(cs, PrunedRun(cs).1, name, end, own) <= max
  {
    RunStaysFaithful(cs, name, own);
    AcceptedAreLogged(cs, name, max, own, end);
    LogBound(cs, name, max, own, end);
  }

  // ---------------------------------------------------------------------------
  // Exactly when a call is accepted

  /** No hit is later than this. */
  ghost predicate NoneAfter(log: Log, now: int) {
    forall hit | hit in log :: hit.at <= now
  }

  /** The log's recent hits are those of the half-open window that ends now. */
  lemma {:induction false} RecentIsLogged(log: Log, name: string, now: int, window: nat)
    requires NoneAfter(log, now)
    ensures |Recent(log, name, now, window)| == Logged(log, name, now, window)
  {
    if log != [] {
      var n := |log| - 1;
      assert log[n] in log && forall hit | hit in log[..n] :: hit in log;
      RecentIsLogged(log[..n], name, now, window);
    }
  }

  lemma {:induction false} LoggedInTime(cs: seq<Call>, now: int)
    requires forall i | 0 <= i < |cs| :: cs[i].now <= now
    ensures NoneAfter(LogRun(cs).0, now)
  {
    if cs != [] {
      LoggedInTime(cs[..|cs| - 1], now);
    }
  }

  /**
   After a run whose cleanups never dropped the bucket within its own window, a call is
   accepted exactly when fewer calls than the maximum were accepted in the window that ends
   with it.
   */
  lemma AllowedIff(cs: seq<Call>, name: string, max: nat, own: nat, now: int)
    requires Chronological(cs) && Limits(cs, name, max, own) && Spared(cs, name, own)
    requires cs != [] ==> Latest(cs) <= now
    ensures Answer(PrunedRun(cs).0, Allow(name, max, own, now)) <==>
            AcceptedIn(cs, PrunedRun(cs).1, name, now, own) < max
  {
    RunStaysFaithful(cs, name, own);
    AcceptedAreLogged(cs, name, max, own, now);
    LoggedInTime(cs, now);
    RecentIsLogged(LogRun(cs).0, name, now, own);
    var c := Allow(name, max, own, now);
    if cs == [] {
      assert forall later | now <= later :: Agrees(map[], [], name, later, own);
      AnswerAgrees(map[], [], now, c, own);
    } else {
      AnswerAgrees(PrunedRun(cs).0, LogRun(cs).0, Latest(cs), c, own);
    }
  }

  /** Only an accepted call that leaves more than 50000 buckets cleans the table. */
  lemma CleansIff(table: Table, c: Call)
    ensures Cleans(table, c) <==> c.Allow? && Answer(table, c) && |table.Keys + {c.name}| > 50000
  {
    if c.Allow? {
      assert Pushed(table, c).Keys == table.Keys + {c.name};
      assert |Pushed(table, c)| == |Pushed(table, c).Keys|;
    }
  }
}
