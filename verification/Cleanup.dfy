/**
 The global cleanup of the limiter (name-authority/src/ratelimit.rs:54-57): exactly when it
 makes the program forget, and runs in which it does.
 */
module Cleanup {
  import opened Radix
  import opened RateLimit
  import Hex

  // ---------------------------------------------------------------------------
  // One bucket

  /** One bucket after a cleanup. */
  function Swept(hits: Hits, now: int, window: nat): Hits {
    if Fresh(hits, now, window) then hits else []
  }

  /**
   A cleanup leaves every later answer of a bucket unchanged if and only if it keeps the
   bucket or the bucket has no hit in its own window.
   */
  lemma CleanupHarmlessIff(hits: Hits, now: int, window: nat, own: nat)
    ensures (forall later | now <= later :: Keep(Swept(hits, now, window), later, own) == Keep(hits, later, own))
            <==> (Fresh(hits, now, own) ==> Fresh(hits, now, window))
  {
    if Fresh(hits, now, window) {
      assert Swept(hits, now, window) == hits;
    } else if Fresh(hits, now, own) {
      var t :| t in hits && Within(t, now, own);
      assert t in Keep(hits, now, own);
      assert Keep(Swept(hits, now, window), now, own) == [];
    } else {
      forall later | now <= later
        ensures Keep(Swept(hits, now, window), later, own) == Keep(hits, later, own)
      {
        StaleStays(hits, now, later, own);
      }
    }
  }

  /** Whatever its history, a bucket is safe from a cleanup exactly when its window is no larger. */
  lemma CleanupSafeIff(now: int, window: nat, own: nat)
    ensures (forall hits: Hits :: Fresh(hits, now, own) ==> Fresh(hits, now, window)) <==> own <= window
  {
    if own <= window {
      forall hits: Hits | Fresh(hits, now, own)
        ensures Fresh(hits, now, window)
      {
        var t :| t in hits && Within(t, now, own);
        assert Within(t, now, window);
      }
    } else {
      var hits: Hits := [now - window];
      assert hits[0] in hits && Within(hits[0], now, own);
      assert !Fresh(hits, now, window);
    }
  }

  // ---------------------------------------------------------------------------
  // In a run

  lemma RunCall(cs: seq<Call>, c: Call)
    ensures PrunedRun(cs + [c]) == (After(PrunedRun(cs).0, c), PrunedRun(cs).1 + [Answer(PrunedRun(cs).0, c)])
    ensures LogRun(cs + [c]).0 == LogAfter(LogRun(cs).0, c)
  {
    assert (cs + [c])[..|cs|] == cs;
  }

  /** The next call of a run. */
  ghost predicate Follows(cs: seq<Call>, c: Call) {
    cs != [] ==> Latest(cs) <= c.now
  }

  lemma FaithfulAfter(cs: seq<Call>, name: string, own: nat, now: int)
    requires Chronological(cs) && Asked(cs, name, own) && Spared(cs, name, own)
    requires cs != [] ==> Latest(cs) <= now
    ensures Faithful(PrunedRun(cs).0, LogRun(cs).0, name, own, now)
  {
    RunStaysFaithful(cs, name, own);
    if cs == [] {
      assert forall later | now <= later :: Agrees(map[], [], name, later, own);
    }
  }

  /** A call whose cleanup does not spare the bucket is one for another bucket, and drops it. */
  lemma UnsparedIsDropped(table: Table, c: Call, name: string, own: nat)
    requires !SparesIn(table, c, name, own) && (c.name == name ==> c.window == own)
    ensures Cleans(table, c) && c.name != name && HitsOf(After(table, c), name) == []
    ensures Fresh(HitsOf(table, name), c.now, own) && own > 0
  {
    var t :| t in HitsOf(Pushed(table, c), name) && Within(t, c.now, own);
    assert !Within(t, c.now, c.window);
  }

  lemma FreshIsLogged(table: Table, log: Log, name: string, own: nat, now: int)
    requires Faithful(table, log, name, own, now) && Fresh(HitsOf(table, name), now, own)
    ensures Recent(log, name, now, own) != []
  {
    assert Agrees(table, log, name, now, own);
    var t :| t in HitsOf(table, name) && Within(t, now, own);
    assert t in Keep(HitsOf(table, name), now, own);
  }

  /** The cooldown question about a bucket. */
  function Question(name: string, own: nat, at: int): Call {
    CooldownActive(name, own, at)
  }

  ghost predicate KeepsCooldown(cs: seq<Call>, name: string, own: nat, from: int) {
    forall at | from <= at :: Answer(PrunedRun(cs).0, Question(name, own, at)) == LogAnswer(LogRun(cs).0, Question(name, own, at))
  }

  /**
   After a run that was right about a bucket, one more call leaves every later cooldown
   question about it answered as by the log if and only if its cleanup spares the bucket.
   */
  lemma CooldownKeptIff(cs: seq<Call>, c: Call, name: string, own: nat)
    requires Chronological(cs) && Asked(cs, name, own) && Spared(cs, name, own) && Follows(cs, c)
    requires c.name == name && !c.RecordOp? ==> c.window == own
    ensures KeepsCooldown(cs + [c], name, own, c.now) <==> SparesIn(PrunedRun(cs).0, c, name, own)
  {
    var table, log := PrunedRun(cs).0, LogRun(cs).0;
    FaithfulAfter(cs, name, own, c.now);
    RunCall(cs, c);
    if SparesIn(table, c, name, own) {
      CallStaysFaithful(table, log, c.now, c, name, own);
      forall at | c.now <= at
        ensures Answer(After(table, c), Question(name, own, at)) == LogAnswer(LogAfter(log, c), Question(name, own, at))
      {
        assert Agrees(After(table, c), LogAfter(log, c), name, at, own);
      }
    } else {
      UnsparedIsDropped(table, c, name, own);
      FreshIsLogged(table, log, name, own, c.now);
      OtherHits(log, c, name, c.now, own);
      assert !Answer(After(table, c), Question(name, own, c.now)) && LogAnswer(LogAfter(log, c), Question(name, own, c.now));
    }
  }

  // ---------------------------------------------------------------------------
  // Overrunning the limit

  /** The run with one call made `n` more times. */
  function Again(cs: seq<Call>, c: Call, n: nat): seq<Call> {
    if n == 0 then cs else Again(cs, c, n - 1) + [c]
  }

  ghost predicate Overruns(cs: seq<Call>, name: string, max: nat, own: nat, end: int) {
    AcceptedIn(cs, PrunedRun(cs).1, name, end, own) > max
  }

  lemma AcceptedCall(cs: seq<Call>, c: Call, name: string, end: int, own: nat)
    ensures AcceptedIn(cs + [c], PrunedRun(cs + [c]).1, name, end, own) ==
            AcceptedIn(cs, PrunedRun(cs).1, name, end, own)
              + if c.Allow? && c.name == name && Answer(PrunedRun(cs).0, c) && InWindow(c.now, end, own) then 1 else 0
  {
    RunCall(cs, c);
    var answers := PrunedRun(cs + [c]).1;
    assert (cs + [c])[..|cs|] == cs && answers[..|cs|] == PrunedRun(cs).1;
  }

  ghost predicate Past(log: Log, now: int) {
    forall i | 0 <= i < |log| :: log[i].at <= now
  }

  /** The log never runs ahead of the clock. */
  lemma {:induction false} LogIsPast(cs: seq<Call>, now: int)
    requires Chronological(cs) && (cs != [] ==> Latest(cs) <= now)
    ensures Past(LogRun(cs).0, now)
  {
    if cs != [] {
      LogIsPast(cs[..|cs| - 1], now);
    }
  }

  lemma {:induction false} RecentIsLogged(log: Log, name: string, now: int, window: nat)
    requires Past(log, now)
    ensures Logged(log, name, now, window) == |Recent(log, name, now, window)|
  {
    if log != [] {
      RecentIsLogged(log[..|log| - 1], name, now, window);
    }
  }

  lemma AllKept(hits: Hits, now: int, window: nat)
    requires forall t | t in hits :: Within(t, now, window)
    ensures Keep(hits, now, window) == hits
  {
    if hits != [] {
      AllKept(hits[..|hits| - 1], now, window);
    }
  }

  /** The bucket holds `n` hits of this moment, and `total` calls of its window are accepted. */
  ghost predicate Filled(cs: seq<Call>, c: Call, n: nat, total: nat)
    requires c.Allow?
  {
    var hits := HitsOf(PrunedRun(cs).0, c.name);
    && |hits| == n && (forall t | t in hits :: t == c.now)
    && AcceptedIn(cs, PrunedRun(cs).1, c.name, c.now, c.window) == total
  }

  lemma FillOne(cs: seq<Call>, c: Call, n: nat, total: nat)
    requires c.Allow? && n < c.max && c.window > 0 && Filled(cs, c, n, total)
    ensures Filled(cs + [c], c, n + 1, total + 1)
  {
    AcceptedCall(cs, c, c.name, c.now, c.window);
    RunCall(cs, c);
    OneMore(PrunedRun(cs).0, c);
  }

  /** Calls on an emptied bucket are accepted up to the limit, whatever was accepted before. */
  lemma {:induction false} FilledAgain(cs: seq<Call>, c: Call, n: nat, total: nat)
    requires c.Allow? && n <= c.max && c.window > 0 && Filled(cs, c, 0, total)
    ensures Filled(Again(cs, c, n), c, n, total + n)
  {
    if n > 0 {
      FilledAgain(cs, c, n - 1, total);
      FillOne(Again(cs, c, n - 1), c, n - 1, total + n - 1);
    }
  }

  lemma OneMore(table: Table, c: Call)
    requires c.Allow? && c.window > 0 && |HitsOf(table, c.name)| < c.max
    requires forall t | t in HitsOf(table, c.name) :: t == c.now
    ensures Answer(table, c) && HitsOf(After(table, c), c.name) == HitsOf(table, c.name) + [c.now]
  {
    AllKept(HitsOf(table, c.name), c.now, c.window);
    assert c.now in Pushed(table, c)[c.name];
  }

  lemma SparedMore(cs: seq<Call>, c: Call, name: string, own: nat)
    requires Spared(cs, name, own) && SparesIn(PrunedRun(cs).0, c, name, own)
    ensures Spared(cs + [c], name, own)
  {
    assert forall i | 0 <= i < |cs| :: (cs + [c])[..i] == cs[..i];
    assert (cs + [c])[..|cs|] == cs;
  }

  lemma OrderedMore(cs: seq<Call>, c: Call)
    requires Chronological(cs) && Follows(cs, c)
    ensures Chronological(cs + [c]) && Latest(cs + [c]) == c.now
  {
    if cs != [] {
      assert forall i | 0 <= i < |cs| :: cs[i].now <= Latest(cs);
    }
  }

  /** A run in order, within the limit of the call's bucket, and fair to that bucket. */
  ghost predicate Fair(cs: seq<Call>, c: Call)
    requires c.Allow?
  {
    Chronological(cs) && Follows(cs, c) && Limits(cs, c.name, c.max, c.window) && Spared(cs, c.name, c.window)
  }

  lemma FairMore(cs: seq<Call>, c: Call)
    requires c.Allow? && Fair(cs, c)
    ensures Fair(cs + [c], c)
  {
    OrderedMore(cs, c);
    SparedMore(cs, c, c.name, c.window);
  }

  lemma {:induction false} AgainIsFair(cs: seq<Call>, c: Call, n: nat)
    requires c.Allow? && Fair(cs, c)
    ensures Fair(Again(cs, c, n), c)
  {
    if n > 0 {
      AgainIsFair(cs, c, n - 1);
      FairMore(Again(cs, c, n - 1), c);
    }
  }

  /** Some number of further calls, all made now, brings the bucket above its limit. */
  ghost predicate CanOverrun(cs: seq<Call>, name: string, max: nat, own: nat, now: int) {
    exists n: nat :: Overruns(Again(cs, Allow(name, max, own, now), n), name, max, own, now)
  }

  /**
   The bound of `WindowBound` is lost exactly here: after a call, calls on a bucket can bring
   it above its limit within one window if and only if the call's cleanup has dropped the
   bucket within its own window.
   */
  lemma OverrunIff(cs: seq<Call>, c: Call, name: string, max: nat, own: nat)
    requires Chronological(cs) && Spared(cs, name, own) && Follows(cs, c) && Limits(cs + [c], name, max, own)
    ensures CanOverrun(cs + [c], name, max, own, c.now) <==> !SparesIn(PrunedRun(cs).0, c, name, own)
  {
    LimitsSplit(cs, c, name, max, own);
    if SparesIn(PrunedRun(cs).0, c, name, own) {
      forall n: nat
        ensures !Overruns(Again(cs + [c], Allow(name, max, own, c.now), n), name, max, own, c.now)
      {
        NoOverrun(cs, c, name, max, own, n);
      }
    } else {
      Overrun(cs, c, name, max, own);
    }
  }

  lemma LimitsSplit(cs: seq<Call>, c: Call, name: string, max: nat, own: nat)
    requires Limits(cs + [c], name, max, own)
    ensures Limits(cs, name, max, own)
    ensures c.name == name ==> c.Allow? && c.max == max && c.window == own
  {
    assert forall i | 0 <= i < |cs| :: (cs + [c])[i] == cs[i];
    assert (cs + [c])[|cs|] == c;
  }

  lemma NoOverrun(cs: seq<Call>, c: Call, name: string, max: nat, own: nat, n: nat)
    requires Chronological(cs) && Limits(cs + [c], name, max, own) && Spared(cs, name, own) && Follows(cs, c)
    requires SparesIn(PrunedRun(cs).0, c, name, own)
    ensures !Overruns(Again(cs + [c], Allow(name, max, own, c.now), n), name, max, own, c.now)
  {
    var call := Allow(name, max, own, c.now);
    OrderedMore(cs, c);
    SparedMore(cs, c, name, own);
    AgainIsFair(cs + [c], call, n);
    WindowBound(Again(cs + [c], call, n), name, max, own, c.now);
  }

  lemma Overrun(cs: seq<Call>, c: Call, name: string, max: nat, own: nat)
    requires Chronological(cs) && Limits(cs, name, max, own) && Spared(cs, name, own) && Follows(cs, c)
    requires !SparesIn(PrunedRun(cs).0, c, name, own) && (c.name == name ==> c.window == own)
    ensures Overruns(Again(cs + [c], Allow(name, max, own, c.now), max), name, max, own, c.now)
  {
    var table, log := PrunedRun(cs).0, LogRun(cs).0;
    UnsparedIsDropped(table, c, name, own);
    FaithfulAfter(cs, name, own, c.now);
    FreshIsLogged(table, log, name, own, c.now);
    LogIsPast(cs, c.now);
    RecentIsLogged(log, name, c.now, own);
    RunStaysFaithful(cs, name, own);
    AcceptedAreLogged(cs, name, max, own, c.now);
    AcceptedCall(cs, c, name, c.now, own);
    RunCall(cs, c);
    FilledAgain(cs + [c], Allow(name, max, own, c.now), max,
                AcceptedIn(cs + [c], PrunedRun(cs + [c]).1, name, c.now, own));
  }

  // ---------------------------------------------------------------------------
  // Runs that forget

  const KEYS := 0x1_0000

  /** One of many public keys, 64 hexadecimal digits. */
  function Key(i: nat): (s: string)
    requires i < KEYS
    ensures |s| == 64
  {
    var ds := Digits(16, 4, i);
    seq(60, _ => '0') + seq(4, j requires 0 <= j < 4 => Hex.CharOf(ds[j]))
  }

  lemma KeyDistinct(i: nat, j: nat)
    requires i < KEYS && j < KEYS && Key(i) == Key(j)
    ensures i == j
  {
    var ds, es := Digits(16, 4, i), Digits(16, 4, j);
    assert Pow(16, 4) == KEYS by {
      assert Pow(16, 2) == 256;
    }
    forall k | 0 <= k < 4
      ensures ds[k] == es[k]
    {
      assert Key(i)[60 + k] == Hex.CharOf(ds[k]) && Key(j)[60 + k] == Hex.CharOf(es[k]);
    }
    assert ds == es;
    ValOfDigits(16, 4, i);
    ValOfDigits(16, 4, j);
  }

  /** The bucket of the `i`-th key's name changes. */
  function Crowd(i: nat): string
    requires i < KEYS
  {
    BucketKey("namechange", Key(i))
  }

  lemma CrowdDistinct(i: nat, j: nat)
    requires i < KEYS && j < KEYS && Crowd(i) == Crowd(j)
    ensures i == j
  {
    BucketKeysDistinct("namechange", Key(i), "namechange", Key(j));
    KeyDistinct(i, j);
  }

  /** A call that leaves one hit at time 0, in a bucket that none of the others uses. */
  ghost predicate Opens(first: Call) {
    && first.now == 0 && (first.RecordOp? || (first.Allow? && first.max > 0))
    && first.name != Read(0).name
    && forall i | 1 <= i < KEYS :: first.name != Crowd(i)
  }

  /** A first call, then operations of `n` keys recorded at `at`. */
  function Flood(first: Call, n: nat, at: nat): seq<Call>
    requires n < KEYS
  {
    if n == 0 then [first] else Flood(first, n - 1, at) + [RecordOp(Crowd(n), at)]
  }

  lemma {:induction false} FloodCalls(first: Call, n: nat, at: nat)
    requires n < KEYS && Opens(first)
    ensures var cs := Flood(first, n, at);
            && |cs| == n + 1 && Chronological(cs) && Latest(cs) <= at && cs[0] == first
            && forall i | 1 <= i < |cs| :: cs[i].RecordOp? && cs[i].name != first.name
  {
    if n > 0 {
      FloodCalls(first, n - 1, at);
    }
  }

  ghost predicate Flooded(table: Table, victim: string, n: nat) {
    && n < KEYS && |table| == n + 1 && victim in table && table[victim] == [0]
    && forall name | name in table :: name == victim || exists i :: 1 <= i <= n && name == Crowd(i)
  }

  lemma FloodMore(cs: seq<Call>, victim: string, n: nat, at: int)
    requires 0 < n < KEYS && Flooded(PrunedRun(cs).0, victim, n - 1) && victim != Crowd(n)
    ensures Flooded(PrunedRun(cs + [RecordOp(Crowd(n), at)]).0, victim, n)
  {
    var table, name := PrunedRun(cs).0, Crowd(n);
    RunCall(cs, RecordOp(name, at));
    if name in table {
      var i :| 1 <= i <= n - 1 && name == Crowd(i);
      CrowdDistinct(i, n);
    }
    assert After(table, RecordOp(name, at)).Keys == table.Keys + {name};
  }

  lemma FloodStarts(first: Call)
    requires Opens(first)
    ensures Flooded(PrunedRun([first]).0, first.name, 0)
  {
    assert [first][..0] == [];
    assert HitsOf(map[], first.name) + [0] == [0];
    assert PrunedRun([first]).0 == map[first.name := [0]];
  }

  lemma {:induction false} FloodTable(first: Call, n: nat, at: nat)
    requires n < KEYS && Opens(first)
    ensures Flooded(PrunedRun(Flood(first, n, at)).0, first.name, n)
  {
    if n == 0 {
      FloodStarts(first);
    } else {
      FloodTable(first, n - 1, at);
      FloodMore(Flood(first, n - 1, at), first.name, n, at);
    }
  }

  /** A read at `at`, with as long a window. */
  function Read(at: nat): Call {
    Allow(BucketKey("read", "::1"), 1, at, at)
  }

  lemma ReadIsApart(at: nat, i: nat)
    requires i < KEYS
    ensures Read(at).name != Crowd(i) && Read(at).name != Attempt(1, 1, at).name && Attempt(1, 1, at).name != Crowd(i)
  {
    assert Read(at).name[2] == 'a' && Attempt(1, 1, at).name[2] == 'g' && Crowd(i)[2] == 'm';
  }

  lemma ReadDrops(table: Table, victim: string, n: nat, at: nat, own: nat)
    requires Flooded(table, victim, n) && n >= CLEANUP_ABOVE && at < own && victim != Read(at).name
    ensures !SparesIn(table, Read(at), victim, own)
  {
    var c := Read(at);
    forall i | 1 <= i <= n
      ensures c.name != Crowd(i)
    {
      ReadIsApart(at, i);
    }
    assert Pushed(table, c).Keys == table.Keys + {c.name};
    var hits := HitsOf(Pushed(table, c), victim);
    assert hits == [0] && hits[0] in hits && Within(0, at, own);
  }

  /** The flood, seen from its first bucket, is an orderly run without any cleanup. */
  lemma FloodIsFair(first: Call, n: nat, at: nat, own: nat)
    requires n < KEYS && Opens(first) && (first.Allow? ==> first.window == own)
    ensures var cs := Flood(first, n, at);
            && Chronological(cs) && Follows(cs, Read(at)) && Asked(cs, first.name, own) && Spared(cs, first.name, own)
  {
    FloodCalls(first, n, at);
    var cs := Flood(first, n, at);
    assert cs[..0] == [];
  }

  lemma OperationOpens()
    ensures Opens(RecordOp(Crowd(0), 0))
  {
    forall i | 1 <= i < KEYS
      ensures Crowd(0) != Crowd(i)
    {
      if Crowd(0) == Crowd(i) {
        CrowdDistinct(0, i);
      }
    }
    ReadIsApart(0, 0);
  }

  /**
   The limiter does forget: an operation recorded `at` time ago, with a cooldown longer than
   that, no longer counts once a call with window `at` finds the table over its bound.
   */
  lemma FloodForgets(n: nat, at: nat, cooldown: nat)
    requires CLEANUP_ABOVE <= n < KEYS && at < cooldown
    ensures var cs := Flood(RecordOp(Crowd(0), 0), n, at) + [Read(at)];
            !KeepsCooldown(cs, Crowd(0), cooldown, at)
  {
    var first := RecordOp(Crowd(0), 0);
    OperationOpens();
    FloodIsFair(first, n, at, cooldown);
    FloodTable(first, n, at);
    ReadDrops(PrunedRun(Flood(first, n, at)).0, first.name, n, at, cooldown);
    CooldownKeptIff(Flood(first, n, at), Read(at), first.name, cooldown);
  }

  /** A first registration attempt from one address. */
  function Attempt(max: nat, own: nat, at: nat): Call {
    Allow(BucketKey("reg", "::1"), max, own, at)
  }

  lemma AttemptOpens(max: nat, own: nat)
    requires max > 0
    ensures Opens(Attempt(max, own, 0))
  {
    forall i | 1 <= i < KEYS
      ensures Attempt(max, own, 0).name != Crowd(i)
    {
      ReadIsApart(0, i);
    }
    ReadIsApart(0, 0);
  }

  lemma FloodLimits(first: Call, n: nat, at: nat)
    requires n < KEYS && Opens(first) && first.Allow?
    ensures Limits(Flood(first, n, at), first.name, first.max, first.window)
  {
    FloodCalls(first, n, at);
  }

  /** And it lets more through than its limit: one attempt, and `max` more in the same window. */
  lemma FloodOverruns(n: nat, at: nat, max: nat, own: nat)
    requires CLEANUP_ABOVE <= n < KEYS && at < own && max > 0
    ensures var cs := Flood(Attempt(max, own, 0), n, at) + [Read(at)];
            Overruns(Again(cs, Attempt(max, own, at), max), Attempt(max, own, at).name, max, own, at)
  {
    var first := Attempt(max, own, 0);
    AttemptOpens(max, own);
    FloodIsFair(first, n, at, own);
    FloodLimits(first, n, at);
    FloodTable(first, n, at);
    ReadDrops(PrunedRun(Flood(first, n, at)).0, first.name, n, at, own);
    Overrun(Flood(first, n, at), Read(at), first.name, max, own);
  }
}
