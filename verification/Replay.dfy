/**
 One-time use of NIP-98 authorization events: the age check of `verify_nip98`
 (name-authority/src/auth.rs) against the replay set of name-authority/src/ratelimit.rs.
 Both read one clock. Ages are counted in whole seconds, retention in exact time.
 */
module Replay {
  type EventId = string

  type Seen = map<EventId, real>

  /** Seconds by which an event may be dated ahead, and by which the set outlasts the age limit. */
  const SKEW := 5

  /** An authorization header received; `authentic` stands for its signature, kind and tags. */
  datatype Attempt = Attempt(id: EventId, createdAt: int, authentic: bool, at: real)

  function Age(a: Attempt): int {
    a.at.Floor - a.createdAt
  }

  /** The freshness bound of `verify_nip98`. */
  predicate Timely(maxAge: nat, a: Attempt) {
    -SKEW <= Age(a) <= maxAge
  }

  function Window(maxAge: nat): real {
    (maxAge + SKEW) as real
  }

  function Retain(seen: Seen, now: real, window: real): Seen {
    map id | id in seen && now - seen[id] < window :: seen[id]
  }

  predicate Accepts(maxAge: nat, seen: Seen, a: Attempt) {
    a.authentic && Timely(maxAge, a) && a.id !in Retain(seen, a.at, Window(maxAge))
  }

  function After(maxAge: nat, seen: Seen, a: Attempt): Seen {
    if !a.authentic || !Timely(maxAge, a) then seen
    else
      var kept := Retain(seen, a.at, Window(maxAge));
      if a.id in kept then kept else kept[a.id := a.at]
  }

  class Guard {
    const maxAge: nat
    var seen: Seen

    constructor (maxAge: nat)
      ensures seen == map[] && this.maxAge == maxAge
    {
      this.maxAge := maxAge;
      seen := map[];
    }

    /** `auth_event_fresh`. */
    method AuthEventFresh(id: EventId, now: real) returns (unused: bool)
      modifies this
      ensures var kept := Retain(old(seen), now, Window(maxAge));
              unused == (id !in kept) && seen == if unused then kept[id := now] else kept
      ensures unused <==> (id in old(seen) ==> now - old(seen)[id] >= (maxAge + 5) as real)
    {
      seen := map k | k in seen && now - seen[k] < Window(maxAge) :: seen[k];
      if id in seen {
        return false;
      }
      seen := seen[id := now];
      return true;
    }

    /** What every authenticated handler does first. */
    method Admit(a: Attempt) returns (accepted: bool)
      modifies this
      ensures accepted == Accepts(maxAge, old(seen), a) && seen == After(maxAge, old(seen), a)
      ensures accepted <==>
              && a.authentic && -5 <= a.at.Floor - a.createdAt <= maxAge
              && (a.id in old(seen) ==> a.at - old(seen)[a.id] >= (maxAge + 5) as real)
    {
      var age := a.at.Floor - a.createdAt;
      if !a.authentic || age > maxAge || age < -SKEW {
        return false;
      }
      accepted := AuthEventFresh(a.id, a.at);
    }
  }

  // ---------------------------------------------------------------------------
  // Runs

  function SeenAfter(maxAge: nat, run: seq<Attempt>): Seen {
    if run == [] then map[] else After(maxAge, SeenAfter(maxAge, run[..|run| - 1]), run[|run| - 1])
  }

  predicate AcceptedAt(maxAge: nat, run: seq<Attempt>, i: int) {
    0 <= i < |run| && Accepts(maxAge, SeenAfter(maxAge, run[..i]), run[i])
  }

  /** The clock never goes back, and an event id determines the date in the event. */
  ghost predicate Lawful(run: seq<Attempt>) {
    && (forall i, j | 0 <= i < j < |run| :: run[i].at <= run[j].at)
    && (forall i, j | 0 <= i < j < |run| && run[i].id == run[j].id :: run[i].createdAt == run[j].createdAt)
  }

  /** An event accepted at `since` is still in the set, or was accepted a whole window ago. */
  ghost predicate Covered(maxAge: nat, seen: Seen, id: EventId, since: real, now: real) {
    (id in seen && seen[id] >= since) || now - since >= Window(maxAge)
  }

  lemma StepCovers(maxAge: nat, seen: Seen, a: Attempt, id: EventId, since: real, now: real)
    requires Covered(maxAge, seen, id, since, now) && since <= now <= a.at
    ensures Covered(maxAge, After(maxAge, seen, a), id, since, a.at)
  {
  }

  lemma {:induction false} RunCovers(maxAge: nat, run: seq<Attempt>, i: nat)
    requires Lawful(run) && AcceptedAt(maxAge, run, i)
    ensures Covered(maxAge, SeenAfter(maxAge, run), run[i].id, run[i].at, run[|run| - 1].at)
  {
    var n := |run| - 1;
    if i < n {
      assert run[..n][..i] == run[..i];
      RunCovers(maxAge, run[..n], i);
      StepCovers(maxAge, SeenAfter(maxAge, run[..n]), run[n], run[i].id, run[i].at, run[n - 1].at);
    }
  }

  /** What the set holds was accepted at the time it says. */
  lemma {:induction false} SeenWasAccepted(maxAge: nat, run: seq<Attempt>, id: EventId) returns (i: int)
    requires id in SeenAfter(maxAge, run)
    ensures AcceptedAt(maxAge, run, i) && run[i].id == id && run[i].at == SeenAfter(maxAge, run)[id]
  {
    var n := |run| - 1;
    var before := SeenAfter(maxAge, run[..n]);
    if id in before && SeenAfter(maxAge, run)[id] == before[id] {
      i := SeenWasAccepted(maxAge, run[..n], id);
      assert run[..n][..i] == run[..i];
    } else {
      i := n;
    }
  }

  /** The event was accepted before, less than the age limit and five seconds ago. */
  ghost predicate Recent(maxAge: nat, run: seq<Attempt>, j: int)
    requires 0 <= j < |run|
  {
    exists i :: 0 <= i < j && AcceptedAt(maxAge, run, i) && run[i].id == run[j].id
                && run[j].at - run[i].at < (maxAge + 5) as real
  }

  /**
   In every run an event is accepted exactly when it is authentic, not dated more than five
   seconds ahead, not older than the limit, and was not accepted recently. So one that was
   never presented before is accepted at the ages from -5 to the limit.
   */
  lemma AcceptedIff(maxAge: nat, run: seq<Attempt>, j: nat)
    requires Lawful(run) && j < |run|
    ensures AcceptedAt(maxAge, run, j) <==>
            && run[j].authentic && -5 <= run[j].at.Floor - run[j].createdAt <= maxAge && !Recent(maxAge, run, j)
  {
    var seen := SeenAfter(maxAge, run[..j]);
    if AcceptedAt(maxAge, run, j) {
      forall i | 0 <= i < j && AcceptedAt(maxAge, run, i) && run[i].id == run[j].id
        ensures run[j].at - run[i].at >= (maxAge + 5) as real
      {
        SecondIsLate(maxAge, run, i, j);
      }
    } else if run[j].id in seen {
      var i := SeenWasAccepted(maxAge, run[..j], run[j].id);
      assert run[..j][..i] == run[..i];
    }
  }

  lemma FloorShift(a: real, b: real, k: int)
    requires b - a >= k as real
    ensures b.Floor - a.Floor >= k
  {
  }

  /** Two acceptances of one event lie at least a whole window apart. */
  lemma SecondIsLate(maxAge: nat, run: seq<Attempt>, i: nat, j: nat)
    requires Lawful(run) && i < j && AcceptedAt(maxAge, run, i) && AcceptedAt(maxAge, run, j)
    requires run[i].id == run[j].id
    ensures run[j].at - run[i].at >= Window(maxAge)
  {
    var before := run[..j];
    assert before[..i] == run[..i];
    RunCovers(maxAge, before, i);
    assert before[j - 1].at <= run[j].at;
  }

  /** A second acceptance needs both ages at their limits. */
  lemma ReplayAges(maxAge: nat, run: seq<Attempt>, i: nat, j: nat)
    requires Lawful(run) && AcceptedAt(maxAge, run, i) && AcceptedAt(maxAge, run, j)
    requires run[i].id == run[j].id && i < j
    ensures run[i].at.Floor - run[i].createdAt == -5 && run[j].at.Floor - run[j].createdAt == maxAge
  {
    SecondIsLate(maxAge, run, i, j);
    FloorShift(run[i].at, run[j].at, maxAge + SKEW);
  }

  /**
   An event that is accepted when it is not dated a full five seconds ahead is accepted only
   once in any run, whatever is pruned in between.
   */
  lemma AcceptedOnce(maxAge: nat, run: seq<Attempt>, i: nat, j: nat)
    requires Lawful(run) && AcceptedAt(maxAge, run, i) && AcceptedAt(maxAge, run, j)
    requires run[i].id == run[j].id && i <= j && run[i].at.Floor - run[i].createdAt >= -4
    ensures i == j
  {
    if i < j {
      ReplayAges(maxAge, run, i, j);
    }
  }

  /** The same event presented again, now or later. */
  ghost predicate Repeats(first: Attempt, again: Attempt) {
    again.id == first.id && again.createdAt == first.createdAt && first.at <= again.at
  }

  ghost predicate Replayable(maxAge: nat, seen: Seen, first: Attempt) {
    exists again :: Repeats(first, again) && Accepts(maxAge, seen, again)
  }

  lemma FloorPlus(a: real, k: int)
    ensures (a + k as real).Floor == a.Floor + k
  {
  }

  /**
   The promise of one-time use fails exactly there: an event just accepted can be accepted
   again, now or later, if and only if it was dated a full five seconds ahead.
   */
  lemma ReplayableIff(maxAge: nat, run: seq<Attempt>)
    requires run != [] && AcceptedAt(maxAge, run, |run| - 1)
    ensures var last := run[|run| - 1];
            Replayable(maxAge, SeenAfter(maxAge, run), last) <==> last.at.Floor - last.createdAt == -5
  {
    var first, seen := run[|run| - 1], SeenAfter(maxAge, run);
    assert seen[first.id] == first.at;
    if Age(first) == -SKEW {
      var again := first.(at := first.at + Window(maxAge));
      FloorPlus(first.at, maxAge + SKEW);
      assert Repeats(first, again) && Accepts(maxAge, seen, again);
    } else {
      forall again | Repeats(first, again)
        ensures !Accepts(maxAge, seen, again)
      {
        if again.at - first.at >= Window(maxAge) {
          FloorShift(first.at, again.at, maxAge + SKEW);
        }
      }
    }
  }
}
