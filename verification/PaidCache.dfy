/**
 The relay plugin's pay-to-write gate and its cache of verdicts
 (plugin/floonet_writepolicy.py), in front of the authority that holds the grants.
 */
module PaidCache {
  import opened Wrappers
  import opened Text
  import opened Grants
  import opened GrantRuns
  import opened GrantOutcomes
  import GrantTable
  import Hex

  datatype Policy = Policy(payWrite: bool, ttl: real)

  datatype Entry = Entry(paid: bool, expiresAt: real)

  /** Whether the authority's answer reached the plugin; a lost one may have been served. */
  datatype Link = Answered | Lost(served: bool)

  datatype Publication = Publication(authed: Option<string>, at: real, link: Link, outside: Outside)

  datatype Verdict = Pass | AuthRequired | PaymentRequired | StatusUnavailable

  /** A lookup made, its answer if one came back, and what the table then held. */
  datatype Lookup = Lookup(key: string, at: real, answer: Option<bool>, paid: bool)

  datatype World = World(ledger: Ledger, cache: map<string, Entry>, log: seq<Lookup>)

  function Min(a: real, b: real): real {
    if a <= b then a else b
  }

  /** How long a lookup is remembered: the TTL, or at most ten seconds for a failed one. */
  function Span(ttl: real, answer: Option<bool>): real {
    if answer.None? && 10.0 < ttl then 10.0 else ttl
  }

  function Remembered(ttl: real, k: Lookup): Entry {
    Entry(k.answer == Some(true), k.at + Span(ttl, k.answer))
  }

  predicate Entitled(l: Ledger, key: string) {
    IsPaid(l, WriteKey(Lower(key)))
  }

  predicate WellFormed(authed: Option<string>) {
    authed.Some? && |authed.value| == 64
  }

  predicate Remembers(w: World, key: string, at: real) {
    key in w.cache && w.cache[key].expiresAt > at
  }

  /** `_paid_lookup` as the authority and the plugin see it. */
  function Ask(cfg: Config, l: Ledger, key: string, p: Publication): (Ledger, Option<bool>) {
    if p.link == Lost(false) then (l, None)
    else
      var (m, answer) := Handle(cfg, l, Status(key, p.outside));
      (m, if p.link == Answered && answer != NotFound then Some(answer == PaidYes) else None)
  }

  /** `check_paid`. */
  function Check(cfg: Config, policy: Policy, w: World, p: Publication): (World, Verdict) {
    if !policy.payWrite then (w, Pass)
    else if !WellFormed(p.authed) then (w, AuthRequired)
    else
      var key := p.authed.value;
      if Remembers(w, key, p.at) then (w, if w.cache[key].paid then Pass else PaymentRequired)
      else
        var (l, answer) := Ask(cfg, w.ledger, key, p);
        var lookup := Lookup(key, p.at, answer, Entitled(l, key));
        (World(l, w.cache[key := Remembered(policy.ttl, lookup)], w.log + [lookup]),
         match answer
         case None => StatusUnavailable
         case Some(paid) => if paid then Pass else PaymentRequired)
  }

  // ---------------------------------------------------------------------------
  // The verdict, case by case

  /** The key's write grant stands paid in the table. */
  ghost predicate HasPaid(l: Ledger, key: string) {
    Key(Lower(key), "write") in l.grants && l.grants[Key(Lower(key), "write")].status == Paid
  }

  /** What the plugin gets to know of a lookup, and the table that serving it leaves. */
  ghost predicate LooksUp(cfg: Config, l: Ledger, key: string, p: Publication, m: Ledger, answer: Option<bool>) {
    match p.link
    case Lost(false) => m == l && answer == None
    case Lost(true) => answer == None && exists paid :: StatusIs(cfg, l, key, p.outside, m, paid)
    case Answered => StatusIs(cfg, l, key, p.outside, m, answer)
  }

  /** A verdict still remembered for the key. */
  ghost predicate Known(w: World, key: string, at: real) {
    key in w.cache && at < w.cache[key].expiresAt
  }

  /**
   The verdict on a publication and what it changes. Without write access for sale everything
   passes. Otherwise it needs an authenticated key of 64 characters; then the remembered
   verdict counts, or else a lookup, which is remembered.
   */
  ghost predicate Judges(cfg: Config, policy: Policy, w: World, p: Publication, v: World, verdict: Verdict) {
    if !policy.payWrite then v == w && verdict == Pass
    else if p.authed.None? || |p.authed.value| != 64 then v == w && verdict == AuthRequired
    else if Known(w, p.authed.value, p.at) then
      v == w && verdict == if w.cache[p.authed.value].paid then Pass else PaymentRequired
    else
      var key := p.authed.value;
      exists answer ::
        && LooksUp(cfg, w.ledger, key, p, v.ledger, answer)
        && v.cache == w.cache[key := Entry(answer == Some(true),
                                           p.at + (if answer == None && policy.ttl > 10.0 then 10.0 else policy.ttl))]
        && |v.log| == |w.log| + 1 && v.log[..|w.log|] == w.log
        && v.log[|w.log|].key == key && v.log[|w.log|].at == p.at && v.log[|w.log|].answer == answer
        && v.log[|w.log|].paid == HasPaid(v.ledger, key)
        && verdict == (if answer == None then StatusUnavailable
                       else if answer == Some(true) then Pass else PaymentRequired)
  }

  lemma AskLooksUp(cfg: Config, l: Ledger, key: string, p: Publication)
    ensures var (m, answer) := Ask(cfg, l, key, p); LooksUp(cfg, l, key, p, m, answer)
  {
    StatusOutcome(cfg, l, key, p.outside);
  }

  lemma CheckJudges(cfg: Config, policy: Policy, w: World, p: Publication)
    ensures var (v, verdict) := Check(cfg, policy, w, p); Judges(cfg, policy, w, p, v, verdict)
  {
    if policy.payWrite && WellFormed(p.authed) && !Remembers(w, p.authed.value, p.at) {
      AskLooksUp(cfg, w.ledger, p.authed.value, p);
    }
  }

  /** Which verdict, in every world. */
  ghost predicate Partition(policy: Policy, w: World, p: Publication, verdict: Verdict) {
    var named := p.authed.Some? && |p.authed.value| == 64;
    var known := named && Known(w, p.authed.value, p.at);
    && (!policy.payWrite ==> verdict == Pass)
    && (verdict == AuthRequired <==> policy.payWrite && !named)
    && (verdict == StatusUnavailable <==>
          policy.payWrite && named && !known && (p.link != Answered || !Hex.ValidPubkey(Lower(p.authed.value))))
    && (policy.payWrite && known ==> (verdict == Pass <==> w.cache[p.authed.value].paid))
  }

  /** Every verdict has its case; an answer fails to come only if the link or the key is bad. */
  lemma VerdictIff(cfg: Config, policy: Policy, w: World, p: Publication)
    ensures Partition(policy, w, p, Check(cfg, policy, w, p).1)
  {
    if policy.payWrite && WellFormed(p.authed) && !Remembers(w, p.authed.value, p.at) {
      StatusTells(cfg, w.ledger, Status(p.authed.value, p.outside));
    }
  }

  // ---------------------------------------------------------------------------
  // The gate as the program has it

  class Gate {
    const policy: Policy
    var cache: map<string, Entry>
    ghost var log: seq<Lookup>

    constructor (policy: Policy)
      ensures cache == map[] && log == [] && this.policy == policy
    {
      this.policy := policy;
      cache, log := map[], [];
    }

    ghost function Seen(app: GrantTable.App): World
      reads this, app
    {
      World(app.Entries(), cache, log)
    }

    method PaidLookup(app: GrantTable.App, key: string, p: Publication) returns (answer: Option<bool>)
      modifies app
      ensures (app.Entries(), answer) == Ask(app.cfg, old(app.Entries()), key, p)
      ensures LooksUp(app.cfg, old(app.Entries()), key, p, app.Entries(), answer)
    {
      AskLooksUp(app.cfg, app.Entries(), key, p);
      if p.link == Lost(false) {
        return None;
      }
      var paid := app.PaidStatus(key, p.outside);
      return if p.link == Answered then paid else None;
    }

    method CheckPaid(app: GrantTable.App, p: Publication) returns (verdict: Verdict)
      modifies this, app
      ensures (Seen(app), verdict) == Check(app.cfg, policy, old(Seen(app)), p)
      ensures Judges(app.cfg, policy, old(Seen(app)), p, Seen(app), verdict)
      ensures Partition(policy, old(Seen(app)), p, verdict)
    {
      CheckJudges(app.cfg, policy, Seen(app), p);
      VerdictIff(app.cfg, policy, Seen(app), p);
      if !policy.payWrite {
        return Pass;
      }
      if p.authed.None? || |p.authed.value| != 64 {
        return AuthRequired;
      }
      var key := p.authed.value;
      var paid: bool;
      if key in cache && cache[key].expiresAt > p.at {
        paid := cache[key].paid;
      } else {
        var answer := PaidLookup(app, key, p);
        log := log + [Lookup(key, p.at, answer, Entitled(app.Entries(), key))];
        if answer.None? {
          cache := cache[key := Entry(false, p.at + Min(policy.ttl, 10.0))];
          return StatusUnavailable;
        }
        paid := answer.value;
        cache := cache[key := Entry(paid, p.at + policy.ttl)];
      }
      return if paid then Pass else PaymentRequired;
    }
  }

  // ---------------------------------------------------------------------------
  // Runs of the plugin and the authority

  datatype Event = Serving(request: Request) | Publishing(publication: Publication)

  const START: World := World(NOTHING, map[], [])

  function Apply(cfg: Config, policy: Policy, w: World, e: Event): World {
    match e
    case Serving(r) => w.(ledger := Handle(cfg, w.ledger, r).0)
    case Publishing(p) => Check(cfg, policy, w, p).0
  }

  function Run(cfg: Config, policy: Policy, es: seq<Event>): World {
    if es == [] then START else Apply(cfg, policy, Run(cfg, policy, es[..|es| - 1]), es[|es| - 1])
  }

  /** `i` is the last lookup made for its key, and the cache holds what it answered. */
  ghost predicate Latest(policy: Policy, w: World, i: int)
    requires 0 <= i < |w.log|
  {
    && w.log[i].key in w.cache && w.cache[w.log[i].key] == Remembered(policy.ttl, w.log[i])
    && forall j | i < j < |w.log| :: w.log[j].key != w.log[i].key
  }

  ghost predicate Mirrors(policy: Policy, w: World) {
    && (forall key | key in w.cache :: exists i :: 0 <= i < |w.log| && w.log[i].key == key && Latest(policy, w, i))
    && (forall i | 0 <= i < |w.log| :: w.log[i].key in w.cache)
  }

  /** Lookups for one key lie at least as far apart as the earlier one is remembered. */
  ghost predicate Spaced(policy: Policy, log: seq<Lookup>) {
    forall i, j | 0 <= i < j < |log| && log[i].key == log[j].key ::
      log[i].at + Span(policy.ttl, log[i].answer) <= log[j].at
  }

  /** A verdict of "paid" is remembered only of a key whose grant stands, and answers were true. */
  ghost predicate Sound(w: World) {
    && (forall key | key in w.cache && w.cache[key].paid :: Entitled(w.ledger, key))
    && (forall i | 0 <= i < |w.log| && w.log[i].answer.Some? :: w.log[i].answer.value == w.log[i].paid)
  }

  lemma AskIsTrue(cfg: Config, l: Ledger, key: string, p: Publication)
    requires cfg.mode == WriteMode
    ensures var (m, answer) := Ask(cfg, l, key, p);
            && (answer.Some? ==> answer.value == Entitled(m, key))
            && (answer.Some? <==> p.link == Answered && Hex.ValidPubkey(Lower(key)))
  {
    AnswersAreTrue(cfg, l, Status(key, p.outside));
    if Hex.ValidPubkey(Lower(key)) {
      StatusKinds(cfg, l, WriteKey(Lower(key)), p.outside);
    }
  }

  lemma AskKeepsGrants(cfg: Config, l: Ledger, key: string, p: Publication, other: string)
    requires cfg.mode == WriteMode && Entitled(l, other)
    ensures Entitled(Ask(cfg, l, key, p).0, other)
  {
    WriteGrantStays(cfg, l, Status(key, p.outside), WriteKey(Lower(other)));
  }

  lemma CheckSound(cfg: Config, policy: Policy, w: World, p: Publication)
    requires cfg.mode == WriteMode && Sound(w)
    ensures var (v, verdict) := Check(cfg, policy, w, p);
            Sound(v) && (verdict == Pass && policy.payWrite ==> Entitled(v.ledger, p.authed.value))
  {
    if policy.payWrite && WellFormed(p.authed) && !Remembers(w, p.authed.value, p.at) {
      var key, v := p.authed.value, Check(cfg, policy, w, p).0;
      AskIsTrue(cfg, w.ledger, key, p);
      forall other | other in v.cache && v.cache[other].paid
        ensures Entitled(v.ledger, other)
      {
        if other != key {
          AskKeepsGrants(cfg, w.ledger, key, p, other);
        }
      }
    }
  }

  lemma {:induction false} RunSound(cfg: Config, policy: Policy, es: seq<Event>)
    requires cfg.mode == WriteMode
    ensures Sound(Run(cfg, policy, es))
  {
    if es != [] {
      var w, e := Run(cfg, policy, es[..|es| - 1]), es[|es| - 1];
      RunSound(cfg, policy, es[..|es| - 1]);
      match e
      case Serving(r) =>
        forall key | key in w.cache && w.cache[key].paid
          ensures Entitled(Apply(cfg, policy, w, e).ledger, key)
        {
          WriteGrantStays(cfg, w.ledger, r, WriteKey(Lower(key)));
        }
      case Publishing(p) => CheckSound(cfg, policy, w, p);
    }
  }

  lemma LookupMirrored(policy: Policy, w: World, ledger: Ledger, lookup: Lookup)
    requires Mirrors(policy, w)
    ensures Mirrors(policy, World(ledger, w.cache[lookup.key := Remembered(policy.ttl, lookup)], w.log + [lookup]))
  {
    var v := World(ledger, w.cache[lookup.key := Remembered(policy.ttl, lookup)], w.log + [lookup]);
    forall key | key in v.cache
      ensures exists i :: 0 <= i < |v.log| && v.log[i].key == key && Latest(policy, v, i)
    {
      if key == lookup.key {
        assert v.log[|w.log|].key == key && Latest(policy, v, |w.log|);
      } else {
        var i :| 0 <= i < |w.log| && w.log[i].key == key && Latest(policy, w, i);
        assert v.log[i].key == key && Latest(policy, v, i);
      }
    }
  }

  lemma LookupSpaced(policy: Policy, w: World, lookup: Lookup)
    requires policy.ttl >= 0.0 && Mirrors(policy, w) && Spaced(policy, w.log)
    requires !Remembers(w, lookup.key, lookup.at)
    ensures Spaced(policy, w.log + [lookup])
  {
    forall i | 0 <= i < |w.log| && w.log[i].key == lookup.key
      ensures w.log[i].at + Span(policy.ttl, w.log[i].answer) <= lookup.at
    {
      EarlierIsSpaced(policy, w, lookup, i);
    }
  }

  lemma EarlierIsSpaced(policy: Policy, w: World, lookup: Lookup, i: nat)
    requires policy.ttl >= 0.0 && Mirrors(policy, w) && Spaced(policy, w.log)
    requires !Remembers(w, lookup.key, lookup.at) && i < |w.log| && w.log[i].key == lookup.key
    ensures w.log[i].at + Span(policy.ttl, w.log[i].answer) <= lookup.at
  {
    var last :| 0 <= last < |w.log| && w.log[last].key == lookup.key && Latest(policy, w, last);
    assert i <= last;
    if i < last {
      assert w.log[i].at + Span(policy.ttl, w.log[i].answer) <= w.log[last].at;
    }
  }

  lemma {:induction false} RunMirrors(cfg: Config, policy: Policy, es: seq<Event>)
    ensures Mirrors(policy, Run(cfg, policy, es))
    ensures policy.ttl >= 0.0 ==> Spaced(policy, Run(cfg, policy, es).log)
  {
    if es != [] {
      var w, e := Run(cfg, policy, es[..|es| - 1]), es[|es| - 1];
      RunMirrors(cfg, policy, es[..|es| - 1]);
      match e
      case Serving(r) => SameMirror(policy, w, Handle(cfg, w.ledger, r).0);
      case Publishing(p) =>
        if policy.payWrite && WellFormed(p.authed) && !Remembers(w, p.authed.value, p.at) {
          var (l, answer) := Ask(cfg, w.ledger, p.authed.value, p);
          var lookup := Lookup(p.authed.value, p.at, answer, Entitled(l, p.authed.value));
          LookupMirrored(policy, w, l, lookup);
          if policy.ttl >= 0.0 {
            LookupSpaced(policy, w, lookup);
          }
        }
    }
  }

  lemma SameMirror(policy: Policy, w: World, ledger: Ledger)
    requires Mirrors(policy, w)
    ensures Mirrors(policy, w.(ledger := ledger))
  {
    var v := w.(ledger := ledger);
    forall key | key in v.cache
      ensures exists i :: 0 <= i < |v.log| && v.log[i].key == key && Latest(policy, v, i)
    {
      var i :| 0 <= i < |w.log| && w.log[i].key == key && Latest(policy, w, i);
      assert v.log[i].key == key && Latest(policy, v, i);
    }
  }

  // ---------------------------------------------------------------------------
  // What the gate promises

  /** With write access for sale, every publication let through belongs to a key with a paid grant. */
  lemma PassIsPaid(cfg: Config, policy: Policy, es: seq<Event>, p: Publication)
    requires cfg.mode == WriteMode && policy.payWrite
    requires Check(cfg, policy, Run(cfg, policy, es), p).1 == Pass
    ensures WellFormed(p.authed)
    ensures HasPaid(Run(cfg, policy, es + [Publishing(p)]).ledger, p.authed.value)
  {
    RunSound(cfg, policy, es);
    CheckSound(cfg, policy, Run(cfg, policy, es), p);
    assert (es + [Publishing(p)])[..|es|] == es;
  }

  /**
   A refusal for want of payment rests on the last lookup for the key. It was made now or is
   younger than it may be remembered, and if it was answered, the grant was not paid then.
   */
  ghost predicate Justified(policy: Policy, log: seq<Lookup>, i: int, p: Publication)
    requires 0 <= i < |log| && p.authed.Some?
  {
    && log[i].key == p.authed.value
    && (forall j | i < j < |log| :: log[j].key != log[i].key)
    && (log[i].at == p.at || p.at < log[i].at + Span(policy.ttl, log[i].answer))
    && (log[i].answer == None || (log[i].answer == Some(false) && !log[i].paid))
  }

  lemma RefusalIsFresh(cfg: Config, policy: Policy, es: seq<Event>, p: Publication) returns (i: int)
    requires cfg.mode == WriteMode
    requires Check(cfg, policy, Run(cfg, policy, es), p).1 == PaymentRequired
    ensures var log := Run(cfg, policy, es + [Publishing(p)]).log;
            0 <= i < |log| && p.authed.Some? && Justified(policy, log, i, p)
  {
    var w := Run(cfg, policy, es);
    var v := Check(cfg, policy, w, p).0;
    var key := p.authed.value;
    assert (es + [Publishing(p)])[..|es|] == es;
    RunSound(cfg, policy, es);
    RunMirrors(cfg, policy, es);
    CheckSound(cfg, policy, w, p);
    if Remembers(w, key, p.at) {
      i :| 0 <= i < |w.log| && w.log[i].key == key && Latest(policy, w, i);
    } else {
      i := |w.log|;
      assert v.log[i].key == key;
    }
  }

  /** The authority is not asked about a key again before its last answer may be forgotten. */
  lemma LookupsAreSpaced(cfg: Config, policy: Policy, es: seq<Event>)
    requires policy.ttl >= 0.0
    ensures Spaced(policy, Run(cfg, policy, es).log)
  {
    RunMirrors(cfg, policy, es);
  }

  /**
   A paid key that reaches the authority is refused exactly while an older refusal is
   remembered, or when the authority does not take it for a key.
   */
  lemma PaidIsLetThrough(cfg: Config, policy: Policy, w: World, p: Publication)
    requires cfg.mode == WriteMode && policy.payWrite && WellFormed(p.authed) && p.link == Answered
    requires HasPaid(w.ledger, p.authed.value)
    ensures Check(cfg, policy, w, p).1 != Pass <==>
            var key := p.authed.value;
            if Known(w, key, p.at) then !w.cache[key].paid else !Hex.ValidPubkey(Lower(key))
  {
    AskKeepsGrants(cfg, w.ledger, p.authed.value, p, p.authed.value);
    AskIsTrue(cfg, w.ledger, p.authed.value, p);
  }
}
