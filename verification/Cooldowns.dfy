/**
 Registration against the cooldown as the program has it: the question goes to the pruned,
 cleaned limiter (name-authority/src/handlers/registry.rs:100-110), and releases and claims
 record their operation there. `State.armed` keeps the full log of those operations.
 */
module Cooldowns {
  import opened Wrappers
  import opened Text
  import opened Store
  import opened Protocol
  import opened Outcomes
  import opened Sequential
  import L = RateLimit
  import Cleanup

  datatype World = World(state: State, rate: L.Table)

  /** The limiter's bucket for the name changes of a key. */
  function Bucket(key: Pubkey): string {
    L.BucketKey("namechange", key)
  }

  function Question(cfg: Config, key: Pubkey, now: int): L.Call {
    L.CooldownActive(Bucket(key), cfg.cooldown, now)
  }

  lemma BucketsDistinct(a: Pubkey, b: Pubkey)
    requires Bucket(a) == Bucket(b)
    ensures a == b
  {
    L.BucketKeysDistinct("namechange", a, "namechange", b);
  }

  /** The limiter call that goes with an operation recorded since. */
  function Records(before: seq<Arming>, after: seq<Arming>): seq<L.Call> {
    if |after| > |before| then
      var last := after[|after| - 1];
      [L.RecordOp(Bucket(last.pubkey), last.at)]
    else []
  }

  function Recorded(rate: L.Table, calls: seq<L.Call>): L.Table {
    if calls == [] then rate else L.After(rate, calls[0])
  }

  /** One whole request, with the limiter answering. */
  function Limited(cfg: Config, w: World, r: Request): (World, Response) {
    if r.Register? then
      var question := Question(cfg, r.auth, r.now);
      var rate := L.After(w.rate, question);
      if L.Answer(w.rate, question) then (World(w.state, rate), Rejected(CoolDown))
      else
        var (t, answer) := Unhindered(cfg, w.state, r);
        (World(t, rate), answer)
    else
      var (t, answer) := Handle(cfg, w.state, r);
      (World(t, Recorded(w.rate, Records(w.state.armed, t.armed))), answer)
  }

  /** The limiter's table holds an operation of the key that is younger than the cooldown. */
  ghost predicate Remembered(cfg: Config, rate: L.Table, key: Pubkey, now: int) {
    Bucket(key) in rate && exists at | at in rate[Bucket(key)] :: now - at < cfg.cooldown
  }

  lemma QuestionIs(cfg: Config, rate: L.Table, key: Pubkey, now: int)
    ensures L.Answer(rate, Question(cfg, key, now)) <==> Remembered(cfg, rate, key, now)
  {
    var kept := L.Keep(L.HitsOf(rate, Bucket(key)), now, cfg.cooldown);
    if kept != [] {
      assert kept[0] in kept && L.Within(kept[0], now, cfg.cooldown);
    }
    if Remembered(cfg, rate, key, now) {
      var at :| at in rate[Bucket(key)] && now - at < cfg.cooldown;
      assert at in kept;
    }
  }

  /**
   A registration succeeds exactly when the limiter remembers no recent operation of the key,
   the key is entitled and without a name, and nobody holds the name; then that row alone has
   changed.
   */
  lemma LimitedRegistration(cfg: Config, w: World, r: Request)
    requires r.Register?
    ensures var (v, answer) := Limited(cfg, w, r);
            var (s, t, name) := (w.state, v.state, Lower(r.name));
            && answer == (if Remembered(cfg, w.rate, r.auth, r.now) then Rejected(CoolDown) else RegisterAnswer(s, r))
            && (answer == Registered <==>
                  && !Remembered(cfg, w.rate, r.auth, r.now) && r.wellFormed && r.entitled
                  && Free(s, name) && Nameless(s, r.auth))
            && t == if answer == Registered then s.(names := s.names[name := NameRow(r.auth, r.now, None)]) else s
  {
    QuestionIs(cfg, w.rate, r.auth, r.now);
    UnhinderedIff(cfg, w.state, r);
  }

  /** With the full log answering as the limiter does, this is the request of `Protocol`. */
  lemma SameRequest(cfg: Config, w: World, r: Request)
    requires r.Register? ==>
               (L.Answer(w.rate, Question(cfg, r.auth, r.now)) <==> CoolingDown(w.state, r.auth, r.now, cfg.cooldown))
    ensures Limited(cfg, w, r).0.state == Handle(cfg, w.state, r).0 && Limited(cfg, w, r).1 == Handle(cfg, w.state, r).1
  {
    if r.Register? {
      Unfold(cfg, w.state, RegCooldown(r.auth, Lower(r.name), r.wellFormed, r.entitled, r.now));
    }
  }

  // ---------------------------------------------------------------------------
  // Operations recorded

  /** A release or a claim, and the time it acts at. */
  function ActsAt(p: Proc): Option<int> {
    match p
    case UnregLookup(_, _, now) => Some(now)
    case UnregRelease(_, _, now) => Some(now)
    case UnregArm(_, now) => Some(now)
    case ClaimGet(q) => Some(q.now)
    case ClaimSettle(q, _) => Some(q.now)
    case ClaimAgain(q, _) => Some(q.now)
    case ClaimReplay(q, _) => Some(q.now)
    case ClaimOwner(q, _) => Some(q.now)
    case ClaimExcess(q, _) => Some(q.now)
    case ClaimBuyer(q, _) => Some(q.now)
    case ClaimCommit(q, _) => Some(q.now)
    case ClaimArm(q, _) => Some(q.now)
    case _ => None
  }

  /** Nothing is recorded, or one operation at the given time. */
  ghost predicate ArmsOnce(s: State, t: State, at: Option<int>) {
    t.armed == s.armed || (at.Some? && exists key :: t.armed == s.armed + [Arming(key, at.value)])
  }

  predicate Arms(p: Proc) {
    p.UnregArm? || p.ClaimArm?
  }

  lemma StepActs(cfg: Config, s: State, p: Proc)
    ensures var q := Step(cfg, s, p).1; if Arms(p) then q.Done? && ActsAt(p).Some? else q.Done? || ActsAt(q) == ActsAt(p)
  {
  }

  lemma StepArms(cfg: Config, s: State, p: Proc)
    ensures if Arms(p) then ArmsOnce(s, Step(cfg, s, p).0, ActsAt(p)) else Step(cfg, s, p).0.armed == s.armed
  {
    if p.UnregArm? {
      assert Step(cfg, s, p).0.armed == s.armed + [Arming(p.auth, p.now)];
    } else if p.ClaimArm? {
      assert Step(cfg, s, p).0.armed == s.armed + [Arming(p.o.seller, p.q.now)];
    }
  }

  /** A whole request records at most one operation, at its own time. */
  lemma {:induction false} SoloArms(cfg: Config, s: State, p: Proc)
    ensures ArmsOnce(s, Solo(cfg, s, p).0, ActsAt(p))
    decreases Rank(p)
  {
    if !p.Done? {
      Unfold(cfg, s, p);
      StepDescends(cfg, s, p);
      StepActs(cfg, s, p);
      StepArms(cfg, s, p);
      SoloArms(cfg, Step(cfg, s, p).0, Step(cfg, s, p).1);
    }
  }

  lemma StartActs(cfg: Config, r: Request)
    ensures var at := ActsAt(Start(cfg, r)); at.Some? ==> !r.Register? && at.value == Time(r)
  {
  }

  lemma RequestArms(cfg: Config, s: State, r: Request)
    ensures ArmsOnce(s, Handle(cfg, s, r).0, Some(Time(r)))
    ensures r.Register? ==> Handle(cfg, s, r).0.armed == s.armed && Unhindered(cfg, s, r).0.armed == s.armed
  {
    SoloArms(cfg, s, Start(cfg, r));
    StartActs(cfg, r);
    if r.Register? {
      UnhinderedIff(cfg, s, r);
    }
  }

  /** The limiter in place of the full log changes nothing about what whole requests keep. */
  lemma LimitedKeeps(cfg: Config, w: World, from: int, r: Request)
    requires SeqInv(cfg, w.state, from) && from <= Time(r)
    ensures var (v, answer) := Limited(cfg, w, r);
            SeqInv(cfg, v.state, Time(r)) && Advances(w.state, v.state) && !answer.TxFailed?
  {
    if r.Register? {
      ClockAdvances(cfg, w.state, from, Time(r));
      var p := if r.wellFormed then RegLookup(r.auth, Lower(r.name), r.entitled, r.now) else Done(Rejected(BadRequest));
      SoloKeeps(cfg, w.state, Time(r), p);
      SoloAdvances(cfg, w.state, Time(r), p);
      SoloAdvances(cfg, w.state, Time(r), Done(Rejected(CoolDown)));
    } else {
      HandleKeeps(cfg, w.state, from, r);
    }
  }

  lemma ValidAfter(cfg: Config, w: World, from: int, r: Request)
    ensures SeqInv(cfg, w.state, from) && from <= Time(r) ==> SeqInv(cfg, Limited(cfg, w, r).0.state, Time(r))
  {
    if SeqInv(cfg, w.state, from) && from <= Time(r) {
      LimitedKeeps(cfg, w, from, r);
    }
  }

  // ---------------------------------------------------------------------------
  // Runs

  /** A whole request, or a call of the limiter for some other bucket. */
  datatype Event = Serving(request: Request) | Limiting(call: L.Call)

  function At(e: Event): int {
    match e case Serving(r) => Time(r) case Limiting(c) => c.now
  }

  function Apply(cfg: Config, w: World, e: Event): World {
    match e
    case Serving(r) => Limited(cfg, w, r).0
    case Limiting(c) => w.(rate := L.After(w.rate, c))
  }

  const START: World := World(EMPTY, map[])

  function Run(cfg: Config, es: seq<Event>): World {
    if es == [] then START else Apply(cfg, Run(cfg, es[..|es| - 1]), es[|es| - 1])
  }

  /** The limiter call of one event. */
  function CallOf(cfg: Config, w: World, e: Event): seq<L.Call> {
    match e
    case Serving(r) =>
      if r.Register? then [Question(cfg, r.auth, r.now)] else Records(w.state.armed, Limited(cfg, w, r).0.state.armed)
    case Limiting(c) => [c]
  }

  /** All limiter calls of a run, in order. */
  function Calls(cfg: Config, es: seq<Event>): seq<L.Call> {
    if es == [] then []
    else
      var before := es[..|es| - 1];
      Calls(cfg, before) + CallOf(cfg, Run(cfg, before), es[|es| - 1])
  }

  /** The other buckets are other buckets, and the clock never goes back. */
  ghost predicate Lawful(es: seq<Event>) {
    && (forall i, key | 0 <= i < |es| && es[i].Limiting? :: es[i].call.name != Bucket(key))
    && (forall i, j | 0 <= i < j < |es| :: At(es[i]) <= At(es[j]))
  }

  /** No cleanup of the run drops the key's bucket while an operation in it is recent. */
  ghost predicate Remembers(cfg: Config, es: seq<Event>, key: Pubkey) {
    L.Spared(Calls(cfg, es), Bucket(key), cfg.cooldown)
  }

  /** The limiter's log and the recorded operations are the same. */
  ghost predicate Mirrors(log: L.Log, armed: seq<Arming>) {
    forall key, at :: L.Hit(Bucket(key), at) in log <==> Arming(key, at) in armed
  }

  lemma {:induction false} RecentIff(log: L.Log, name: string, now: int, window: nat)
    ensures L.Recent(log, name, now, window) != [] <==> exists at :: L.Hit(name, at) in log && L.Within(at, now, window)
  {
    if log != [] {
      var n := |log| - 1;
      RecentIff(log[..n], name, now, window);
      assert log == log[..n] + [log[n]];
      if log[n].name == name && L.Within(log[n].at, now, window) {
        assert L.Hit(name, log[n].at) in log;
      }
    }
  }

  lemma CoolingIff(s: State, key: Pubkey, now: int, window: nat)
    ensures CoolingDown(s, key, now, window) <==> exists at :: Arming(key, at) in s.armed && L.Within(at, now, window)
  {
    if at :| Arming(key, at) in s.armed && L.Within(at, now, window) {
      var i :| 0 <= i < |s.armed| && s.armed[i] == Arming(key, at);
    }
    if CoolingDown(s, key, now, window) {
      var i :| 0 <= i < |s.armed| && s.armed[i].pubkey == key && now - s.armed[i].at < window;
      assert Arming(key, s.armed[i].at) in s.armed && L.Within(s.armed[i].at, now, window);
    }
  }

  lemma LogSnoc(cs: seq<L.Call>, c: L.Call)
    ensures L.PrunedRun(cs + [c]).0 == L.After(L.PrunedRun(cs).0, c)
    ensures L.LogRun(cs + [c]).0 == L.LogAfter(L.LogRun(cs).0, c)
  {
    Cleanup.RunCall(cs, c);
  }

  lemma OperationMirrored(log: L.Log, armed: seq<Arming>, key: Pubkey, at: int)
    requires Mirrors(log, armed)
    ensures Mirrors(log + [L.Hit(Bucket(key), at)], armed + [Arming(key, at)])
  {
    forall k, t
      ensures L.Hit(Bucket(k), t) in log + [L.Hit(Bucket(key), at)] <==> Arming(k, t) in armed + [Arming(key, at)]
    {
      if Bucket(k) == Bucket(key) {
        BucketsDistinct(k, key);
      }
      assert L.Hit(Bucket(k), t) in log <==> Arming(k, t) in armed;
    }
  }

  lemma ForeignMirrored(log: L.Log, armed: seq<Arming>, c: L.Call)
    requires Mirrors(log, armed) && forall key :: c.name != Bucket(key)
    ensures Mirrors(L.LogAfter(log, c), armed)
  {
    forall k, t
      ensures L.Hit(Bucket(k), t) in L.LogAfter(log, c) <==> Arming(k, t) in armed
    {
      assert L.Hit(Bucket(k), t) in log <==> Arming(k, t) in armed;
    }
  }

  /** Table and log of the limiter are those of the calls made, and the log holds the operations. */
  ghost predicate Linked(cfg: Config, es: seq<Event>) {
    Link(Run(cfg, es).rate, Run(cfg, es).state.armed, Calls(cfg, es))
  }

  ghost predicate Link(rate: L.Table, armed: seq<Arming>, cs: seq<L.Call>) {
    rate == L.PrunedRun(cs).0 && Mirrors(L.LogRun(cs).0, armed)
  }

  lemma QuestionLinked(rate: L.Table, armed: seq<Arming>, cs: seq<L.Call>, q: L.Call)
    requires Link(rate, armed, cs) && q.CooldownActive?
    ensures Link(L.After(rate, q), armed, cs + [q])
  {
    LogSnoc(cs, q);
  }

  lemma OperationLinked(rate: L.Table, armed: seq<Arming>, cs: seq<L.Call>, key: Pubkey, at: int)
    requires Link(rate, armed, cs)
    ensures var c := L.RecordOp(Bucket(key), at); Link(L.After(rate, c), armed + [Arming(key, at)], cs + [c])
  {
    LogSnoc(cs, L.RecordOp(Bucket(key), at));
    OperationMirrored(L.LogRun(cs).0, armed, key, at);
  }

  lemma ServingLinked(cfg: Config, w: World, cs: seq<L.Call>, r: Request)
    requires Link(w.rate, w.state.armed, cs)
    ensures var v := Limited(cfg, w, r).0; Link(v.rate, v.state.armed, cs + CallOf(cfg, w, Serving(r)))
  {
    RequestArms(cfg, w.state, r);
    if r.Register? {
      QuestionLinked(w.rate, w.state.armed, cs, Question(cfg, r.auth, r.now));
    } else {
      var t := Handle(cfg, w.state, r).0;
      if t.armed == w.state.armed {
        assert cs + [] == cs;
      } else {
        var key :| t.armed == w.state.armed + [Arming(key, Time(r))];
        assert Records(w.state.armed, t.armed) == [L.RecordOp(Bucket(key), Time(r))];
        OperationLinked(w.rate, w.state.armed, cs, key, Time(r));
      }
    }
  }

  lemma {:induction false} RunLinked(cfg: Config, es: seq<Event>)
    requires Lawful(es)
    ensures Linked(cfg, es)
  {
    if es != [] {
      var n := |es| - 1;
      var w, cs := Run(cfg, es[..n]), Calls(cfg, es[..n]);
      RunLinked(cfg, es[..n]);
      match es[n]
      case Serving(r) => ServingLinked(cfg, w, cs, r);
      case Limiting(c) =>
        LogSnoc(cs, c);
        ForeignMirrored(L.LogRun(cs).0, w.state.armed, c);
    }
  }

  // ---------------------------------------------------------------------------
  // The calls of a run are in order

  ghost predicate By(cs: seq<L.Call>, now: int) {
    forall i | 0 <= i < |cs| :: cs[i].now <= now
  }

  lemma CallIsAt(cfg: Config, w: World, e: Event)
    ensures var cs := CallOf(cfg, w, e); |cs| <= 1 && (cs != [] ==> cs[0].now == At(e))
  {
    if e.Serving? {
      RequestArms(cfg, w.state, e.request);
    }
  }

  lemma InOrderMore(cs: seq<L.Call>, more: seq<L.Call>, at: int, now: int)
    requires L.Chronological(cs) && By(cs, at) && |more| <= 1 && (more != [] ==> more[0].now == at) && at <= now
    ensures L.Chronological(cs + more) && By(cs + more, now)
  {
  }

  lemma {:induction false} CallsInOrder(cfg: Config, es: seq<Event>, now: int)
    requires Lawful(es) && (es != [] ==> At(es[|es| - 1]) <= now)
    ensures L.Chronological(Calls(cfg, es)) && By(Calls(cfg, es), now)
  {
    if es != [] {
      var n := |es| - 1;
      CallsInOrder(cfg, es[..n], At(es[n]));
      CallIsAt(cfg, Run(cfg, es[..n]), es[n]);
      InOrderMore(Calls(cfg, es[..n]), CallOf(cfg, Run(cfg, es[..n]), es[n]), At(es[n]), now);
    }
  }

  lemma {:induction false} QuestionsAlike(cfg: Config, es: seq<Event>, key: Pubkey)
    requires Lawful(es)
    ensures L.Asked(Calls(cfg, es), Bucket(key), cfg.cooldown)
  {
    if es != [] {
      QuestionsAlike(cfg, es[..|es| - 1], key);
    }
  }

  // ---------------------------------------------------------------------------
  // What the cooldown promises

  /**
   In a run in which no cleanup drops the key's bucket too early, the limiter says that the
   key is cooling down exactly when the full log of its operations does.
   */
  lemma LimiterIsRight(cfg: Config, es: seq<Event>, key: Pubkey, now: int)
    requires Lawful(es) && Remembers(cfg, es, key) && (es != [] ==> At(es[|es| - 1]) <= now)
    ensures L.Answer(Run(cfg, es).rate, Question(cfg, key, now)) <==>
            CoolingDown(Run(cfg, es).state, key, now, cfg.cooldown)
  {
    var (w, cs) := (Run(cfg, es), Calls(cfg, es));
    RunLinked(cfg, es);
    CallsInOrder(cfg, es, now);
    QuestionsAlike(cfg, es, key);
    Cleanup.FaithfulAfter(cs, Bucket(key), cfg.cooldown, now);
    L.AnswerAgrees(L.PrunedRun(cs).0, L.LogRun(cs).0, now, Question(cfg, key, now), cfg.cooldown);
    RecentIff(L.LogRun(cs).0, Bucket(key), now, cfg.cooldown);
    CoolingIff(w.state, key, now, cfg.cooldown);
  }

  /** The limiter refuses a key exactly when it has a recent operation: nobody else is refused. */
  lemma CooldownIff(cfg: Config, es: seq<Event>, r: Request)
    requires Lawful(es) && r.Register? && Remembers(cfg, es, r.auth) && (es != [] ==> At(es[|es| - 1]) <= r.now)
    ensures Limited(cfg, Run(cfg, es), r).1 == Rejected(CoolDown) <==>
            exists at :: Arming(r.auth, at) in Run(cfg, es).state.armed && r.now - at < cfg.cooldown
  {
    LimiterIsRight(cfg, es, r.auth, r.now);
    QuestionIs(cfg, Run(cfg, es).rate, r.auth, r.now);
    LimitedRegistration(cfg, Run(cfg, es), r);
    CoolingIff(Run(cfg, es).state, r.auth, r.now, cfg.cooldown);
  }

  lemma {:induction false} ArmedGrow(cfg: Config, es: seq<Event>, n: nat)
    requires n <= |es|
    ensures forall a | a in Run(cfg, es[..n]).state.armed :: a in Run(cfg, es).state.armed
  {
    if n == |es| {
      assert es[..n] == es;
    } else {
      var m := |es| - 1;
      assert es[..m][..n] == es[..n];
      ArmedGrow(cfg, es[..m], n);
      if es[m].Serving? {
        RequestArms(cfg, Run(cfg, es[..m]).state, es[m].request);
      }
    }
  }

  /**
   In a run in which no cleanup drops the key's bucket too early, a key with an operation
   recorded at any moment of it is refused registration until the cooldown is over, whatever
   comes in between.
   */
  lemma CooldownHolds(cfg: Config, es: seq<Event>, n: nat, at: int, r: Request)
    requires Lawful(es) && r.Register? && Remembers(cfg, es, r.auth) && (es != [] ==> At(es[|es| - 1]) <= r.now)
    requires n <= |es| && Arming(r.auth, at) in Run(cfg, es[..n]).state.armed && r.now - at < cfg.cooldown
    ensures Refuses(cfg, Run(cfg, es), r)
  {
    ArmedGrow(cfg, es, n);
    CooldownIff(cfg, es, r);
    RefusalKeeps(cfg, Run(cfg, es), r);
  }

  /** The request is refused for the cooldown, and the tables stay as they are. */
  ghost predicate Refuses(cfg: Config, w: World, r: Request) {
    Limited(cfg, w, r).1 == Rejected(CoolDown) && Limited(cfg, w, r).0.state == w.state
  }

  lemma RefusalKeeps(cfg: Config, w: World, r: Request)
    requires r.Register? && Limited(cfg, w, r).1 == Rejected(CoolDown)
    ensures Refuses(cfg, w, r)
  {
    LimitedRegistration(cfg, w, r);
  }

  /** The requests among the events. */
  function Requests(es: seq<Event>): seq<Request> {
    if es == [] then []
    else Requests(es[..|es| - 1]) + if es[|es| - 1].Serving? then [es[|es| - 1].request] else []
  }

  /** When no cleanup drops any key's bucket too early, the tables are those of the full log. */
  lemma {:induction false} RunIsServe(cfg: Config, es: seq<Event>)
    requires Lawful(es) && forall key :: Remembers(cfg, es, key)
    ensures Run(cfg, es).state == Serve(cfg, EMPTY, Requests(es))
  {
    if es != [] {
      var n := |es| - 1;
      forall key
        ensures Remembers(cfg, es[..n], key)
      {
        assert Remembers(cfg, es, key);
        RememberedBefore(cfg, es, key);
      }
      RunIsServe(cfg, es[..n]);
      if es[n].Serving? {
        var r := es[n].request;
        ServedAlike(cfg, es[..n], r);
        ServeSnoc(cfg, EMPTY, Requests(es[..n]), r);
      } else {
        assert Requests(es[..n]) + [] == Requests(es[..n]);
      }
    }
  }

  lemma ServedAlike(cfg: Config, es: seq<Event>, r: Request)
    requires Lawful(es) && (es != [] ==> At(es[|es| - 1]) <= Time(r)) && (r.Register? ==> Remembers(cfg, es, r.auth))
    ensures Limited(cfg, Run(cfg, es), r).0.state == Handle(cfg, Run(cfg, es).state, r).0
  {
    if r.Register? {
      LimiterIsRight(cfg, es, r.auth, r.now);
    }
    SameRequest(cfg, Run(cfg, es), r);
  }

  lemma ServeSnoc(cfg: Config, s: State, rs: seq<Request>, r: Request)
    ensures Serve(cfg, s, rs + [r]) == Handle(cfg, Serve(cfg, s, rs), r).0
  {
    assert (rs + [r])[..|rs|] == rs;
  }

  lemma RememberedBefore(cfg: Config, es: seq<Event>, key: Pubkey)
    requires es != [] && Remembers(cfg, es, key)
    ensures Remembers(cfg, es[..|es| - 1], key)
  {
    var before, all := Calls(cfg, es[..|es| - 1]), Calls(cfg, es);
    assert all[..|before|] == before;
    L.SparedBefore(all, |before|, Bucket(key), cfg.cooldown);
  }

  ghost predicate RightAbout(cfg: Config, w: World, key: Pubkey, now: int) {
    L.Answer(w.rate, Question(cfg, key, now)) <==> CoolingDown(w.state, key, now, cfg.cooldown)
  }

  /** The limiter is right about a key when it agrees with the log of its calls. */
  lemma RightIff(cfg: Config, es: seq<Event>, key: Pubkey, now: int)
    requires Lawful(es)
    ensures var (cs, q) := (Calls(cfg, es), Question(cfg, key, now));
            RightAbout(cfg, Run(cfg, es), key, now) <==>
            L.Answer(L.PrunedRun(cs).0, q) == L.LogAnswer(L.LogRun(cs).0, q)
  {
    var cs := Calls(cfg, es);
    RunLinked(cfg, es);
    RecentIff(L.LogRun(cs).0, Bucket(key), now, cfg.cooldown);
    CoolingIff(Run(cfg, es).state, key, now, cfg.cooldown);
  }

  ghost predicate StaysRight(cfg: Config, es: seq<Event>, key: Pubkey, from: int) {
    forall now | from <= now :: RightAbout(cfg, Run(cfg, es), key, now)
  }

  lemma StaysRightIff(cfg: Config, es: seq<Event>, key: Pubkey, from: int)
    requires Lawful(es)
    ensures StaysRight(cfg, es, key, from) <==> Cleanup.KeepsCooldown(Calls(cfg, es), Bucket(key), cfg.cooldown, from)
  {
    forall now
      ensures RightAbout(cfg, Run(cfg, es), key, now) <==>
              L.Answer(L.PrunedRun(Calls(cfg, es)).0, Cleanup.Question(Bucket(key), cfg.cooldown, now)) ==
              L.LogAnswer(L.LogRun(Calls(cfg, es)).0, Cleanup.Question(Bucket(key), cfg.cooldown, now))
    {
      RightIff(cfg, es, key, now);
    }
  }

  lemma LimitingCalls(cfg: Config, es: seq<Event>, c: L.Call)
    requires Lawful(es + [Limiting(c)])
    ensures Lawful(es) && (es != [] ==> At(es[|es| - 1]) <= c.now) && forall key :: c.name != Bucket(key)
    ensures Calls(cfg, es + [Limiting(c)]) == Calls(cfg, es) + [c]
  {
    var more := es + [Limiting(c)];
    assert more[..|es|] == es && more[|es|] == Limiting(c);
    assert forall i | 0 <= i < |es| :: more[i] == es[i];
  }

  /**
   Exactly here it fails: after one more limiter call the key's cooldown is answered as by the
   log at all later times if and only if the call's cleanup spares the key's bucket.
   */
  lemma CooldownLostIff(cfg: Config, es: seq<Event>, c: L.Call, key: Pubkey)
    requires Lawful(es + [Limiting(c)]) && Remembers(cfg, es, key)
    ensures StaysRight(cfg, es + [Limiting(c)], key, c.now) <==>
            L.SparesIn(Run(cfg, es).rate, c, Bucket(key), cfg.cooldown)
  {
    LimitingCalls(cfg, es, c);
    RunLinked(cfg, es);
    CallsInOrder(cfg, es, c.now);
    QuestionsAlike(cfg, es, key);
    StaysRightIff(cfg, es + [Limiting(c)], key, c.now);
    Cleanup.CooldownKeptIff(Calls(cfg, es), c, Bucket(key), cfg.cooldown);
  }
}
