/** Provider reputation: the trust score and the running success rate. */
module Reputation {
  import opened Reals
  import D = CoordinatorDb
  import W = Wrappers

  type Id = string

  datatype Standing = Standing(trust: real, completed: int, rate: real)

  type Providers = map<Id, Standing>

  /** GREATEST(0, LEAST(5, x)) */
  function Clamp(x: real): (t: real)
    ensures 0.0 <= t <= 5.0
  {
    D.Max(0.0, if x < 5.0 then x else 5.0)
  }

  // ----- the statements -----

  datatype Statement = CountCompletion | Rate(success: bool) | Disconnect

  function NewRate(s: Standing, success: bool): real {
    var x := if success then 1.0 else 0.0;
    if s.completed > 0 then (s.rate * (s.completed - 1) as real + x) / s.completed as real else x
  }

  function Exec(s: Standing, stmt: Statement): Standing {
    match stmt
    case CountCompletion => s.(completed := s.completed + 1)
    case Rate(success) => s.(trust := Clamp(s.trust + if success then 0.05 else -0.3), rate := NewRate(s, success))
    case Disconnect => s.(trust := Clamp(s.trust - 0.2))
  }

  function Update(ps: Providers, p: Id, stmt: Statement): Providers {
    if p in ps then ps[p := Exec(ps[p], stmt)] else ps
  }

  // ----- the handlers -----

  datatype Event = Completion | SlashedFailure | Disconnection

  /** The statements a handler runs, in order. */
  function Statements(e: Event): seq<Statement> {
    match e
    case Completion => [CountCompletion, Rate(true)]
    case SlashedFailure => [Rate(false)]
    case Disconnection => [Disconnect]
  }

  function ExecAll(s: Standing, stmts: seq<Statement>): Standing
    decreases |stmts|
  {
    if stmts == [] then s else ExecAll(Exec(s, stmts[0]), stmts[1..])
  }

  class ReputationService {
    var providers: Providers

    constructor (ps: Providers)
      ensures providers == ps
    {
      providers := ps;
    }

    method UpdateTrustScore(p: Id, success: bool)
      modifies this
      ensures providers == Update(old(providers), p, Rate(success))
    {
      var delta := if success then 0.05 else -0.3;
      if p in providers {
        var s := providers[p];
        providers := providers[p := s.(trust := Clamp(s.trust + delta), rate := NewRate(s, success))];
      }
    }

    method CompleteJob(p: Id)
      modifies this
      ensures providers.Keys == old(providers).Keys
      ensures forall q :: q in providers ==>
                providers[q] == if q == p then ExecAll(old(providers)[q], Statements(Completion)) else old(providers)[q]
    {
      if p in providers {
        providers := providers[p := providers[p].(completed := providers[p].completed + 1)];
        CompletionIsTwoStatements(old(providers)[p]);
      }
      UpdateTrustScore(p, true);
    }

    method FailJob(p: Id, slash: bool)
      modifies this
      ensures providers == if slash then Update(old(providers), p, Rate(false)) else old(providers)
    {
      if slash {
        UpdateTrustScore(p, false);
      }
    }
  }

  lemma CompletionIsTwoStatements(s: Standing)
    ensures ExecAll(s, Statements(Completion)) == Exec(Exec(s, CountCompletion), Rate(true))
  {
    var counted := Exec(s, CountCompletion);
    assert Statements(Completion)[1..] == [Rate(true)];
    assert ExecAll(counted, [Rate(true)]) == ExecAll(Exec(counted, Rate(true)), []);
  }

  lemma FailureIsOneStatement(s: Standing)
    ensures ExecAll(s, Statements(SlashedFailure)) == Exec(s, Rate(false))
  {
    assert ExecAll(Exec(s, Rate(false)), []) == Exec(s, Rate(false));
  }

  lemma DisconnectionIsOneStatement(s: Standing)
    ensures ExecAll(s, Statements(Disconnection)) == Exec(s, Disconnect)
    ensures D.Penalised(W.Some(s.trust)) == W.Some(Exec(s, Disconnect).trust)
  {
    assert ExecAll(Exec(s, Disconnect), []) == Exec(s, Disconnect);
  }

  // ----- bounds -----

  predicate InBounds(s: Standing) {
    0.0 <= s.trust <= 5.0 && 0.0 <= s.rate <= 1.0 && s.completed >= 0
  }

  lemma NewRateInBounds(rate: real, n: real, x: real)
    requires 0.0 <= rate <= 1.0 && n >= 1.0 && 0.0 <= x <= 1.0
    ensures 0.0 <= (rate * (n - 1.0) + x) / n <= 1.0
  {
    var product := rate * (n - 1.0);
    NonNegativeProduct(rate, n - 1.0);
    NonNegativeProduct(1.0 - rate, n - 1.0);
    assert (1.0 - rate) * (n - 1.0) == n - 1.0 - product;
    var y := (product + x) / n;
    Divides(product + x, n);
    SameSign(n, y);
    assert n * (1.0 - y) == n - n * y;
    SameSign(n, 1.0 - y);
  }

  lemma ExecInBounds(s: Standing, stmt: Statement)
    requires InBounds(s)
    ensures InBounds(Exec(s, stmt))
  {
    hide NewRate;
    if stmt.Rate? {
      NewRateBounded(s, stmt.success);
    }
  }

  lemma NewRateBounded(s: Standing, success: bool)
    requires InBounds(s)
    ensures 0.0 <= NewRate(s, success) <= 1.0
  {
    if s.completed > 0 {
      var x := if success then 1.0 else 0.0;
      NewRateUnfolds(s, success);
      hide NewRate;
      NewRateInBounds(s.rate, s.completed as real, x);
    }
  }

  lemma NewRateUnfolds(s: Standing, success: bool)
    requires s.completed > 0
    ensures NewRate(s, success) == (s.rate * (s.completed as real - 1.0) + if success then 1.0 else 0.0) / s.completed as real
  {
    assert (s.completed - 1) as real == s.completed as real - 1.0;
  }

  /** Bounds hold at every statement of every interleaving of handlers, since they hold after any
      sequence of statements whatever. */
  lemma {:induction false} BoundsHold(s: Standing, stmts: seq<Statement>)
    requires InBounds(s)
    ensures InBounds(ExecAll(s, stmts))
    decreases |stmts|
  {
    if stmts == [] {
    } else {
      ExecInBounds(s, stmts[0]);
      BoundsHold(Exec(s, stmts[0]), stmts[1..]);
    }
  }

  // ----- what the rate remembers -----

  /** The number of completed jobs, weighed by how far the rate is from one. */
  function Missing(s: Standing): real {
    s.completed as real * (1.0 - s.rate)
  }

  lemma NothingMissingIff(s: Standing)
    requires s.completed > 0
    ensures Missing(s) == 0.0 <==> s.rate == 1.0
  {
    SameSign(s.completed as real, 1.0 - s.rate);
  }

  lemma MissingAfterRate(s: Standing, success: bool)
    requires s.completed > 0
    ensures Missing(Exec(s, Rate(success))) == Missing(s) + s.rate - if success then 1.0 else 0.0
  {
    var n, x := s.completed as real, if success then 1.0 else 0.0;
    var sum := s.rate * (n - 1.0) + x;
    Divides(sum, n);
    assert n * (1.0 - sum / n) == n - n * (sum / n);
    assert s.rate * (n - 1.0) == s.rate * n - s.rate;
    assert n * (1.0 - s.rate) == n - s.rate * n;
  }

  lemma MissingAfterCount(s: Standing)
    ensures Missing(Exec(s, CountCompletion)) == Missing(s) + 1.0 - s.rate
  {
    assert (s.completed + 1) as real == s.completed as real + 1.0;
  }

  function After(s: Standing, e: Event): Standing {
    ExecAll(s, Statements(e))
  }

  /** What a handler adds: a failure adds the old rate once some job was completed, nothing else adds. */
  function Lost(s: Standing, e: Event): real {
    if e == SlashedFailure && s.completed > 0 then s.rate else 0.0
  }

  lemma EventMissing(s: Standing, e: Event)
    requires InBounds(s)
    ensures Missing(After(s, e)) == Missing(s) + Lost(s, e)
    ensures After(s, e).completed == s.completed + if e == Completion then 1 else 0
  {
    match e
    case Completion =>
      CompletionIsTwoStatements(s);
      MissingAfterCount(s);
      MissingAfterRate(Exec(s, CountCompletion), true);
    case SlashedFailure =>
      FailureIsOneStatement(s);
      if s.completed > 0 {
        MissingAfterRate(s, false);
      }
    case Disconnection =>
      DisconnectionIsOneStatement(s);
  }

  function RunEvents(s: Standing, events: seq<Event>): Standing
    decreases |events|
  {
    if events == [] then s else RunEvents(After(s, events[0]), events[1..])
  }

  function LostOver(s: Standing, events: seq<Event>): real
    decreases |events|
  {
    if events == [] then 0.0 else Lost(s, events[0]) + LostOver(After(s, events[0]), events[1..])
  }

  function Count(events: seq<Event>, e: Event): nat {
    if events == [] then 0 else (if events[0] == e then 1 else 0) + Count(events[1..], e)
  }

  /** Over every run of whole handlers, jobs_completed times (1 - success_rate) is what the failures
      added, and nothing that a completion does changes it. */
  lemma {:induction false} RunMissing(s: Standing, events: seq<Event>)
    requires InBounds(s)
    ensures var end := RunEvents(s, events);
            && InBounds(end)
            && Missing(end) == Missing(s) + LostOver(s, events)
            && end.completed == s.completed + Count(events, Completion)
    decreases |events|
  {
    if events == [] {
    } else {
      EventMissing(s, events[0]);
      BoundsHold(s, Statements(events[0]));
      RunMissing(After(s, events[0]), events[1..]);
    }
  }

  /** A success rate of one is lost exactly by a failure after the first completion. */
  lemma {:induction false} PerfectIff(s: Standing, events: seq<Event>)
    requires InBounds(s) && s.rate == 1.0 && s.completed > 0
    ensures RunEvents(s, events).rate == 1.0 <==> Count(events, SlashedFailure) == 0
    decreases |events|
  {
    RunMissing(s, events);
    LostIff(s, events);
    LostNonNegative(s, events);
    NothingMissingIff(s);
    NothingMissingIff(RunEvents(s, events));
  }

  lemma {:induction false} LostIff(s: Standing, events: seq<Event>)
    requires InBounds(s) && s.rate == 1.0 && s.completed > 0
    ensures LostOver(s, events) > 0.0 <==> Count(events, SlashedFailure) > 0
    decreases |events|
  {
    if events == [] {
    } else {
      var next := After(s, events[0]);
      EventMissing(s, events[0]);
      BoundsHold(s, Statements(events[0]));
      if events[0] == SlashedFailure {
        LostNonNegative(next, events[1..]);
      } else {
        NothingMissingIff(s);
        NothingMissingIff(next);
        LostIff(next, events[1..]);
      }
    }
  }

  lemma {:induction false} LostNonNegative(s: Standing, events: seq<Event>)
    requires InBounds(s)
    ensures LostOver(s, events) >= 0.0
    decreases |events|
  {
    if events == [] {
    } else {
      BoundsHold(s, Statements(events[0]));
      LostNonNegative(After(s, events[0]), events[1..]);
    }
  }

  /** Failures before the first completion set the rate to 0, and are forgotten by it. */
  lemma FirstCompletionForgets(s: Standing)
    requires s.completed == 0
    ensures After(s, Completion).rate == 1.0
    ensures After(s, SlashedFailure).rate == 0.0
  {
    FailureIsOneStatement(s);
    CompletionIsTwoStatements(s);
  }

  // ----- trust -----

  /** A completion raises trust by 0.05 up to 5; a slashed failure lowers it by 0.3 and a disconnect by 0.2,
      down to 0. */
  lemma TrustMoves(s: Standing, e: Event)
    requires InBounds(s)
    ensures After(s, e).trust == match e
              case Completion => if s.trust + 0.05 > 5.0 then 5.0 else s.trust + 0.05
              case SlashedFailure => if s.trust < 0.3 then 0.0 else s.trust - 0.3
              case Disconnection => if s.trust < 0.2 then 0.0 else s.trust - 0.2
  {
    match e
    case Completion => CompletionIsTwoStatements(s);
    case SlashedFailure => FailureIsOneStatement(s);
    case Disconnection => DisconnectionIsOneStatement(s);
  }

  /** Over a run of completions trust rises by 0.05 each, until it is 5. */
  lemma {:induction false} CompletionsRaise(s: Standing, events: seq<Event>)
    requires InBounds(s) && Count(events, Completion) == |events|
    ensures var risen := s.trust + 0.05 * |events| as real;
            RunEvents(s, events).trust == if risen > 5.0 then 5.0 else risen
    decreases |events|
  {
    if events == [] {
    } else {
      CountAll(events, Completion);
      TrustMoves(s, events[0]);
      BoundsHold(s, Statements(events[0]));
      hide After, NewRate;
      CompletionsRaise(After(s, events[0]), events[1..]);
    }
  }

  lemma {:induction false} CountBound(events: seq<Event>, e: Event)
    ensures Count(events, e) <= |events|
  {
    if events == [] {
    } else {
      CountBound(events[1..], e);
    }
  }

  lemma CountAll(events: seq<Event>, e: Event)
    requires events != [] && Count(events, e) == |events|
    ensures events[0] == e && Count(events[1..], e) == |events| - 1
  {
    CountBound(events[1..], e);
  }

  /** Over a run without completions it falls by 0.3 for each slashed failure and 0.2 for each disconnect,
      until it is 0. */
  lemma {:induction false} FaultsLower(s: Standing, events: seq<Event>)
    requires InBounds(s) && Count(events, Completion) == 0
    ensures var fallen := s.trust - 0.3 * Count(events, SlashedFailure) as real - 0.2 * Count(events, Disconnection) as real;
            RunEvents(s, events).trust == if fallen < 0.0 then 0.0 else fallen
    decreases |events|
  {
    if events == [] {
    } else {
      TrustMoves(s, events[0]);
      BoundsHold(s, Statements(events[0]));
      hide After, NewRate;
      FaultsLower(After(s, events[0]), events[1..]);
    }
  }

  // ----- overlapping handlers, and the documented ratio -----

  /** Two completions whose statements overlap keep the quantity exactly when the rate was one. */
  lemma OverlappingCompletionsIff(s: Standing)
    requires InBounds(s)
    ensures Missing(ExecAll(s, [CountCompletion, CountCompletion, Rate(true), Rate(true)])) == Missing(s)
       <==> s.rate == 1.0
  {
    hide ExecAll, NewRate;
    var a := Exec(s, CountCompletion);
    var b := Exec(a, CountCompletion);
    var c := Exec(b, Rate(true));
    OverlapUnfolds(s);
    OverlapMissing(s);
    MissingAfterRate(b, true);
    KeptIff(b.completed as real, s.rate, c.rate);
  }

  lemma KeptIff(n: real, was: real, now: real)
    requires n > 0.0 && n * (1.0 - now) == n * (1.0 - was) + was - 1.0
    ensures now == was <==> was == 1.0
  {
    assert n * (1.0 - now) - n * (1.0 - was) == n * (was - now);
    SameSign(n, was - now);
  }

  lemma OverlapUnfolds(s: Standing)
    ensures ExecAll(s, [CountCompletion, CountCompletion, Rate(true), Rate(true)])
         == Exec(Exec(Exec(Exec(s, CountCompletion), CountCompletion), Rate(true)), Rate(true))
  {
    hide Exec;
    var all := [CountCompletion, CountCompletion, Rate(true), Rate(true)];
    assert all[1..][1..][1..] == [Rate(true)] && all[1..][1..][1..][1..] == [];
  }

  lemma OverlapMissing(s: Standing)
    requires s.completed >= 0
    ensures var c := Exec(Exec(Exec(s, CountCompletion), CountCompletion), Rate(true));
            Missing(Exec(c, Rate(true))) == Missing(s) + c.rate - s.rate
  {
    hide Missing, NewRate;
    var a := Exec(s, CountCompletion);
    var b := Exec(a, CountCompletion);
    MissingAfterCount(s);
    MissingAfterCount(a);
    MissingAfterRate(b, true);
    MissingAfterRate(Exec(b, Rate(true)), true);
  }

  /** The documented meaning of the rate: completed jobs over all jobs, f of which failed. */
  predicate IsRatio(s: Standing, f: nat) {
    s.rate * (s.completed + f) as real == s.completed as real
  }

  /** Once a job was completed, a slashed failure never keeps that meaning, and a completion keeps it
      exactly when nothing had failed. */
  lemma RatioKeptIff(s: Standing, f: nat)
    requires s.completed > 0 && IsRatio(s, f)
    ensures !IsRatio(After(s, SlashedFailure), f + 1)
    ensures IsRatio(After(s, Completion), f) <==> f == 0
  {
    hide NewRate;
    var n, m, r := s.completed as real, f as real, s.rate;
    assert (s.completed + f) as real == n + m;
    FailureIsOneStatement(s);
    var failed := Exec(s, Rate(false));
    RateTimesCount(s, false);
    assert (s.completed + (f + 1)) as real == n + m + 1.0;
    FailureBreaks(n, m, r, failed.rate);
    CompletionIsTwoStatements(s);
    var counted := Exec(s, CountCompletion);
    var done := Exec(counted, Rate(true));
    RateTimesCount(counted, true);
    assert (counted.completed + f) as real == n + 1.0 + m;
    CompletionKeepsIff(n, m, r, done.rate);
  }

  lemma RateTimesCount(s: Standing, success: bool)
    requires s.completed > 0
    ensures Exec(s, Rate(success)).rate * s.completed as real
         == s.rate * (s.completed as real - 1.0) + if success then 1.0 else 0.0
  {
    var x := if success then 1.0 else 0.0;
    NewRateUnfolds(s, success);
    Divides(s.rate * (s.completed as real - 1.0) + x, s.completed as real);
  }

  lemma FailureBreaks(n: real, m: real, r: real, now: real)
    requires n >= 1.0 && m >= 0.0 && r * (n + m) == n && now * n == r * (n - 1.0)
    ensures now * (n + m + 1.0) != n
  {
    assert r * (n - 1.0) == r * n - r;
    assert r * (n + m) == r * n + r * m;
    assert now * (n + m + 1.0) == now * n + now * (m + 1.0);
    assert r * (m + 1.0) == r * m + r;
    if now * (n + m + 1.0) == n {
      Cancel(now, r, m + 1.0);
    }
  }

  lemma CompletionKeepsIff(n: real, m: real, r: real, now: real)
    requires n >= 1.0 && m >= 0.0 && r * (n + m) == n && now * (n + 1.0) == r * n + 1.0
    ensures now * (n + 1.0 + m) == n + 1.0 <==> m == 0.0
  {
    assert r * (n + m) == r * n + r * m;
    assert now * (n + 1.0 + m) == now * (n + 1.0) + now * m;
    assert r * (n + 1.0) == r * n + r;
    if m > 0.0 && now * (n + 1.0 + m) == n + 1.0 {
      Cancel(now, r, m);
    }
  }

  /** The rate is not completed jobs over all jobs: one completion and one failure give 0, not 1/2. */
  lemma RateIsNotTheRatio()
    ensures var events := [Completion, SlashedFailure];
            RunEvents(Standing(3.0, 0, 1.0), events).rate == 0.0
  {
    var s := Standing(3.0, 0, 1.0);
    var a := After(s, Completion);
    var b := After(a, SlashedFailure);
    CompletionIsTwoStatements(s);
    FailureIsOneStatement(a);
    assert [Completion, SlashedFailure][1..] == [SlashedFailure];
    assert RunEvents(a, [SlashedFailure]) == RunEvents(b, []) == b;
  }
}
