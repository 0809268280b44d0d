/** Rewards for every eight GPU hours a provider contributes. */
module Milestones {
  import opened Wrappers
  import opened Bytes
  import D = CoordinatorDb

  type Id = string

  datatype Job = Job(state: D.JobState, runtime: int)

  /** A deposit request sent to the ledger, with its reference hours and its amount in credits. */
  datatype Reward = Reward(provider: Id, hours: int, amount: real)

  /** `records` is the milestone_rewards table, unique on provider and hours. */
  datatype Db = Db(jobs: map<Id, Job>, totals: map<Id, Option<real>>, records: map<Id, set<int>>,
                   deposits: seq<Reward>)

  datatype Report = Report(job: Id, provider: Id, exitCode: int, runtime: u64)

  const REWARD := 50.0
  const I32_LIMIT := 0x8000_0000
  const I64_LIMIT := 0x8000_0000_0000_0000

  /** `as i32` and `as i64` on integers: two's complement truncation. */
  function WrapI32(n: int): (r: int)
    ensures -I32_LIMIT <= r < I32_LIMIT
  {
    (n + I32_LIMIT) % 0x1_0000_0000 - I32_LIMIT
  }

  function WrapI64(n: int): (r: int)
    ensures -I64_LIMIT <= r < I64_LIMIT
  {
    (n + I64_LIMIT) % 0x1_0000_0000_0000_0000 - I64_LIMIT
  }

  /** `as i32` on a float: toward zero, then saturating. */
  function SaturateI32(x: real): (r: int)
    ensures -I32_LIMIT <= r < I32_LIMIT
  {
    var n := if x >= 0.0 then x.Floor else -((-x).Floor);
    if n < -I32_LIMIT then -I32_LIMIT else if n >= I32_LIMIT then I32_LIMIT - 1 else n
  }

  function RecordsOf(records: map<Id, set<int>>, p: Id): set<int> {
    if p in records then records[p] else {}
  }

  function TotalOf(db: Db, p: Id): real {
    if p in db.totals then D.OrZero(db.totals[p]) else 0.0
  }

  predicate Succeeded(r: Report) {
    r.exitCode == 0
  }

  function HoursOf(r: Report): real {
    r.runtime as real / 3600.0
  }

  // ----- one report -----

  function MarkJob(jobs: map<Id, Job>, r: Report): map<Id, Job> {
    if r.job !in jobs then jobs
    else jobs[r.job := Job(if Succeeded(r) then D.Complete else D.Failed, WrapI64(r.runtime))]
  }

  function AwardOne(db: Db, p: Id, num: int): Db {
    var hours := WrapI32(num * 8);
    db.(records := db.records[p := RecordsOf(db.records, p) + {hours}], deposits := db.deposits + [Reward(p, hours, REWARD)])
  }

  /** Milestones numbered from `lo` up to and including `hi`, in order. */
  function Award(db: Db, p: Id, lo: int, hi: int): Db
    decreases hi - lo
  {
    if hi < lo then db else AwardOne(Award(db, p, lo, hi - 1), p, hi)
  }

  predicate Earns(db: Db, r: Report) {
    Succeeded(r) && r.provider != "" && r.provider in db.totals
  }

  /** The job is marked and the provider's hours are added, before any reward. */
  function Credited(db: Db, r: Report): Db {
    var marked := db.(jobs := MarkJob(db.jobs, r));
    if Earns(db, r) then
      marked.(totals := db.totals[r.provider := Some(TotalOf(db, r.provider) + HoursOf(r))])
    else marked
  }

  function Earned(db: Db, p: Id): int {
    SaturateI32(TotalOf(db, p) / 8.0)
  }

  function Claimed(db: Db, p: Id): int {
    WrapI32(|RecordsOf(db.records, p)|)
  }

  function Completed(db: Db, r: Report): Db {
    var c := Credited(db, r);
    if Earns(db, r) then Award(c, r.provider, Claimed(c, r.provider) + 1, Earned(c, r.provider)) else c
  }

  function Run(db: Db, reports: seq<Report>): Db
    decreases |reports|
  {
    if reports == [] then db else Run(Completed(db, reports[0]), reports[1..])
  }

  // ----- the handler -----

  class RewardService {
    var jobs: map<Id, Job>
    var totals: map<Id, Option<real>>
    var records: map<Id, set<int>>
    var deposits: seq<Reward>

    constructor (db: Db)
      ensures View() == db
    {
      jobs, totals, records, deposits := db.jobs, db.totals, db.records, db.deposits;
    }

    ghost function View(): Db
      reads this
    {
      Db(jobs, totals, records, deposits)
    }

    method ReportCompletion(r: Report)
      modifies this
      ensures View() == Completed(old(View()), r)
    {
      var state := if r.exitCode == 0 then D.Complete else D.Failed;
      if r.job in jobs {
        jobs := jobs[r.job := Job(state, WrapI64(r.runtime))];
      }
      if state == D.Complete && r.provider != "" && r.provider in totals {
        totals := totals[r.provider := Some(D.OrZero(totals[r.provider]) + r.runtime as real / 3600.0)];
        assert View() == Credited(old(View()), r);
        IssueRewards(r.provider);
      }
    }

    method IssueRewards(p: Id)
      requires p in totals && totals[p].Some?
      modifies this
      ensures View() == Award(old(View()), p, Claimed(old(View()), p) + 1, Earned(old(View()), p))
    {
      hide WrapI32, SaturateI32, AwardOne;
      var earned := SaturateI32(totals[p].value / 8.0);
      var claimed := WrapI32(|RecordsOf(records, p)|);
      var num := claimed + 1;
      while num <= earned
        invariant num == claimed + 1 || claimed + 1 <= num <= earned + 1
        invariant View() == Award(old(View()), p, claimed + 1, num - 1)
      {
        IssueReward(p, num);
        num := num + 1;
      }
    }

    method IssueReward(p: Id, num: int)
      modifies this
      ensures View() == AwardOne(old(View()), p, num)
    {
      var milestone := WrapI32(num * 8);
      deposits := deposits + [Reward(p, milestone, REWARD)];
      records := records[p := RecordsOf(records, p) + {milestone}];
    }
  }

  // ----- rewards follow the total -----

  /** The number of milestones that `total` hours are worth. */
  function Reached(total: real): int {
    (total / 8.0).Floor
  }

  /** The deposit hours requested for `p`, in order. */
  function DepositsFor(deposits: seq<Reward>, p: Id): seq<int> {
    if deposits == [] then []
    else
      var rest := DepositsFor(deposits[..|deposits| - 1], p);
      var last := deposits[|deposits| - 1];
      if last.provider == p then rest + [last.hours] else rest
  }

  /** [8, 16, ..., 8 * m] */
  function Multiples(m: nat): (s: seq<int>)
    ensures |s| == m && forall i :: 0 <= i < m ==> s[i] == 8 * (i + 1)
  {
    if m == 0 then [] else Multiples(m - 1) + [8 * m]
  }

  function SetOf(s: seq<int>): (r: set<int>) {
    set x | x in s
  }

  lemma {:induction false} MultiplesAreDistinct(m: nat)
    ensures |SetOf(Multiples(m))| == m
  {
    if m == 0 {
    } else {
      MultiplesAreDistinct(m - 1);
      assert SetOf(Multiples(m)) == SetOf(Multiples(m - 1)) + {8 * m};
      assert 8 * m !in SetOf(Multiples(m - 1));
    }
  }

  /** A provider's rewards are the first `m` multiples of eight, each requested once. */
  predicate Rewarded(db: Db, p: Id, m: nat) {
    RecordsOf(db.records, p) == SetOf(Multiples(m)) && DepositsFor(db.deposits, p) == Multiples(m)
  }

  lemma AwardOneRewards(db: Db, p: Id, num: nat)
    requires num > 0 && Rewarded(db, p, num - 1) && 8 * num < I32_LIMIT
    ensures Rewarded(AwardOne(db, p, num), p, num)
  {
    var after := AwardOne(db, p, num);
    assert after.deposits[..|db.deposits|] == db.deposits;
    assert SetOf(Multiples(num)) == SetOf(Multiples(num - 1)) + {8 * num};
  }

  lemma {:induction false} AwardRewards(db: Db, p: Id, m: nat, hi: nat)
    requires Rewarded(db, p, m) && m <= hi && 8 * hi < I32_LIMIT
    ensures Rewarded(Award(db, p, m + 1, hi), p, hi)
    decreases hi
  {
    hide AwardOne, Rewarded;
    if m < hi {
      AwardRewards(db, p, m, hi - 1);
      AwardOneRewards(Award(db, p, m + 1, hi - 1), p, hi);
    }
  }

  lemma AwardOneLeavesOthers(db: Db, p: Id, q: Id, num: int)
    ensures var after := AwardOne(db, p, num);
            && after.totals == db.totals && after.jobs == db.jobs
            && (p != q ==> RecordsOf(after.records, q) == RecordsOf(db.records, q)
                           && DepositsFor(after.deposits, q) == DepositsFor(db.deposits, q))
  {
    assert AwardOne(db, p, num).deposits[..|db.deposits|] == db.deposits;
  }

  lemma {:induction false} AwardLeavesOthers(db: Db, p: Id, q: Id, lo: int, hi: int)
    ensures var after := Award(db, p, lo, hi);
            && after.totals == db.totals && after.jobs == db.jobs
            && (p != q ==> RecordsOf(after.records, q) == RecordsOf(db.records, q)
                           && DepositsFor(after.deposits, q) == DepositsFor(db.deposits, q))
    decreases hi - lo
  {
    hide AwardOne;
    if lo <= hi {
      AwardLeavesOthers(db, p, q, lo, hi - 1);
      AwardOneLeavesOthers(Award(db, p, lo, hi - 1), p, q, hi);
    }
  }

  /** A provider before any reward: fewer than eight hours and no records. */
  predicate Fresh(db: Db, p: Id) {
    0.0 <= TotalOf(db, p) < 8.0 && Rewarded(db, p, 0)
  }

  /** Hours that the reports add for `p`. */
  function HoursFor(reports: seq<Report>, p: Id): (h: real)
    ensures h >= 0.0
  {
    if reports == [] then 0.0
    else (if Succeeded(reports[0]) && reports[0].provider == p then HoursOf(reports[0]) else 0.0)
         + HoursFor(reports[1..], p)
  }

  /** The last milestone whose hours fit the column's 32 bits is numbered one less than this. */
  const MILESTONE_LIMIT := 0x1000_0000

  ghost predicate Inv(db: Db, p: Id) {
    && TotalOf(db, p) >= 0.0
    && (Reached(TotalOf(db, p)) < MILESTONE_LIMIT ==> Rewarded(db, p, Reached(TotalOf(db, p))))
  }

  function Gain(db: Db, p: Id, r: Report): (g: real)
    ensures g >= 0.0
  {
    if Earns(db, r) && r.provider == p then HoursOf(r) else 0.0
  }

  lemma CreditAdds(db: Db, p: Id, r: Report)
    ensures var c := Credited(db, r);
            && c.records == db.records && c.deposits == db.deposits && c.totals.Keys == db.totals.Keys
            && TotalOf(c, p) == TotalOf(db, p) + Gain(db, p, r)
  {
  }

  lemma StepAdds(db: Db, p: Id, r: Report)
    ensures Completed(db, r).totals.Keys == db.totals.Keys
    ensures TotalOf(Completed(db, r), p) == TotalOf(db, p) + Gain(db, p, r)
  {
    hide Gain, Credited, Claimed, Earned;
    var c, q := Credited(db, r), r.provider;
    CreditAdds(db, p, r);
    AwardLeavesOthers(c, q, p, Claimed(c, q) + 1, Earned(c, q));
  }

  lemma StepKeepsInv(db: Db, p: Id, r: Report)
    requires Inv(db, p)
    ensures Inv(Completed(db, r), p)
  {
    hide Credited, Claimed, Earned, TotalOf, Award, SetOf, Multiples, DepositsFor;
    var c, q := Credited(db, r), r.provider;
    CreditAdds(db, p, r);
    StepAdds(db, p, r);
    if Earns(db, r) {
      if q != p {
        AwardLeavesOthers(c, q, p, Claimed(c, q) + 1, Earned(c, q));
      } else if Reached(TotalOf(c, p)) < MILESTONE_LIMIT {
        FloorMonotone(TotalOf(db, p) / 8.0, TotalOf(c, p) / 8.0);
        PayoutRewards(c, p, Reached(TotalOf(db, p)));
      }
    }
  }

  lemma PayoutRewards(c: Db, p: Id, m: nat)
    requires Rewarded(c, p, m) && TotalOf(c, p) >= 0.0 && m <= Reached(TotalOf(c, p)) < MILESTONE_LIMIT
    ensures Rewarded(Award(c, p, Claimed(c, p) + 1, Earned(c, p)), p, Reached(TotalOf(c, p)))
  {
    hide Claimed, Earned, TotalOf, Reached;
    ClaimedIsCount(c, p, m);
    EarnedIsReached(c, p);
    AwardRewards(c, p, m, Reached(TotalOf(c, p)));
  }

  lemma ClaimedIsCount(c: Db, p: Id, m: nat)
    requires Rewarded(c, p, m) && m < I32_LIMIT
    ensures Claimed(c, p) == m
  {
    MultiplesAreDistinct(m);
  }

  lemma EarnedIsReached(c: Db, p: Id)
    requires TotalOf(c, p) >= 0.0 && Reached(TotalOf(c, p)) < MILESTONE_LIMIT
    ensures Earned(c, p) == Reached(TotalOf(c, p)) >= 0
  {
  }

  lemma FloorMonotone(a: real, b: real)
    requires a <= b
    ensures a.Floor <= b.Floor
  {
  }

  lemma {:induction false} RunKeepsInv(db: Db, p: Id, reports: seq<Report>)
    requires Inv(db, p)
    ensures Inv(Run(db, reports), p)
    ensures TotalOf(Run(db, reports), p)
         == TotalOf(db, p) + if p != "" && p in db.totals then HoursFor(reports, p) else 0.0
    decreases |reports|
  {
    if reports == [] {
    } else {
      StepAdds(db, p, reports[0]);
      StepKeepsInv(db, p, reports[0]);
      RunKeepsInv(Completed(db, reports[0]), p, reports[1..]);
    }
  }

  // ----- the column's width -----

  ghost predicate FitI32(s: set<int>) {
    forall h :: h in s ==> -I32_LIMIT <= h < I32_LIMIT
  }

  lemma {:induction false} AwardFits(db: Db, p: Id, q: Id, lo: int, hi: int)
    requires FitI32(RecordsOf(db.records, p))
    ensures FitI32(RecordsOf(Award(db, q, lo, hi).records, p))
    decreases hi - lo
  {
    if lo <= hi {
      AwardFits(db, p, q, lo, hi - 1);
    }
  }

  lemma {:induction false} RunFits(db: Db, p: Id, reports: seq<Report>)
    requires FitI32(RecordsOf(db.records, p))
    ensures FitI32(RecordsOf(Run(db, reports).records, p))
    decreases |reports|
  {
    if reports == [] {
    } else {
      var r := reports[0];
      if Earns(db, r) {
        var c := Credited(db, r);
        AwardFits(c, p, r.provider, Claimed(c, r.provider) + 1, Earned(c, r.provider));
      }
      RunFits(Completed(db, r), p, reports[1..]);
    }
  }

  lemma FreshKeepsInv(db: Db, p: Id)
    requires Fresh(db, p)
    ensures Inv(db, p)
  {
  }

  lemma ManyMultiples(m: nat)
    requires m >= MILESTONE_LIMIT
    ensures I32_LIMIT in SetOf(Multiples(m))
  {
    assert Multiples(m)[MILESTONE_LIMIT - 1] == I32_LIMIT;
  }

  /** The recorded milestones are exactly 8, 16, up to 8 * floor(total / 8), each requested once from
      the ledger, precisely as long as those hours fit 32 bits. */
  lemma MilestonesFollowTotalIff(db: Db, p: Id, reports: seq<Report>)
    requires Fresh(db, p) && p != "" && p in db.totals
    ensures var total := TotalOf(db, p) + HoursFor(reports, p);
            var end := Run(db, reports);
            && total >= 0.0
            && (RecordsOf(end.records, p) == SetOf(Multiples(Reached(total))) <==> Reached(total) < MILESTONE_LIMIT)
            && (Reached(total) < MILESTONE_LIMIT ==> DepositsFor(end.deposits, p) == Multiples(Reached(total)))
  {
    hide Run, HoursFor, DepositsFor, TotalOf;
    RunKeepsInv(db, p, reports) by { FreshKeepsInv(db, p); }
    RunFits(db, p, reports);
    var total := TotalOf(db, p) + HoursFor(reports, p);
    if Reached(total) >= MILESTONE_LIMIT {
      ManyMultiples(Reached(total));
    }
  }

  // ----- in seconds and credits -----

  /** The seconds of successful jobs reported for `p`. */
  function SecondsFor(reports: seq<Report>, p: Id): nat {
    if reports == [] then 0
    else (if reports[0].exitCode == 0 && reports[0].provider == p then reports[0].runtime else 0) + SecondsFor(reports[1..], p)
  }

  lemma {:induction false} HoursAreSeconds(reports: seq<Report>, p: Id)
    ensures 3600.0 * HoursFor(reports, p) == SecondsFor(reports, p) as real
  {
    if reports == [] {
    } else {
      HoursAreSeconds(reports[1..], p);
    }
  }

  lemma ReachedInSeconds(total: real, seconds: nat)
    requires 3600.0 * total == seconds as real
    ensures Reached(total) == seconds / 28800
  {
    var q, r := seconds / 28800, seconds % 28800;
    assert seconds == 28800 * q + r;
    assert total / 8.0 == q as real + r as real / 28800.0;
  }

  function PaidFor(deposits: seq<Reward>, p: Id): real {
    if deposits == [] then 0.0
    else
      var last := deposits[|deposits| - 1];
      PaidFor(deposits[..|deposits| - 1], p) + if last.provider == p then last.amount else 0.0
  }

  predicate AllFifty(deposits: seq<Reward>) {
    forall i :: 0 <= i < |deposits| ==> deposits[i].amount == 50.0
  }

  lemma {:induction false} AwardsAreFifty(db: Db, p: Id, lo: int, hi: int)
    requires AllFifty(db.deposits)
    ensures AllFifty(Award(db, p, lo, hi).deposits)
    decreases hi - lo
  {
    if hi < lo {
    } else {
      AwardsAreFifty(db, p, lo, hi - 1);
    }
  }

  lemma {:induction false} RunsAreFifty(db: Db, reports: seq<Report>)
    requires AllFifty(db.deposits)
    ensures AllFifty(Run(db, reports).deposits)
    decreases |reports|
  {
    if reports == [] {
    } else {
      var c, p := Credited(db, reports[0]), reports[0].provider;
      if Earns(db, reports[0]) {
        AwardsAreFifty(c, p, Claimed(c, p) + 1, Earned(c, p));
      }
      RunsAreFifty(Completed(db, reports[0]), reports[1..]);
    }
  }

  lemma {:induction false} FiftyEach(deposits: seq<Reward>, p: Id)
    requires AllFifty(deposits)
    ensures PaidFor(deposits, p) == 50.0 * |DepositsFor(deposits, p)| as real
  {
    if deposits == [] {
    } else {
      FiftyEach(deposits[..|deposits| - 1], p);
    }
  }

  /** From nothing, n seconds of successful jobs, however reported, earn one milestone for every 28800 of
      them, recorded as 8, 16, ... hours, and 50 credits for each, exactly while the last milestone's hours
      fit 32 bits. */
  lemma SecondsEarnIff(db: Db, p: Id, reports: seq<Report>)
    requires TotalOf(db, p) == 0.0 && Rewarded(db, p, 0) && AllFifty(db.deposits) && p != "" && p in db.totals
    ensures var m, end := SecondsFor(reports, p) / 28800, Run(db, reports);
            && (RecordsOf(end.records, p) == SetOf(Multiples(m)) <==> 8 * m < 0x8000_0000)
            && (8 * m < 0x8000_0000 ==>
                  DepositsFor(end.deposits, p) == Multiples(m) && PaidFor(end.deposits, p) == 50.0 * m as real)
  {
    hide Run, HoursFor, DepositsFor, TotalOf, SetOf, Multiples, RecordsOf;
    MilestonesFollowTotalIff(db, p, reports);
    HoursAreSeconds(reports, p);
    ReachedInSeconds(TotalOf(db, p) + HoursFor(reports, p), SecondsFor(reports, p));
    RunsAreFifty(db, reports);
    FiftyEach(Run(db, reports).deposits, p);
  }

  /** A report completes its job exactly on exit code 0 and fails it otherwise, with the reported runtime as
      far as 63 bits hold it, and touches no other job. */
  lemma ReportMarksJob(db: Db, r: Report, job: Id)
    ensures Completed(db, r).jobs.Keys == db.jobs.Keys
    ensures job in db.jobs && job != r.job ==> Completed(db, r).jobs[job] == db.jobs[job]
    ensures r.job in db.jobs && r.runtime < 0x8000_0000_0000_0000 ==>
              Completed(db, r).jobs[r.job] == Job(if r.exitCode == 0 then D.Complete else D.Failed, r.runtime)
  {
    var c, p := Credited(db, r), r.provider;
    if Earns(db, r) {
      AwardLeavesOthers(c, p, p, Claimed(c, p) + 1, Earned(c, p));
    }
  }

  /** Two ways to split the same hours over reports give the same rewards. */
  lemma SplitDoesNotMatter(a: Db, b: Db, p: Id, first: seq<Report>, second: seq<Report>)
    requires Fresh(a, p) && Fresh(b, p) && p != "" && p in a.totals && p in b.totals
    requires TotalOf(a, p) + HoursFor(first, p) == TotalOf(b, p) + HoursFor(second, p) < 2147483648.0
    ensures RecordsOf(Run(a, first).records, p) == RecordsOf(Run(b, second).records, p)
    ensures DepositsFor(Run(a, first).deposits, p) == DepositsFor(Run(b, second).deposits, p)
  {
    hide Run, HoursFor, DepositsFor, TotalOf, SetOf, Multiples, RecordsOf;
    MilestonesFollowTotalIff(a, p, first);
    MilestonesFollowTotalIff(b, p, second);
  }

  /** Without a provider row no report is rewarded. */
  lemma {:induction false} UnknownProviderEarnsNothing(db: Db, p: Id, reports: seq<Report>)
    requires p == "" || p !in db.totals
    ensures var end := Run(db, reports);
            RecordsOf(end.records, p) == RecordsOf(db.records, p)
            && DepositsFor(end.deposits, p) == DepositsFor(db.deposits, p)
    decreases |reports|
  {
    if reports == [] {
    } else {
      var r := reports[0];
      if Earns(db, r) {
        var c := Credited(db, r);
        AwardLeavesOthers(c, r.provider, p, Claimed(c, r.provider) + 1, Earned(c, r.provider));
      }
      UnknownProviderEarnsNothing(Completed(db, r), p, reports[1..]);
    }
  }
}
