/** The reverse auction: which provider each queued job gets in one cycle. */
module Matching {
  import opened Reals
  import B = Bytes
  import opened Wrappers
  import opened CoordinatorDb

  const QUEUE_LIMIT := 50
  const CANDIDATE_LIMIT := 20

  /** Largest finite `f64`, (2^53 - 1) * 2^971, used when a job names no price limit. */
  const F64_MAX: real := (9007199254740991 * B.Pow2(971)) as real

  lemma Pow2Of53()
    ensures B.Pow2(53) == 9007199254740992
  {
    assert B.Pow2(10) == 1024;
    B.Pow2Sum(10, 10);
    B.Pow2Sum(20, 20);
    B.Pow2Sum(40, 10);
    B.Pow2Sum(50, 3);
  }

  /** One unit in the last place below 2^1024. */
  lemma F64MaxIsLargest()
    ensures F64_MAX == (B.Pow2(1024) - B.Pow2(971)) as real
  {
    hide B.Pow2;
    var unit := B.Pow2(971);
    Pow2Of53();
    B.Pow2Sum(53, 971);
    assert B.Pow2(1024) == 9007199254740992 * unit;
  }

  // ----- ORDER BY ... LIMIT -----

  /** The rows `ORDER BY key LIMIT limit` may return; ties come in any order. */
  ghost predicate OrderedRows(keys: map<Id, real>, limit: nat, rows: seq<Id>) {
    && |rows| <= limit
    && (forall i :: 0 <= i < |rows| ==> rows[i] in keys)
    && (forall i, j :: 0 <= i < j < |rows| ==> rows[i] != rows[j] && keys[rows[i]] <= keys[rows[j]])
    && forall k :: k in keys && k !in rows ==> |rows| == limit && forall i :: 0 <= i < |rows| ==> keys[rows[i]] <= keys[k]
  }

  method Smallest(keys: map<Id, real>, from: set<Id>) returns (least: Id)
    requires from != {} && from <= keys.Keys
    ensures least in from && forall k :: k in from ==> keys[least] <= keys[k]
  {
    least :| least in from;
    var rest := from - {least};
    while rest != {}
      invariant rest <= from && least in from
      invariant forall k :: k in from - rest ==> keys[least] <= keys[k]
      decreases |rest|
    {
      var k :| k in rest;
      if keys[k] < keys[least] {
        least := k;
      }
      rest := rest - {k};
    }
  }

  method SelectOrdered(keys: map<Id, real>, limit: nat) returns (rows: seq<Id>)
    ensures OrderedRows(keys, limit, rows)
  {
    rows := [];
    var rest := keys.Keys;
    while rest != {} && |rows| < limit
      invariant rest <= keys.Keys && |rows| <= limit
      invariant forall i :: 0 <= i < |rows| ==> rows[i] in keys && rows[i] !in rest
      invariant forall k :: k in keys && k !in rest ==> k in rows
      invariant forall i, j :: 0 <= i < j < |rows| ==> rows[i] != rows[j] && keys[rows[i]] <= keys[rows[j]]
      invariant forall i, k :: 0 <= i < |rows| && k in rest ==> keys[rows[i]] <= keys[k]
      decreases |rest|
    {
      var k := Smallest(keys, rest);
      rest := rest - {k};
      rows := rows + [k];
    }
  }

  // ----- one job -----

  function RamOf(j: Job): int {
    if j.minRamGb.Some? then j.minRamGb.value else 0
  }

  function MaxPriceOf(j: Job): real {
    if j.maxPrice.Some? then j.maxPrice.value else F64_MAX
  }

  /** A NULL column meets no condition. */
  predicate Eligible(p: Provider, ram: int, maxPrice: real) {
    && p.state == Available
    && p.maxRamGb.Some? && p.maxRamGb.value >= ram
    && p.floorPrice.Some? && p.floorPrice.value <= maxPrice
  }

  function PriceKeys(providers: map<Id, Provider>, ram: int, maxPrice: real): map<Id, real> {
    map p | p in providers && Eligible(providers[p], ram, maxPrice) :: providers[p].floorPrice.value
  }

  function SimpleScore(price: real, trust: real, maxPrice: real): real {
    var priceNorm := if maxPrice > 0.0 then 1.0 - Min(price / maxPrice, 1.0) else 0.5;
    0.6 * priceNorm + 0.4 * (trust / 5.0)
  }

  function Min(a: real, b: real): real {
    if a < b then a else b
  }

  function TrustOf(p: Provider): real {
    if p.trust.Some? then p.trust.value else 3.0
  }

  function Score(p: Provider, maxPrice: real): real {
    SimpleScore(if p.floorPrice.Some? then p.floorPrice.value else 0.1, TrustOf(p), maxPrice)
  }

  /** `max_by`: the last row of greatest score. */
  function MaxBy(providers: map<Id, Provider>, rows: seq<Id>, maxPrice: real): (best: Id)
    requires rows != [] && forall i :: 0 <= i < |rows| ==> rows[i] in providers
    ensures best in rows
  {
    var last := rows[|rows| - 1];
    if |rows| == 1 then last
    else
      var best := MaxBy(providers, rows[..|rows| - 1], maxPrice);
      if Score(providers[best], maxPrice) > Score(providers[last], maxPrice) then best else last
  }

  lemma {:induction false} MaxByIsMax(providers: map<Id, Provider>, rows: seq<Id>, maxPrice: real)
    requires rows != [] && forall i :: 0 <= i < |rows| ==> rows[i] in providers
    ensures forall i :: 0 <= i < |rows| ==>
              Score(providers[rows[i]], maxPrice) <= Score(providers[MaxBy(providers, rows, maxPrice)], maxPrice)
  {
    hide Score;
    if |rows| == 1 {
    } else {
      MaxByIsMax(providers, rows[..|rows| - 1], maxPrice);
    }
  }

  /** Row k is the last one of greatest score: every later row scores less. */
  ghost predicate LastBest(providers: map<Id, Provider>, rows: seq<Id>, maxPrice: real, k: nat)
    requires k < |rows| && forall i :: 0 <= i < |rows| ==> rows[i] in providers
  {
    && rows[k] == MaxBy(providers, rows, maxPrice)
    && forall i :: k < i < |rows| ==> Score(providers[rows[i]], maxPrice) < Score(providers[rows[k]], maxPrice)
  }

  lemma {:induction false} MaxByIsLast(providers: map<Id, Provider>, rows: seq<Id>, maxPrice: real)
    requires rows != [] && forall i :: 0 <= i < |rows| ==> rows[i] in providers
    ensures exists k :: 0 <= k < |rows| && LastBest(providers, rows, maxPrice, k)
  {
    hide Score;
    var n := |rows| - 1;
    if n == 0 {
      assert LastBest(providers, rows, maxPrice, 0);
    } else {
      var front := rows[..n];
      MaxByIsLast(providers, front, maxPrice);
      var k :| 0 <= k < n && LastBest(providers, front, maxPrice, k);
      if MaxBy(providers, rows, maxPrice) == rows[k] && Score(providers[rows[n]], maxPrice) < Score(providers[rows[k]], maxPrice) {
        forall i | k < i < |rows| ensures Score(providers[rows[i]], maxPrice) < Score(providers[rows[k]], maxPrice) {
          assert i < n ==> rows[i] == front[i];
        }
        assert LastBest(providers, rows, maxPrice, k);
      } else {
        assert LastBest(providers, rows, maxPrice, n);
      }
    }
  }

  function FindBest(providers: map<Id, Provider>, rows: seq<Id>, maxPrice: real): Option<Id>
    requires forall i :: 0 <= i < |rows| ==> rows[i] in providers
  {
    if rows == [] then None else Some(MaxBy(providers, rows, maxPrice))
  }

  lemma ScoreDearer(p: Provider, dearer: Provider, maxPrice: real)
    requires p.floorPrice.Some? && dearer.floorPrice.Some? && p.floorPrice.value <= dearer.floorPrice.value
    requires Score(p, maxPrice) < Score(dearer, maxPrice)
    ensures TrustOf(p) < TrustOf(dearer)
  {
    if maxPrice > 0.0 {
      var x, y := p.floorPrice.value / maxPrice, dearer.floorPrice.value / maxPrice;
      DivMonotone(p.floorPrice.value, dearer.floorPrice.value, maxPrice);
      assert Min(x, 1.0) <= Min(y, 1.0);
    }
  }

  /** q is no better a bargain than b. Fifteen times the difference in price weighs against twice the
      maximum price times the difference in trust; an unrated provider counts as trusted 3. */
  predicate NoBetter(q: Provider, b: Provider, maxPrice: real)
    requires q.floorPrice.Some? && b.floorPrice.Some?
  {
    var qTrust, bTrust := if q.trust.Some? then q.trust.value else 3.0, if b.trust.Some? then b.trust.value else 3.0;
    if maxPrice > 0.0 then 2.0 * maxPrice * (qTrust - bTrust) <= 15.0 * (q.floorPrice.value - b.floorPrice.value)
    else qTrust <= bTrust
  }

  lemma NormIsShare(price: real, maxPrice: real)
    requires price <= maxPrice && maxPrice > 0.0
    ensures Min(price / maxPrice, 1.0) == price / maxPrice
    ensures maxPrice * (price / maxPrice) == price
  {
    DivMonotone(price, maxPrice, maxPrice);
    Divides(price, maxPrice);
    assert maxPrice / maxPrice == 1.0;
  }

  /** Scores order providers within the price limit exactly as bargains do. */
  lemma ScoreMeansBargain(q: Provider, b: Provider, maxPrice: real)
    requires q.floorPrice.Some? && b.floorPrice.Some?
    requires q.floorPrice.value <= maxPrice && b.floorPrice.value <= maxPrice
    ensures Score(q, maxPrice) <= Score(b, maxPrice) <==> NoBetter(q, b, maxPrice)
  {
    if maxPrice > 0.0 {
      var x, y := q.floorPrice.value / maxPrice, b.floorPrice.value / maxPrice;
      var t := TrustOf(q) - TrustOf(b);
      NormIsShare(q.floorPrice.value, maxPrice);
      NormIsShare(b.floorPrice.value, maxPrice);
      assert maxPrice * (15.0 * (x - y) - 2.0 * t) == 15.0 * (maxPrice * x - maxPrice * y) - 2.0 * maxPrice * t;
      SameSign(maxPrice, 15.0 * (x - y) - 2.0 * t);
    }
  }

  /** Every candidate is no better a bargain than the chosen one, and an eligible provider can be better only
      if it was cut off by the limit of twenty and is trusted strictly more than all twenty. */
  lemma ChoiceIsBest(providers: map<Id, Provider>, ram: int, maxPrice: real, rows: seq<Id>)
    requires OrderedRows(PriceKeys(providers, ram, maxPrice), CANDIDATE_LIMIT, rows)
    ensures rows == [] <==> forall p :: p in providers ==> !Eligible(providers[p], ram, maxPrice)
    ensures rows != [] ==>
              var best := MaxBy(providers, rows, maxPrice);
              && best in providers && Eligible(providers[best], ram, maxPrice)
              && forall q :: q in providers && Eligible(providers[q], ram, maxPrice)
                             && !NoBetter(providers[q], providers[best], maxPrice) ==>
                   q !in rows && |rows| == 20
                   && forall i :: 0 <= i < |rows| ==> TrustOf(providers[rows[i]]) < TrustOf(providers[q])
  {
    var keys := PriceKeys(providers, ram, maxPrice);
    if rows == [] {
      forall p | p in providers ensures !Eligible(providers[p], ram, maxPrice) {
        assert p !in keys;
      }
    } else {
      hide Score, NoBetter;
      assert rows[0] in keys;
      MaxByIsMax(providers, rows, maxPrice);
      var best := MaxBy(providers, rows, maxPrice);
      forall q | q in providers && Eligible(providers[q], ram, maxPrice)
                 && !NoBetter(providers[q], providers[best], maxPrice)
        ensures q !in rows && |rows| == 20
        ensures forall i :: 0 <= i < |rows| ==> TrustOf(providers[rows[i]]) < TrustOf(providers[q])
      {
        assert q in keys && best in keys;
        ScoreMeansBargain(providers[q], providers[best], maxPrice);
        forall i | 0 <= i < |rows| ensures TrustOf(providers[rows[i]]) < TrustOf(providers[q]) {
          ScoreDearer(providers[rows[i]], providers[q], maxPrice);
        }
      }
    }
  }

  /** Among eligible providers of the same trust the cheapest wins, cut off or not. */
  lemma CheapestOfEqualTrust(providers: map<Id, Provider>, ram: int, maxPrice: real, rows: seq<Id>, q: Id)
    requires OrderedRows(PriceKeys(providers, ram, maxPrice), CANDIDATE_LIMIT, rows) && rows != [] && maxPrice > 0.0
    requires q in providers && Eligible(providers[q], ram, maxPrice)
    requires q in providers && MaxBy(providers, rows, maxPrice) in providers
    requires TrustOf(providers[q]) == TrustOf(providers[MaxBy(providers, rows, maxPrice)])
    ensures providers[MaxBy(providers, rows, maxPrice)].floorPrice.Some?
    ensures providers[MaxBy(providers, rows, maxPrice)].floorPrice.value <= providers[q].floorPrice.value
  {
    ChoiceIsBest(providers, ram, maxPrice, rows);
    var best := MaxBy(providers, rows, maxPrice);
    var i :| 0 <= i < |rows| && rows[i] == best;
    assert NoBetter(providers[q], providers[best], maxPrice);
    assert 2.0 * maxPrice * (TrustOf(providers[q]) - TrustOf(providers[best])) == 0.0;
  }

  /** What a job asks of a provider: available, memory enough, and a floor price within its maximum. */
  predicate Meets(p: Provider, j: Job) {
    && p.state == Available
    && p.maxRamGb.Some? && (if j.minRamGb.Some? then j.minRamGb.value else 0) <= p.maxRamGb.value
    && p.floorPrice.Some? && p.floorPrice.value <= (if j.maxPrice.Some? then j.maxPrice.value else F64_MAX)
  }

  // ----- one cycle -----

  function QueueKeys(jobs: map<Id, Job>): map<Id, real> {
    map j | j in jobs && jobs[j].state == Queued :: jobs[j].createdAt as real
  }

  /** A cycle: the queue read at its start, and for each job the candidate rows and the tables around its turn. */
  datatype Cycle = Cycle(queue: seq<Id>, rows: seq<seq<Id>>, states: seq<Db>)

  function AssignPrice(j: Job): real {
    if j.maxPrice.Some? then j.maxPrice.value else 0.1
  }

  /** A job's turn, with its row as read at the start of the cycle. */
  ghost predicate Turn(db: Db, job: Id, j: Job, rows: seq<Id>, db': Db) {
    && OrderedRows(PriceKeys(db.providers, RamOf(j), MaxPriceOf(j)), CANDIDATE_LIMIT, rows)
    && (forall i :: 0 <= i < |rows| ==> rows[i] in db.providers)
    && db' == match FindBest(db.providers, rows, MaxPriceOf(j))
              case None => db
              case Some(p) => Assign(db, job, p, AssignPrice(j), j.checkpointUrl)
  }

  ghost predicate IsCycle(c: Cycle) {
    && |c.rows| == |c.queue| && |c.states| == |c.queue| + 1
    && OrderedRows(QueueKeys(c.states[0].jobs), QUEUE_LIMIT, c.queue)
    && (forall i :: 0 <= i < |c.queue| ==> c.queue[i] in c.states[0].jobs)
    && forall i :: 0 <= i < |c.queue| ==>
         Turn(c.states[i], c.queue[i], c.states[0].jobs[c.queue[i]], c.rows[i], c.states[i + 1])
  }

  ghost function Want(c: Cycle, i: nat): Job
    requires IsCycle(c) && i < |c.queue|
  {
    c.states[0].jobs[c.queue[i]]
  }

  /** The provider the i-th job of the queue gets. */
  ghost function Pick(c: Cycle, i: nat): Option<Id>
    requires IsCycle(c) && i < |c.queue|
  {
    assert Turn(c.states[i], c.queue[i], c.states[0].jobs[c.queue[i]], c.rows[i], c.states[i + 1]);
    FindBest(c.states[i].providers, c.rows[i], MaxPriceOf(Want(c, i)))
  }

  ghost predicate TakenBefore(c: Cycle, i: nat, p: Id)
    requires IsCycle(c) && i <= |c.queue|
  {
    exists k :: 0 <= k < i && Pick(c, k) == Some(p)
  }

  /** The provider suits the job and was available when the cycle began. */
  ghost predicate Suits(c: Cycle, i: nat, p: Id)
    requires IsCycle(c) && i < |c.queue|
  {
    p in c.states[0].providers && Meets(c.states[0].providers[p], Want(c, i))
  }

  ghost function Picks(c: Cycle): (picks: seq<Option<Id>>)
    requires IsCycle(c)
    ensures |picks| == |c.queue|
  {
    seq(|c.queue|, i requires 0 <= i < |c.queue| => Pick(c, i))
  }

  /** After k turns: providers taken so far are leased to their job, all others are untouched. */
  ghost predicate ProvidersAfter(start: map<Id, Provider>, queue: seq<Id>, picks: seq<Option<Id>>, k: nat, now: map<Id, Provider>)
    requires k <= |queue| == |picks|
  {
    && now.Keys == start.Keys
    && (forall i :: 0 <= i < k && picks[i].Some? ==>
          picks[i].value in start
          && now[picks[i].value] == start[picks[i].value].(state := Leased, activeJob := Some(queue[i])))
    && forall p :: p in start && Some(p) !in picks[..k] ==> now[p] == start[p]
  }

  lemma ProvidersNext(start: map<Id, Provider>, queue: seq<Id>, picks: seq<Option<Id>>, k: nat, now: map<Id, Provider>)
    requires k < |queue| == |picks| && ProvidersAfter(start, queue, picks, k, now)
    requires picks[k].Some? ==> picks[k].value in now && picks[k] !in picks[..k]
    ensures ProvidersAfter(start, queue, picks, k + 1,
              if picks[k].None? then now
              else now[picks[k].value := now[picks[k].value].(state := Leased, activeJob := Some(queue[k]))])
  {
    assert picks[..k + 1] == picks[..k] + [picks[k]];
    forall i | 0 <= i < k ensures picks[i] in picks[..k] {
      assert picks[..k][i] == picks[i];
    }
  }

  function AssignedRow(j: Job, p: Id): Job {
    j.(state := Assigned, provider := Some(p), price := Some(if j.maxPrice.Some? then j.maxPrice.value else 0.1),
       restoreAttempts := j.restoreAttempts + if j.checkpointUrl.Some? then 1 else 0)
  }

  /** After k turns: jobs that got a provider are assigned to it, all others are as they were. */
  ghost predicate JobsAfter(start: map<Id, Job>, queue: seq<Id>, picks: seq<Option<Id>>, k: nat, now: map<Id, Job>)
    requires k <= |queue| == |picks| && forall i :: 0 <= i < |queue| ==> queue[i] in start
  {
    && now.Keys == start.Keys
    && (forall i :: 0 <= i < k ==>
          now[queue[i]] == if picks[i].Some? then AssignedRow(start[queue[i]], picks[i].value) else start[queue[i]])
    && forall j :: j in start && j !in queue[..k] ==> now[j] == start[j]
  }

  lemma JobsNext(start: map<Id, Job>, queue: seq<Id>, picks: seq<Option<Id>>, k: nat, now: map<Id, Job>)
    requires k < |queue| == |picks| && forall i :: 0 <= i < |queue| ==> queue[i] in start
    requires forall i, j :: 0 <= i < j < |queue| ==> queue[i] != queue[j]
    requires JobsAfter(start, queue, picks, k, now)
    ensures now[queue[k]] == start[queue[k]]
    ensures JobsAfter(start, queue, picks, k + 1,
              if picks[k].None? then now else now[queue[k] := AssignedRow(start[queue[k]], picks[k].value)])
  {
    hide AssignedRow;
    assert queue[..k + 1] == queue[..k] + [queue[k]];
    assert queue[k] !in queue[..k];
  }

  /** The pick at turn k is new: it was available, and what was taken is leased. */
  lemma PickIsFresh(c: Cycle, k: nat)
    requires IsCycle(c) && k < |c.queue|
    requires ProvidersAfter(c.states[0].providers, c.queue, Picks(c), k, c.states[k].providers)
    ensures Pick(c, k).Some? ==> Suits(c, k, Pick(c, k).value) && !TakenBefore(c, k, Pick(c, k).value)
    ensures Pick(c, k).None? ==> forall p :: Suits(c, k, p) ==> TakenBefore(c, k, p)
  {
    var j := Want(c, k);
    assert Turn(c.states[k], c.queue[k], c.states[0].jobs[c.queue[k]], c.rows[k], c.states[k + 1]);
    ChoiceIsBest(c.states[k].providers, RamOf(j), MaxPriceOf(j), c.rows[k]);
    hide OrderedRows, Turn, FindBest;
    TakenIff(c, k);
    if Pick(c, k).Some? {
      var p := Pick(c, k).value;
      assert c.states[k].providers[p].state == Available;
    }
  }

  lemma TakenIff(c: Cycle, k: nat)
    requires IsCycle(c) && k <= |c.queue|
    ensures forall p :: TakenBefore(c, k, p) <==> Some(p) in Picks(c)[..k]
    ensures forall i :: 0 <= i < k ==> Picks(c)[i] == Pick(c, i)
  {
    hide OrderedRows, Turn, Pick;
    forall p ensures TakenBefore(c, k, p) <==> Some(p) in Picks(c)[..k] {
      if TakenBefore(c, k, p) {
        var i :| 0 <= i < k && Pick(c, i) == Some(p);
        assert Picks(c)[..k][i] == Some(p);
      }
    }
  }

  lemma TurnTables(c: Cycle, k: nat)
    requires IsCycle(c) && k < |c.queue|
    ensures Pick(c, k).None? ==> c.states[k + 1] == c.states[k]
    ensures Pick(c, k).Some? ==>
              c.states[k + 1] == Assign(c.states[k], c.queue[k], Pick(c, k).value, AssignPrice(Want(c, k)), Want(c, k).checkpointUrl)
  {
    assert Turn(c.states[k], c.queue[k], c.states[0].jobs[c.queue[k]], c.rows[k], c.states[k + 1]);
  }

  ghost predicate TablesAfter(c: Cycle, k: nat)
    requires IsCycle(c) && k <= |c.queue|
  {
    && ProvidersAfter(c.states[0].providers, c.queue, Picks(c), k, c.states[k].providers)
    && JobsAfter(c.states[0].jobs, c.queue, Picks(c), k, c.states[k].jobs)
  }

  lemma ProvidersTurn(c: Cycle, k: nat)
    requires IsCycle(c) && k < |c.queue|
    requires ProvidersAfter(c.states[0].providers, c.queue, Picks(c), k, c.states[k].providers)
    ensures ProvidersAfter(c.states[0].providers, c.queue, Picks(c), k + 1, c.states[k + 1].providers)
  {
    hide OrderedRows, Turn, Pick, Eligible;
    PickIsFresh(c, k);
    TakenIff(c, k);
    TurnTables(c, k);
    ProvidersNext(c.states[0].providers, c.queue, Picks(c), k, c.states[k].providers);
  }

  lemma AssignWrites(db: Db, job: Id, j: Job, p: Id)
    requires job in db.jobs && db.jobs[job] == j
    ensures Assign(db, job, p, AssignPrice(j), j.checkpointUrl).jobs == db.jobs[job := AssignedRow(j, p)]
  {
  }

  lemma JobsTurn(c: Cycle, k: nat)
    requires IsCycle(c) && k < |c.queue|
    requires JobsAfter(c.states[0].jobs, c.queue, Picks(c), k, c.states[k].jobs)
    ensures JobsAfter(c.states[0].jobs, c.queue, Picks(c), k + 1, c.states[k + 1].jobs)
  {
    hide OrderedRows, Turn, Pick, Assign, AssignedRow, JobsAfter;
    QueueDistinct(c);
    TurnTables(c, k);
    JobsNext(c.states[0].jobs, c.queue, Picks(c), k, c.states[k].jobs);
    if Pick(c, k).Some? {
      JobsHere(c, k);
      AssignWrites(c.states[k], c.queue[k], Want(c, k), Pick(c, k).value);
    }
  }

  lemma JobsHere(c: Cycle, k: nat)
    requires IsCycle(c) && k < |c.queue|
    requires JobsAfter(c.states[0].jobs, c.queue, Picks(c), k, c.states[k].jobs)
    ensures c.queue[k] in c.states[k].jobs
  {
  }

  lemma {:induction false} TablesDuring(c: Cycle, k: nat)
    requires IsCycle(c) && k <= |c.queue|
    ensures TablesAfter(c, k)
  {
    hide OrderedRows, Turn, Pick;
    if k == 0 {
    } else {
      TablesDuring(c, k - 1);
      ProvidersTurn(c, k - 1);
      JobsTurn(c, k - 1);
    }
  }

  lemma QueueDistinct(c: Cycle)
    requires IsCycle(c)
    ensures forall i, j :: 0 <= i < j < |c.queue| ==> c.queue[i] != c.queue[j]
  {
  }

  // ----- main results -----

  /** With no other writer, a cycle is a matching: no provider gets two jobs, every pair meets memory and
      price, and a job is left without a provider only when every provider that suits it went to a job
      ahead of it in the queue. */
  lemma CycleIsMaximalMatching(c: Cycle)
    requires IsCycle(c)
    ensures forall i, j :: 0 <= i < j < |c.queue| && Pick(c, i).Some? ==> Pick(c, i) != Pick(c, j)
    ensures forall i :: 0 <= i < |c.queue| && Pick(c, i).Some? ==> Suits(c, i, Pick(c, i).value)
    ensures forall i, p :: 0 <= i < |c.queue| && Pick(c, i).None? && Suits(c, i, p) ==> TakenBefore(c, i, p)
    ensures |c.queue| <= 50 && forall i :: 0 <= i < |c.queue| ==> Want(c, i).state == Queued
  {
    forall i | 0 <= i < |c.queue|
      ensures Pick(c, i).Some? ==> Suits(c, i, Pick(c, i).value) && !TakenBefore(c, i, Pick(c, i).value)
      ensures Pick(c, i).None? ==> forall p :: Suits(c, i, p) ==> TakenBefore(c, i, p)
    {
      TablesDuring(c, i);
      PickIsFresh(c, i);
    }
  }

  /** No provider left to later jobs is a better bargain than a job's own, except one cut off by the limit of
      twenty that is trusted more than all twenty. */
  lemma CycleIsEnvyFree(c: Cycle, i: nat, q: Id)
    requires IsCycle(c) && i < |c.queue| && Pick(c, i).Some? && Suits(c, i, q) && !TakenBefore(c, i, q)
    ensures Suits(c, i, Pick(c, i).value)
    ensures || NoBetter(c.states[0].providers[q], c.states[0].providers[Pick(c, i).value], MaxPriceOf(Want(c, i)))
            || (q !in c.rows[i] && |c.rows[i]| == 20
                && forall k :: 0 <= k < |c.rows[i]| ==>
                     c.rows[i][k] in c.states[0].providers
                     && TrustOf(c.states[0].providers[c.rows[i][k]]) < TrustOf(c.states[0].providers[q]))
  {
    hide Turn, OrderedRows, QueueKeys, Pick, TakenBefore, NoBetter, TrustOf, Meets;
    var j, now, p := Want(c, i), c.states[i].providers, Pick(c, i).value;
    TablesDuring(c, i);
    PickIsFresh(c, i);
    UntakenStays(c, i, q);
    UntakenStays(c, i, p);
    ChoiceAtTurn(c, i, q);
    RowsUntouched(c, i);
  }

  lemma UntakenStays(c: Cycle, i: nat, q: Id)
    requires IsCycle(c) && i < |c.queue| && q in c.states[0].providers && !TakenBefore(c, i, q)
    ensures q in c.states[i].providers && c.states[i].providers[q] == c.states[0].providers[q]
  {
    TablesDuring(c, i);
    TakenIff(c, i);
  }

  lemma ChoiceAtTurn(c: Cycle, i: nat, q: Id)
    requires IsCycle(c) && i < |c.queue| && Pick(c, i).Some?
    requires q in c.states[i].providers && Meets(c.states[i].providers[q], Want(c, i))
    ensures var now, p := c.states[i].providers, Pick(c, i).value;
            && p in now && now[p].floorPrice.Some?
            && (|| NoBetter(now[q], now[p], MaxPriceOf(Want(c, i)))
                || (q !in c.rows[i] && |c.rows[i]| == 20
                    && forall k :: 0 <= k < |c.rows[i]| ==>
                         c.rows[i][k] in now && TrustOf(now[c.rows[i][k]]) < TrustOf(now[q])))
  {
    var j, now := Want(c, i), c.states[i].providers;
    assert Turn(c.states[i], c.queue[i], c.states[0].jobs[c.queue[i]], c.rows[i], c.states[i + 1]);
    hide NoBetter, TrustOf, OrderedRows, PriceKeys;
    ChoiceIsBest(now, RamOf(j), MaxPriceOf(j), c.rows[i]);
  }

  /** Candidates are as they were when the cycle began. */
  lemma RowsUntouched(c: Cycle, i: nat)
    requires IsCycle(c) && i < |c.queue|
    ensures forall k :: 0 <= k < |c.rows[i]| ==>
              c.rows[i][k] in c.states[0].providers && c.rows[i][k] in c.states[i].providers
              && c.states[i].providers[c.rows[i][k]] == c.states[0].providers[c.rows[i][k]]
  {
    var j := Want(c, i);
    TablesDuring(c, i);
    TakenIff(c, i);
    assert Turn(c.states[i], c.queue[i], c.states[0].jobs[c.queue[i]], c.rows[i], c.states[i + 1]);
    var keys := PriceKeys(c.states[i].providers, RamOf(j), MaxPriceOf(j));
    forall k | 0 <= k < |c.rows[i]|
      ensures c.rows[i][k] in c.states[i].providers && c.states[i].providers[c.rows[i][k]].state == Available
    {
      assert c.rows[i][k] in keys;
    }
  }

  /** FIFO: a queued job outside the cycle is not older than any job in it, and the cycle was full. */
  lemma CycleIsFifo(c: Cycle, job: Id)
    requires IsCycle(c) && job in c.states[0].jobs && c.states[0].jobs[job].state == Queued && job !in c.queue
    ensures |c.queue| == 50
    ensures forall i :: 0 <= i < |c.queue| ==> Want(c, i).createdAt <= c.states[0].jobs[job].createdAt
  {
    var keys := QueueKeys(c.states[0].jobs);
    assert job in keys;
    forall i | 0 <= i < |c.queue| ensures Want(c, i).createdAt <= c.states[0].jobs[job].createdAt {
      assert keys[c.queue[i]] <= keys[job];
    }
  }

  /** The tables after the cycle: exactly the pairs of the matching are recorded. */
  lemma CycleRecords(c: Cycle)
    requires IsCycle(c)
    ensures var end := c.states[|c.queue|];
            && ProvidersAfter(c.states[0].providers, c.queue, Picks(c), |c.queue|, end.providers)
            && JobsAfter(c.states[0].jobs, c.queue, Picks(c), |c.queue|, end.jobs)
  {
    TablesDuring(c, |c.queue|);
  }
}
