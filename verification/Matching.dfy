/** Matching a quote's jobs with mechanics: the nested loop and the relation it computes. */
module Matching {
  import opened Wrappers

  type Id = nat

  datatype Mechanic = Mechanic(id: Id, verified: bool, place: Option<(real, real)>, radiusKm: real)

  /** Prices are in minor units; a service without a price of its own has 0. */
  datatype JobType = JobType(id: Id, basePrice: int, baseMinutes: int, active: bool)

  datatype Service = Service(mechanic: Id, job: Id, price: int, active: bool)

  datatype QuoteLine = QuoteLine(mechanic: Id, job: Id, price: int, hours: real, distanceKm: real)

  const DEFAULT_SERVICE_RADIUS_KM: real := 25.0

  // ---------------------------------------------------------------- what is looked up

  function Filter<T(!new)>(rows: seq<T>, keep: T -> bool): (kept: seq<T>)
    ensures forall row :: row in kept <==> row in rows && keep(row)
  {
    if rows == [] then []
    else
      var n := |rows| - 1;
      Filter(rows[..n], keep) + if keep(rows[n]) then [rows[n]] else []
  }

  predicate VerifiedWithCoords(m: Mechanic)
  {
    m.verified && m.place.Some?
  }

  function ActiveServices(services: seq<Service>, mechanic: Id): seq<Service>
  {
    Filter(services, (s: Service) => s.mechanic == mechanic && s.active)
  }

  /** The last of the services for a job, as a map filled in order keeps it. */
  function ServiceFor(services: seq<Service>, job: Id): Option<Service>
  {
    if services == [] then None
    else
      var n := |services| - 1;
      if services[n].job == job then Some(services[n]) else ServiceFor(services[..n], job)
  }

  function JobFor(jobs: seq<JobType>, id: Id): Option<JobType>
  {
    if jobs == [] then None
    else
      var n := |jobs| - 1;
      if jobs[n].id == id then Some(jobs[n]) else JobFor(jobs[..n], id)
  }

  // ---------------------------------------------------------------- the relation

  /** Everything a match depends on; the distance is measured from the customer's place. */
  datatype Request = Request(mechanics: seq<Mechanic>, jobs: seq<JobType>, services: seq<Service>, unreadable: set<Id>,
                             needed: seq<Id>, distance: ((real, real)) -> real, radiusKm: real)

  predicate InReach(r: Request, m: Mechanic)
  {
    && m.verified && m.place.Some?
    && r.distance(m.place.value) <= (if m.radiusKm <= 0.0 then DEFAULT_SERVICE_RADIUS_KM else m.radiusKm)
    && r.distance(m.place.value) <= r.radiusKm
  }

  /** A mechanic offers a job listed as an active service, or any job when none is listed. */
  ghost predicate Offers(r: Request, mechanic: Id, job: Id)
  {
    || (exists s :: s in r.services && s.mechanic == mechanic && s.active && s.job == job)
    || (forall s :: s in r.services && s.mechanic == mechanic ==> !s.active)
  }

  ghost predicate Matches(r: Request, m: Mechanic, job: Id)
  {
    && m in r.mechanics && InReach(r, m) && m.id !in r.unreadable
    && job in r.needed && (exists j :: j in r.jobs && j.id == job && j.active)
    && Offers(r, m.id, job)
  }

  /** The mechanic's own price if there is one above zero, else the job's. */
  function PriceFor(r: Request, mechanic: Id, jt: JobType): int
  {
    match ServiceFor(ActiveServices(r.services, mechanic), jt.id)
    case Some(s) => if s.price > 0 then s.price else jt.basePrice
    case None => jt.basePrice
  }

  function ActiveJobs(r: Request): seq<JobType>
  {
    Filter(r.jobs, (j: JobType) => j.active)
  }

  /** The line of a mechanic in reach for a job that is offered. */
  function LineFor(r: Request, m: Mechanic, jt: JobType): QuoteLine
    requires m.place.Some?
  {
    QuoteLine(m.id, jt.id, PriceFor(r, m.id, jt), jt.baseMinutes as real / 60.0, r.distance(m.place.value))
  }

  ghost predicate MatchLine(r: Request, m: Mechanic, line: QuoteLine)
  {
    && Matches(r, m, line.job)
    && JobFor(ActiveJobs(r), line.job).Some?
    && line == LineFor(r, m, JobFor(ActiveJobs(r), line.job).value)
  }

  /** The lines a quote should have. */
  ghost predicate Wanted(r: Request, line: QuoteLine)
  {
    exists m :: m in r.mechanics && MatchLine(r, m, line)
  }

  /** The primary key: a mechanic is determined by the id. */
  ghost predicate KeysUnique(mechanics: seq<Mechanic>)
  {
    forall i, j :: 0 <= i < j < |mechanics| ==> mechanics[i].id != mechanics[j].id
  }

  ghost predicate OnePerPair(lines: seq<QuoteLine>)
  {
    forall i, j :: 0 <= i < j < |lines| ==> lines[i].mechanic != lines[j].mechanic || lines[i].job != lines[j].job
  }

  lemma {:induction false} ServiceForFacts(services: seq<Service>, job: Id)
    ensures ServiceFor(services, job).Some? <==> exists s :: s in services && s.job == job
    ensures ServiceFor(services, job).Some? ==>
      ServiceFor(services, job).value in services && ServiceFor(services, job).value.job == job
  {
    if services != [] {
      var n := |services| - 1;
      assert services == services[..n] + [services[n]];
      ServiceForFacts(services[..n], job);
    }
  }

  lemma {:induction false} JobForFacts(jobs: seq<JobType>, id: Id)
    ensures JobFor(jobs, id).Some? <==> exists j :: j in jobs && j.id == id
    ensures JobFor(jobs, id).Some? ==> JobFor(jobs, id).value in jobs && JobFor(jobs, id).value.id == id
  {
    if jobs != [] {
      var n := |jobs| - 1;
      assert jobs == jobs[..n] + [jobs[n]];
      JobForFacts(jobs[..n], id);
    }
  }

  /** A mechanic lists a job as one active service at most, and one active job type has an id. */
  ghost predicate PairsUnique(r: Request)
  {
    && (forall s1, s2 :: s1 in r.services && s2 in r.services && SamePair(s1, s2) ==> s1 == s2)
    && (forall j1, j2 :: j1 in r.jobs && j2 in r.jobs && j1.active && j2.active && j1.id == j2.id ==> j1 == j2)
  }

  predicate SamePair(s1: Service, s2: Service)
  {
    s1.active && s2.active && s1.mechanic == s2.mechanic && s1.job == s2.job
  }

  predicate ListedAt(s: Service, mechanic: Id, job: Id)
  {
    s.active && s.mechanic == mechanic && s.job == job
  }

  /** The price of the mechanic's active service for the job if that is positive, else the job's base price. */
  ghost predicate PricedAt(r: Request, mechanic: Id, jt: JobType, price: int)
  {
    || (exists s :: s in r.services && ListedAt(s, mechanic, jt.id) && s.price > 0 && price == s.price)
    || ((forall s :: s in r.services && ListedAt(s, mechanic, jt.id) ==> s.price <= 0) && price == jt.basePrice)
  }

  /** The mechanic is verified, has a place, and the customer is within the mechanic's radius, 25 km if none is set,
      and within the one asked for. */
  predicate Near(r: Request, m: Mechanic)
  {
    && m in r.mechanics && m.verified && m.place.Some?
    && r.distance(m.place.value) <= r.radiusKm
    && (if m.radiusKm > 0.0 then r.distance(m.place.value) <= m.radiusKm else r.distance(m.place.value) <= 25.0)
  }

  /** The line a mechanic and an active job type call for, with no word about lookups. */
  ghost predicate Deserved(r: Request, m: Mechanic, jt: JobType, line: QuoteLine)
  {
    && Near(r, m) && m.id !in r.unreadable
    && jt in r.jobs && jt.active && jt.id in r.needed
    && ((exists s :: s in r.services && ListedAt(s, m.id, jt.id))
        || !exists s :: s in r.services && s.mechanic == m.id && s.active)
    && PricedAt(r, m.id, jt, line.price)
    && line == QuoteLine(m.id, jt.id, line.price, jt.baseMinutes as real / 60.0, r.distance(m.place.value))
  }

  lemma PricedIff(r: Request, mechanic: Id, jt: JobType, price: int)
    requires PairsUnique(r)
    ensures PricedAt(r, mechanic, jt, price) <==> price == PriceFor(r, mechanic, jt)
  {
    var active := ActiveServices(r.services, mechanic);
    ServiceForFacts(active, jt.id);
    match ServiceFor(active, jt.id) {
      case None =>
        forall s | s in r.services ensures !ListedAt(s, mechanic, jt.id) {
          assert s in active <==> s.mechanic == mechanic && s.active;
        }
      case Some(own) =>
        forall s | s in r.services && ListedAt(s, mechanic, jt.id) ensures s == own {
          assert SamePair(s, own);
        }
    }
  }

  /** Under those keys the wanted lines are the deserved ones: what the lookups keep is the mechanic's own service
      and the one active job type. */
  lemma WantedIff(r: Request, line: QuoteLine)
    requires PairsUnique(r)
    ensures Wanted(r, line) <==> exists m, jt :: Deserved(r, m, jt, line)
  {
    JobForFacts(ActiveJobs(r), line.job);
    if m :| m in r.mechanics && MatchLine(r, m, line) {
      var jt := JobFor(ActiveJobs(r), line.job).value;
      PricedIff(r, m.id, jt, line.price);
      assert Deserved(r, m, jt, line);
    }
    if m, jt :| Deserved(r, m, jt, line) {
      PricedIff(r, m.id, jt, line.price);
      assert jt in ActiveJobs(r) && JobFor(ActiveJobs(r), line.job).value == jt;
      assert MatchLine(r, m, line);
    }
  }

  /** A line list that has every wanted line, no other, and one a pair, is determined up to order. */
  lemma LinesDetermined(r: Request, a: seq<QuoteLine>, b: seq<QuoteLine>)
    requires OnePerPair(a) && OnePerPair(b)
    requires forall line :: line in a <==> Wanted(r, line)
    requires forall line :: line in b <==> Wanted(r, line)
    ensures multiset(a) == multiset(b)
  {
    forall line ensures multiset(a)[line] == multiset(b)[line] {
      OnceEach(a, line);
      OnceEach(b, line);
      assert line in a <==> line in b;
    }
  }

  lemma {:induction false} OnceEach(lines: seq<QuoteLine>, line: QuoteLine)
    requires OnePerPair(lines)
    ensures multiset(lines)[line] == if line in lines then 1 else 0
  {
    if lines != [] {
      var n := |lines| - 1;
      OnceEach(lines[..n], line);
      assert lines == lines[..n] + [lines[n]];
      assert forall i :: 0 <= i < n ==> lines[i] != lines[n];
    }
  }

  // ---------------------------------------------------------------- the loops

  /** The needed jobs without repetition, in the order they first appear. */
  function FirstOccurrences(ids: seq<Id>): seq<Id>
  {
    if ids == [] then []
    else
      var n := |ids| - 1;
      if ids[n] in ids[..n] then FirstOccurrences(ids[..n]) else FirstOccurrences(ids[..n]) + [ids[n]]
  }

  lemma {:induction false} FirstOccurrencesFacts(ids: seq<Id>)
    ensures forall id :: id in FirstOccurrences(ids) <==> id in ids
    ensures forall i, j :: 0 <= i < j < |FirstOccurrences(ids)| ==> FirstOccurrences(ids)[i] != FirstOccurrences(ids)[j]
  {
    if ids != [] {
      var n := |ids| - 1;
      assert ids == ids[..n] + [ids[n]];
      FirstOccurrencesFacts(ids[..n]);
    }
  }

  /** The order is that of first appearance: before an id appears at all, every id listed before it has. */
  lemma {:induction false} FirstOccurrencesOrder(ids: seq<Id>, i: nat, j: nat, q: nat)
    requires i < j < |FirstOccurrences(ids)| && q < |ids| && ids[q] == FirstOccurrences(ids)[j]
    ensures exists p :: 0 <= p < q && ids[p] == FirstOccurrences(ids)[i]
  {
    var n := |ids| - 1;
    var before := FirstOccurrences(ids[..n]);
    FirstOccurrencesFacts(ids[..n]);
    if j < |before| && q < n {
      FirstOccurrencesOrder(ids[..n], i, j, q);
      var p :| 0 <= p < q && ids[..n][p] == before[i];
      assert ids[p] == before[i];
    } else {
      assert before[i] in before;
      var p :| 0 <= p < n && ids[..n][p] == before[i];
      assert ids[p] == before[i];
      assert forall k :: 0 <= k < n ==> ids[..n][k] == ids[k];
    }
  }

  method UniqueJobTypeIds(items: seq<Id>) returns (ids: seq<Id>)
    ensures ids == FirstOccurrences(items)
    ensures forall id :: id in ids <==> id in items
    ensures forall i, j :: 0 <= i < j < |ids| ==> ids[i] != ids[j]
  {
    var seen: set<Id> := {};
    ids := [];
    for k := 0 to |items|
      invariant ids == FirstOccurrences(items[..k])
      invariant forall id :: id in seen <==> id in items[..k]
    {
      assert items[..k + 1] == items[..k] + [items[k]] && items[..k + 1][..k] == items[..k];
      if items[k] !in seen {
        seen := seen + {items[k]};
        ids := ids + [items[k]];
      }
    }
    assert items[..|items|] == items;
    FirstOccurrencesFacts(items);
  }

  lemma {:induction false} FilterKeepsKeys(rows: seq<Mechanic>, keep: Mechanic -> bool)
    requires KeysUnique(rows)
    ensures KeysUnique(Filter(rows, keep))
  {
    if rows != [] {
      var n := |rows| - 1;
      FilterKeepsKeys(rows[..n], keep);
      forall m | m in Filter(rows[..n], keep) ensures m.id != rows[n].id {
        var i :| 0 <= i < n && rows[..n][i] == m;
        assert rows[i].id != rows[n].id;
      }
    }
  }

  lemma OffersIff(r: Request, mechanic: Id, job: Id)
    ensures var active := ActiveServices(r.services, mechanic);
      Offers(r, mechanic, job) <==> active == [] || ServiceFor(active, job).Some?
  {
    var active := ActiveServices(r.services, mechanic);
    ServiceForFacts(active, job);
    if active != [] {
      assert active[0] in active;
    }
  }

  /** A mechanic in reach gets a line for a needed job exactly if the loop's checks pass. */
  lemma MatchLineIff(r: Request, m: Mechanic, line: QuoteLine)
    requires m in r.mechanics && InReach(r, m) && m.id !in r.unreadable
    ensures var active := ActiveServices(r.services, m.id);
      MatchLine(r, m, line) <==>
      && line.job in r.needed
      && (active == [] || ServiceFor(active, line.job).Some?)
      && JobFor(ActiveJobs(r), line.job).Some?
      && line == LineFor(r, m, JobFor(ActiveJobs(r), line.job).value)
  {
    OffersIff(r, m.id, line.job);
    JobForFacts(ActiveJobs(r), line.job);
  }

  /** The inner loop: the lines of one mechanic, the needed jobs taken in whatever order the map gives them. */
  method LinesOf(r: Request, m: Mechanic, seen: set<(Id, Id)>) returns (lines: seq<QuoteLine>, seen': set<(Id, Id)>)
    requires m in r.mechanics && InReach(r, m)
    requires forall pair :: pair in seen ==> pair.0 != m.id
    ensures forall pair :: pair in seen' ==> pair in seen || pair.0 == m.id
    ensures OnePerPair(lines)
    ensures forall line :: line in lines <==> MatchLine(r, m, line)
  {
    lines, seen' := [], seen;
    if m.id in r.unreadable {
      return;
    }
    var active := ActiveServices(r.services, m.id);
    var all := set id | id in r.needed;
    var left := all;
    while left != {}
      invariant left <= all
      invariant forall pair :: pair in seen' ==> pair in seen || (pair.0 == m.id && pair.1 !in left)
      invariant OnePerPair(lines)
      invariant forall line :: line in lines <==> line.job !in left && MatchLine(r, m, line)
      decreases |left|
    {
      var job :| job in left;
      forall line: QuoteLine | line.job == job
        ensures MatchLine(r, m, line) <==>
          && (active == [] || ServiceFor(active, job).Some?)
          && JobFor(ActiveJobs(r), job).Some? && line == LineFor(r, m, JobFor(ActiveJobs(r), job).value)
      {
        MatchLineIff(r, m, line);
      }
      left := left - {job};
      if |active| > 0 && ServiceFor(active, job).None? {
        continue;
      }
      if (m.id, job) in seen' {
        continue;
      }
      seen' := seen' + {(m.id, job)};
      var jt := JobFor(ActiveJobs(r), job);
      if jt.None? {
        continue;
      }
      JobForFacts(ActiveJobs(r), job);
      var price := jt.value.basePrice;
      var own := ServiceFor(active, job);
      if own.Some? && own.value.price > 0 {
        price := own.value.price;
      }
      var line := QuoteLine(m.id, job, price, jt.value.baseMinutes as real / 60.0, r.distance(m.place.value));
      assert line == LineFor(r, m, jt.value);
      lines := lines + [line];
    }
  }

  /** The outer loop: every wanted line, no other, one for each mechanic and job. */
  method BuildQuoteLines(r: Request) returns (lines: seq<QuoteLine>)
    requires KeysUnique(r.mechanics)
    ensures OnePerPair(lines)
    ensures forall line :: line in lines <==> Wanted(r, line)
  {
    var mechanics := Filter(r.mechanics, VerifiedWithCoords);
    FilterKeepsKeys(r.mechanics, VerifiedWithCoords);
    lines := [];
    var seen: set<(Id, Id)> := {};
    for n := 0 to |mechanics|
      invariant forall pair :: pair in seen ==> exists k :: 0 <= k < n && mechanics[k].id == pair.0
      invariant OnePerPair(lines)
      invariant forall line :: line in lines <==> exists k :: 0 <= k < n && MatchLine(r, mechanics[k], line)
    {
      var m := mechanics[n];
      assert m in mechanics;
      var dist := r.distance(m.place.value);
      var effectiveRadius := if m.radiusKm <= 0.0 then DEFAULT_SERVICE_RADIUS_KM else m.radiusKm;
      if dist > effectiveRadius || dist > r.radiusKm {
        assert !InReach(r, m);
        continue;
      }
      var more: seq<QuoteLine>;
      more, seen := LinesOf(r, m, seen);
      forall line | line in lines ensures line.mechanic != m.id {
        var k :| 0 <= k < n && MatchLine(r, mechanics[k], line);
        assert mechanics[k].id != mechanics[n].id;
      }
      OnePerPairJoin(lines, more, m.id);
      lines := lines + more;
    }
    forall line ensures Wanted(r, line) <==> exists k :: 0 <= k < |mechanics| && MatchLine(r, mechanics[k], line) {
      if m :| m in r.mechanics && MatchLine(r, m, line) {
        assert m in mechanics;
      }
    }
  }

  lemma OnePerPairJoin(lines: seq<QuoteLine>, more: seq<QuoteLine>, mechanic: Id)
    requires OnePerPair(lines) && OnePerPair(more)
    requires forall line :: line in lines ==> line.mechanic != mechanic
    requires forall line :: line in more ==> line.mechanic == mechanic
    ensures OnePerPair(lines + more)
  {
  }
}
