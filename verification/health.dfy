/** The health endpoint: each backing service is classified by its probe's
    response time, the three classifications are aggregated, and the
    aggregate decides the HTTP status. */
module Health {
  /** How one service answered: in a whole number of milliseconds, or by
      throwing. */
  datatype Probe = Answered(ms: nat) | Threw

  datatype ServiceStatus = Up | Degraded | Down

  datatype OverallStatus = Healthy | DegradedOverall | Unhealthy

  /** The response-time limits below which each service counts as up. */
  const DATABASE_LIMIT: nat := 100
  const CACHE_LIMIT: nat := 50
  const EXTERNAL_API_LIMIT: nat := 500

  /** One service check: up when it answered under its limit, degraded when
      it answered at or over it, down when it threw. */
  function Classify(limit: nat, p: Probe): (st: ServiceStatus)
    ensures st == Down <==> p.Threw?
    ensures st == Up <==> p.Answered? && p.ms < limit
  {
    match p
    case Threw => Down
    case Answered(ms) => if ms < limit then Up else Degraded
  }

  /** The three checks the endpoint runs. */
  datatype Services = Services(database: ServiceStatus, cache: ServiceStatus, externalApi: ServiceStatus)

  function CheckServices(database: Probe, cache: Probe, externalApi: Probe): Services {
    Services(Classify(DATABASE_LIMIT, database), Classify(CACHE_LIMIT, cache), Classify(EXTERNAL_API_LIMIT, externalApi))
  }

  /** The statuses in the order the services object lists them. */
  function Statuses(s: Services): seq<ServiceStatus> {
    [s.database, s.cache, s.externalApi]
  }

  /** Healthy when every service is up, otherwise unhealthy when any is
      down, otherwise degraded. */
  function Overall(s: Services): (o: OverallStatus)
    ensures o == Healthy <==> Statuses(s) == [Up, Up, Up]
    ensures o == Unhealthy <==> Down in Statuses(s)
    ensures o == DegradedOverall <==> Down !in Statuses(s) && Statuses(s) != [Up, Up, Up]
  {
    var st := Statuses(s);
    if st[0] == Up && st[1] == Up && st[2] == Up then Healthy
    else if st[0] == Down || st[1] == Down || st[2] == Down then Unhealthy
    else DegradedOverall
  }

  /** `getHealth`'s status code: 200 unless unhealthy, then 503. */
  function HttpStatus(o: OverallStatus): (code: nat)
    ensures code == 503 <==> o == Unhealthy
    ensures code == 200 <==> o != Unhealthy
  {
    match o
    case Healthy => 200
    case DegradedOverall => 200
    case Unhealthy => 503
  }

  /** Ranks: a higher rank is a better state. */
  function ServiceRank(st: ServiceStatus): nat {
    match st
    case Down => 0
    case Degraded => 1
    case Up => 2
  }

  function OverallRank(o: OverallStatus): nat {
    match o
    case Unhealthy => 0
    case DegradedOverall => 1
    case Healthy => 2
  }

  /** A degraded aggregate always has a degraded service to blame. */
  lemma DegradedHasCause(s: Services)
    requires Overall(s) == DegradedOverall
    ensures Degraded in Statuses(s)
  {
    var st := Statuses(s);
    if st[0] == Degraded {
      assert st[0] in st;
    } else if st[1] == Degraded {
      assert st[1] in st;
    } else {
      assert st[2] in st;
    }
  }

  /** The aggregate is the worst of the three services. */
  lemma OverallIsWorst(s: Services)
    ensures OverallRank(Overall(s)) == Min3(ServiceRank(s.database), ServiceRank(s.cache), ServiceRank(s.externalApi))
  {
  }

  function Min3(a: nat, b: nat, c: nat): nat {
    if a <= b && a <= c then a else if b <= c then b else c
  }

  /** A slower probe never classifies better. */
  lemma SlowerNeverBetter(limit: nat, a: nat, b: nat)
    requires a <= b
    ensures ServiceRank(Classify(limit, Answered(b))) <= ServiceRank(Classify(limit, Answered(a)))
  {
  }

  /** Making any one service worse never improves the aggregate or the status code. */
  lemma WorseServiceNeverImproves(s: Services, t: Services)
    requires ServiceRank(t.database) <= ServiceRank(s.database)
    requires ServiceRank(t.cache) <= ServiceRank(s.cache)
    requires ServiceRank(t.externalApi) <= ServiceRank(s.externalApi)
    ensures OverallRank(Overall(t)) <= OverallRank(Overall(s))
    ensures HttpStatus(Overall(s)) == 503 ==> HttpStatus(Overall(t)) == 503
  {
    OverallIsWorst(s);
    OverallIsWorst(t);
  }

  /** The same response time can be up for one service and degraded for
      another: 75 ms is fast for the database, slow for the cache. */
  lemma LimitsDiffer()
    ensures CheckServices(Answered(75), Answered(75), Answered(75)) == Services(Up, Degraded, Up)
    ensures HttpStatus(Overall(CheckServices(Answered(75), Answered(75), Answered(75)))) == 200
  {
  }
}
