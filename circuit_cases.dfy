/**
 * The data loader `src/data/circuit-cases.json.js`: for each of the thirteen
 * federal courts of appeals it searches for recent and for most-cited
 * opinions, turns every hit into a case record, and collects the records per
 * list. The network is an input: the outcome of each circuit's two searches.
 */
module CircuitCases {
  import opened Wrappers
  import opened Js

  /** A CourtListener court: its id and the circuit's name. */
  datatype Court = Court(id: string, name: string)

  /** `circuitCourts`, in the order the loop visits them. */
  const CircuitCourts: seq<Court> := [
    Court("ca1", "First Circuit"),
    Court("ca2", "Second Circuit"),
    Court("ca3", "Third Circuit"),
    Court("ca4", "Fourth Circuit"),
    Court("ca5", "Fifth Circuit"),
    Court("ca6", "Sixth Circuit"),
    Court("ca7", "Seventh Circuit"),
    Court("ca8", "Eighth Circuit"),
    Court("ca9", "Ninth Circuit"),
    Court("ca10", "Tenth Circuit"),
    Court("ca11", "Eleventh Circuit"),
    Court("cadc", "DC Circuit"),
    Court("cafc", "Federal Circuit")
  ]

  /** No two courts of the list share an id, so a record's id names its circuit. */
  lemma CourtIdsDistinct()
    ensures |CircuitCourts| == 13
    ensures forall j, k :: 0 <= j < k < |CircuitCourts| ==> CircuitCourts[j].id != CircuitCourts[k].id
  {
  }

  /** A normalised case record. Fields copied from the hit keep whatever value the hit had. */
  datatype CaseRecord = CaseRecord(
    circuit: string,
    circuitId: string,
    caseName: Value,
    dateFiled: Value,
    docketNumber: Value,
    status: Value,
    citeCount: Value,
    snippet: Value,
    url: string)

  /** The record was made while the loop processed `court`. */
  predicate FromCourt(r: CaseRecord, court: Court) {
    r.circuit == court.name && r.circuitId == court.id
  }

  const Site: string := "https://www.courtlistener.com"

  /** `opinion.opinions && opinion.opinions[0]?.snippet`: the first opinion's snippet, or the falsy list. */
  function FirstSnippet(opinion: Value): Value
    requires !Nullish(opinion)
  {
    var opinions := Get(opinion, "opinions");
    if Truthy(opinions) then OptGet(At(opinions, 0), "snippet") else opinions
  }

  /**
   * The arrow function the search hits are mapped with. Reading
   * `opinion.caseName` throws a TypeError when the hit is `null`.
   */
  function ToRecord(court: Court, opinion: Value): (r: Option<CaseRecord>)
    ensures r.None? <==> Nullish(opinion)
    ensures r.Some? ==> FromCourt(r.value, court)
    ensures r.Some? ==> (Truthy(Get(opinion, "citeCount")) ==> r.value.citeCount == Get(opinion, "citeCount"))
    ensures r.Some? ==> (!Truthy(Get(opinion, "citeCount")) ==> r.value.citeCount == Num(0))
    ensures r.Some? ==> (Truthy(FirstSnippet(opinion)) ==> r.value.snippet == FirstSnippet(opinion))
    ensures r.Some? ==> (!Truthy(FirstSnippet(opinion)) ==> r.value.snippet == Str(""))
    ensures r.Some? ==> Site <= r.value.url
    ensures r.Some? && Get(opinion, "absolute_url").Str? ==> r.value.url == Site + Get(opinion, "absolute_url").s
    ensures r.Some? ==> r.value.url == Site + ToStr(Get(opinion, "absolute_url"))
    ensures r.Some? ==> r.value.caseName == Get(opinion, "caseName") && r.value.dateFiled == Get(opinion, "dateFiled")
    ensures r.Some? ==> r.value.docketNumber == Get(opinion, "docketNumber") && r.value.status == Get(opinion, "status")
  {
    if Nullish(opinion) then None
    else
      Some(CaseRecord(
        court.name,
        court.id,
        Get(opinion, "caseName"),
        Get(opinion, "dateFiled"),
        Get(opinion, "docketNumber"),
        Get(opinion, "status"),
        Or(Get(opinion, "citeCount"), Num(0)),
        Or(FirstSnippet(opinion), Str("")),
        Site + ToStr(Get(opinion, "absolute_url"))))
  }

  /** `hits.map(...)`: every hit's record, in order, or `None` once a hit is `null` or `undefined`. */
  function MapRecords(court: Court, hits: seq<Value>): (r: Option<seq<CaseRecord>>)
    ensures r.Some? <==> forall i :: 0 <= i < |hits| ==> !Nullish(hits[i])
    ensures r.Some? ==> |r.value| == |hits|
    ensures r.Some? ==> forall i :: 0 <= i < |hits| ==> ToRecord(court, hits[i]) == Some(r.value[i])
    decreases |hits|
  {
    if hits == [] then Some([])
    else
      match ToRecord(court, hits[0])
      case None => None
      case Some(first) =>
        match MapRecords(court, hits[1..])
        case None => None
        case Some(rest) => Some([first] + rest)
  }

  /**
   * `(data.results || []).map(...)` on the parsed body: a TypeError (`None`)
   * when the body is `null`, when `results` is truthy but not an array, or
   * when a hit is `null`; no records when `results` is missing.
   */
  function Records(court: Court, data: Value): (r: Option<seq<CaseRecord>>)
    ensures r.Some? ==> forall i :: 0 <= i < |r.value| ==> FromCourt(r.value[i], court)
    ensures !Nullish(data) && !Truthy(Get(data, "results")) ==> r == Some([])
    ensures Nullish(data) ==> r.None?
    ensures !Nullish(data) && Get(data, "results").Arr? ==> r == MapRecords(court, Get(data, "results").elems)
    ensures !Nullish(data) && Truthy(Get(data, "results")) && !Get(data, "results").Arr? ==> r.None?
  {
    if Nullish(data) then None
    else
      var results := Or(Get(data, "results"), Arr([]));
      if results.Arr? then MapRecords(court, results.elems) else None
  }

  // ---------------------------------------------------------------------------
  // One search
  // ---------------------------------------------------------------------------

  /** The body of a response as `response.json()` reads it. */
  datatype Body = Malformed | Parsed(data: Value)

  /** What `fetch` did: it rejected, or it gave a response. */
  datatype Fetch = NetworkError | Response(ok: bool, body: Body)

  /** How one search of one circuit ended: an exception, a skipped non-ok response, or records to push. */
  datatype Stage = Threw | Skipped | Fetched(records: seq<CaseRecord>)

  /** One search step: `fetch`, then `response.json()` and the mapping when the response is ok. */
  function StageOf(court: Court, f: Fetch): (st: Stage)
    ensures f.NetworkError? ==> st == Threw
    ensures f.Response? && !f.ok ==> st == Skipped
    ensures f.Response? && f.ok && f.body.Malformed? ==> st == Threw
    ensures st.Fetched? ==> forall i :: 0 <= i < |st.records| ==> FromCourt(st.records[i], court)
    ensures f.Response? && f.ok && f.body.Parsed? ==>
      st == (if Records(court, f.body.data).Some? then Fetched(Records(court, f.body.data).value) else Threw)
  {
    match f
    case NetworkError => Threw
    case Response(ok, body) =>
      if !ok then Skipped
      else
        match body
        case Malformed => Threw
        case Parsed(data) =>
          match Records(court, data)
          case None => Threw
          case Some(rs) => Fetched(rs)
  }

  /** What a search step pushes onto its list. */
  function Pushed(st: Stage): seq<CaseRecord> {
    if st.Fetched? then st.records else []
  }

  /** The search a request made. */
  datatype Kind = Recent | Cited

  /** A request the loop sent: which court, and which search. */
  datatype Request = Request(court: string, kind: Kind)

  // ---------------------------------------------------------------------------
  // One circuit
  // ---------------------------------------------------------------------------

  /** How one circuit's iteration went: the stage of its first search and of its second. */
  datatype Iteration = Iteration(first: Stage, second: Stage)

  /** The iteration of `court` when its two searches end as `outcomes`. */
  function IterationOf(court: Court, outcomes: (Fetch, Fetch)): Iteration {
    Iteration(StageOf(court, outcomes.0), StageOf(court, outcomes.1))
  }

  /** The first search's records: they stay pushed whatever the second search does. */
  function RecentPart(it: Iteration): seq<CaseRecord> {
    Pushed(it.first)
  }

  /** The second search runs only when the first did not throw. */
  function CitedPart(it: Iteration): seq<CaseRecord> {
    if it.first.Threw? then [] else Pushed(it.second)
  }

  /** The requests one iteration sends: the first search always, the second unless the first threw. */
  function RequestsPart(court: Court, it: Iteration): seq<Request> {
    [Request(court.id, Recent)] + if it.first.Threw? then [] else [Request(court.id, Cited)]
  }

  // ---------------------------------------------------------------------------
  // The loop over the circuits
  // ---------------------------------------------------------------------------

  /** The iterations of the circuits of the list, in order, for their searches' outcomes. */
  function Iterations(outcomes: seq<(Fetch, Fetch)>): seq<Iteration>
    requires |outcomes| <= |CircuitCourts|
  {
    seq(|outcomes|, i requires 0 <= i < |outcomes| => IterationOf(CircuitCourts[i], outcomes[i]))
  }

  /** The recent records of the first `n` iterations, in circuit order. */
  function RecentUpTo(its: seq<Iteration>, n: nat): seq<CaseRecord>
    requires n <= |its|
  {
    if n == 0 then [] else RecentUpTo(its, n - 1) + RecentPart(its[n - 1])
  }

  /** The most-cited records of the first `n` iterations, in circuit order. */
  function CitedUpTo(its: seq<Iteration>, n: nat): seq<CaseRecord>
    requires n <= |its|
  {
    if n == 0 then [] else CitedUpTo(its, n - 1) + CitedPart(its[n - 1])
  }

  /** The requests of the first `n` iterations, in the order they were sent. */
  function RequestsUpTo(its: seq<Iteration>, n: nat): seq<Request>
    requires n <= |its| <= |CircuitCourts|
  {
    if n == 0 then [] else RequestsUpTo(its, n - 1) + RequestsPart(CircuitCourts[n - 1], its[n - 1])
  }

  /**
   * The `try` block for one circuit: the first search, then the second unless
   * the first threw. It returns what it pushed onto each list and the
   * requests it sent.
   */
  method SearchCircuit(circuit: Court, recentFetch: Fetch, citedFetch: Fetch) returns (recent: seq<CaseRecord>, cited: seq<CaseRecord>, requests: seq<Request>)
    ensures recent == RecentPart(IterationOf(circuit, (recentFetch, citedFetch)))
    ensures cited == CitedPart(IterationOf(circuit, (recentFetch, citedFetch)))
    ensures requests == RequestsPart(circuit, IterationOf(circuit, (recentFetch, citedFetch)))
  {
    recent, cited := [], [];
    requests := [Request(circuit.id, Recent)];
    var first := StageOf(circuit, recentFetch);
    if !first.Threw? {
      if first.Fetched? {
        recent := first.records;
      }
      requests := requests + [Request(circuit.id, Cited)];
      var second := StageOf(circuit, citedFetch);
      if second.Fetched? {
        cited := second.records;
      }
    }
  }

  /**
   * `fetchCircuitCases`, with `outcomes[i]` the outcome of circuit `i`'s two
   * searches. An exception in an iteration is caught: what it pushed stays,
   * the rest of that circuit is skipped and the loop goes on.
   */
  method FetchCircuitCases(outcomes: seq<(Fetch, Fetch)>) returns (recent: seq<CaseRecord>, cited: seq<CaseRecord>, requests: seq<Request>)
    requires |outcomes| == |CircuitCourts|
    ensures recent == RecentUpTo(Iterations(outcomes), |CircuitCourts|)
    ensures cited == CitedUpTo(Iterations(outcomes), |CircuitCourts|)
    ensures requests == RequestsUpTo(Iterations(outcomes), |CircuitCourts|)
  {
    ghost var its := Iterations(outcomes);
    recent, cited, requests := [], [], [];
    var i := 0;
    while i < |CircuitCourts|
      invariant 0 <= i <= |CircuitCourts|
      invariant recent == RecentUpTo(its, i)
      invariant cited == CitedUpTo(its, i)
      invariant requests == RequestsUpTo(its, i)
    {
      var circuit := CircuitCourts[i];
      var (recentFetch, citedFetch) := outcomes[i];
      assert its[i] == IterationOf(circuit, (recentFetch, citedFetch));
      var pushedRecent, pushedCited, sent := SearchCircuit(circuit, recentFetch, citedFetch);
      assert RecentUpTo(its, i + 1) == RecentUpTo(its, i) + RecentPart(its[i]);
      assert CitedUpTo(its, i + 1) == CitedUpTo(its, i) + CitedPart(its[i]);
      assert RequestsUpTo(its, i + 1) == RequestsUpTo(its, i) + RequestsPart(circuit, its[i]);
      recent, cited, requests := recent + pushedRecent, cited + pushedCited, requests + sent;
      i := i + 1;
    }
  }

  // ---------------------------------------------------------------------------
  // The output
  // ---------------------------------------------------------------------------

  /** The JSON object the loader prints. */
  datatype Output = Output(
    lastUpdated: string,
    recentCases: seq<CaseRecord>,
    mostCitedCases: seq<CaseRecord>,
    totalRecent: nat,
    totalCited: nat)

  /** `process.exit(code)` */
  datatype Exit = Exit(code: int)

  /**
   * The whole loader. `apiKey` is `COURTLISTENER_API_KEY` (`None` when unset)
   * and `now` the clock's ISO time. Without a key it exits with status 1
   * before sending a request.
   */
  method Run(apiKey: Option<string>, outcomes: seq<(Fetch, Fetch)>, now: string) returns (r: Result<Output, Exit>, requests: seq<Request>)
    requires |outcomes| == |CircuitCourts|
    ensures r.Failure? <==> apiKey.None? || apiKey.value == ""
    ensures r.Failure? ==> r.error == Exit(1) && requests == []
    ensures r.Success? ==> r.value.totalRecent == |r.value.recentCases| && r.value.totalCited == |r.value.mostCitedCases|
    ensures r.Success? ==> r.value.recentCases == RecentUpTo(Iterations(outcomes), |CircuitCourts|)
    ensures r.Success? ==> r.value.mostCitedCases == CitedUpTo(Iterations(outcomes), |CircuitCourts|)
    ensures r.Success? ==> r.value.lastUpdated == now && requests == RequestsUpTo(Iterations(outcomes), |CircuitCourts|)
  {
    if apiKey.None? || apiKey.value == "" {
      return Failure(Exit(1)), [];
    }
    var recent, cited;
    recent, cited, requests := FetchCircuitCases(outcomes);
    r := Success(Output(now, recent, cited, |recent|, |cited|));
  }

  // ---------------------------------------------------------------------------
  // What the collected lists hold
  // ---------------------------------------------------------------------------

  /** Every record of `recs` was made for `court`. */
  predicate AllFromCourt(recs: seq<CaseRecord>, court: Court) {
    forall j :: 0 <= j < |recs| ==> FromCourt(recs[j], court)
  }

  /** Iteration `i` pushed records of circuit `i` only. */
  predicate FromOwnCourts(its: seq<Iteration>)
    requires |its| <= |CircuitCourts|
  {
    forall i {:trigger its[i]} :: 0 <= i < |its| ==> AllFromCourt(RecentPart(its[i]), CircuitCourts[i]) && AllFromCourt(CitedPart(its[i]), CircuitCourts[i])
  }

  /** The loop's iterations each push the records of their own circuit only. */
  lemma IterationsFromOwnCourts(outcomes: seq<(Fetch, Fetch)>)
    requires |outcomes| <= |CircuitCourts|
    ensures FromOwnCourts(Iterations(outcomes))
  {
    var its := Iterations(outcomes);
    forall i | 0 <= i < |its|
      ensures AllFromCourt(RecentPart(its[i]), CircuitCourts[i]) && AllFromCourt(CitedPart(its[i]), CircuitCourts[i])
    {
      var court := CircuitCourts[i];
      var first, second := StageOf(court, outcomes[i].0), StageOf(court, outcomes[i].1);
      assert its[i] == Iteration(first, second);
      assert RecentPart(its[i]) == Pushed(first);
      assert AllFromCourt(Pushed(first), court);
      assert AllFromCourt(Pushed(second), court);
    }
  }

  /** The record was made for one of the first `n` circuits of the list. */
  predicate FromFirst(r: CaseRecord, n: nat)
    requires n <= |CircuitCourts|
  {
    exists k :: 0 <= k < n && FromCourt(r, CircuitCourts[k])
  }

  /** Every record of `recs` was made for one of the first `n` circuits of the list. */
  predicate FromListed(recs: seq<CaseRecord>, n: nat)
    requires n <= |CircuitCourts|
  {
    forall j :: 0 <= j < |recs| ==> FromFirst(recs[j], n)
  }

  lemma FromListedConcat(pre: seq<CaseRecord>, part: seq<CaseRecord>, n: nat)
    requires 0 < n <= |CircuitCourts|
    requires FromListed(pre, n - 1)
    requires AllFromCourt(part, CircuitCourts[n - 1])
    ensures FromListed(pre + part, n)
  {
    forall j | 0 <= j < |pre + part|
      ensures FromFirst((pre + part)[j], n)
    {
      if j < |pre| {
        assert FromFirst(pre[j], n - 1);
        var k :| 0 <= k < n - 1 && FromCourt(pre[j], CircuitCourts[k]);
        assert FromCourt((pre + part)[j], CircuitCourts[k]);
      } else {
        assert FromCourt((pre + part)[j], CircuitCourts[n - 1]);
      }
    }
  }

  /** When each iteration pushes its own circuit's records, the first `n` iterations push records of the first `n` circuits. */
  lemma {:induction false} ListedUpTo(its: seq<Iteration>, n: nat)
    requires n <= |its| <= |CircuitCourts| && FromOwnCourts(its)
    ensures FromListed(RecentUpTo(its, n), n)
    ensures FromListed(CitedUpTo(its, n), n)
  {
    if n > 0 {
      ListedUpTo(its, n - 1);
      assert RecentUpTo(its, n) == RecentUpTo(its, n - 1) + RecentPart(its[n - 1]);
      assert CitedUpTo(its, n) == CitedUpTo(its, n - 1) + CitedPart(its[n - 1]);
      FromListedConcat(RecentUpTo(its, n - 1), RecentPart(its[n - 1]), n);
      FromListedConcat(CitedUpTo(its, n - 1), CitedPart(its[n - 1]), n);
    }
  }

  /** Every record in either list was made for a circuit of the list, so its id and name belong together. */
  lemma RecordsFromListedCourts(outcomes: seq<(Fetch, Fetch)>)
    requires |outcomes| == |CircuitCourts|
    ensures FromListed(RecentUpTo(Iterations(outcomes), |CircuitCourts|), |CircuitCourts|)
    ensures FromListed(CitedUpTo(Iterations(outcomes), |CircuitCourts|), |CircuitCourts|)
  {
    IterationsFromOwnCourts(outcomes);
    ListedUpTo(Iterations(outcomes), |CircuitCourts|);
  }

  /** The records of `recs` whose circuit id is `id`, in order. */
  function WithId(recs: seq<CaseRecord>, id: string): seq<CaseRecord>
    decreases |recs|
  {
    if recs == [] then []
    else (if recs[0].circuitId == id then [recs[0]] else []) + WithId(recs[1..], id)
  }

  lemma {:induction false} WithIdConcat(a: seq<CaseRecord>, b: seq<CaseRecord>, id: string)
    ensures WithId(a + b, id) == WithId(a, id) + WithId(b, id)
    decreases |a|
  {
    if a == [] {
      assert a + b == b;
    } else {
      var head := if a[0].circuitId == id then [a[0]] else [];
      assert (a + b)[0] == a[0];
      assert (a + b)[1..] == a[1..] + b;
      WithIdConcat(a[1..], b, id);
      assert WithId(a + b, id) == head + (WithId(a[1..], id) + WithId(b, id));
      assert WithId(a, id) == head + WithId(a[1..], id);
    }
  }

  /** Filtering records made for one court by that court's id keeps them all, by another id keeps none. */
  lemma {:induction false} WithIdOfCourt(recs: seq<CaseRecord>, court: Court, id: string)
    requires AllFromCourt(recs, court)
    ensures WithId(recs, id) == if id == court.id then recs else []
    decreases |recs|
  {
    if recs != [] {
      WithIdOfCourt(recs[1..], court, id);
    }
  }

  /** Pushing one court's records adds them to that court's share and to no other. */
  lemma WithIdPush(pre: seq<CaseRecord>, part: seq<CaseRecord>, court: Court, id: string)
    requires AllFromCourt(part, court)
    ensures WithId(pre + part, id) == WithId(pre, id) + if id == court.id then part else []
  {
    WithIdConcat(pre, part, id);
    WithIdOfCourt(part, court, id);
  }

  /** Two positions of the court list hold the same id only when they are the same position. */
  lemma IdsDiffer(j: nat, k: nat)
    requires j < |CircuitCourts| && k < |CircuitCourts|
    ensures CircuitCourts[j].id == CircuitCourts[k].id <==> j == k
  {
    CourtIdsDistinct();
  }

  /**
   * The recent records with circuit `i`'s id are exactly what iteration `i`
   * pushed: the list is the per-circuit contributions in circuit order.
   */
  lemma {:induction false} RecentShare(its: seq<Iteration>, n: nat, i: nat)
    requires n <= |its| <= |CircuitCourts| && i < |CircuitCourts| && FromOwnCourts(its)
    ensures WithId(RecentUpTo(its, n), CircuitCourts[i].id) == if i < n then RecentPart(its[i]) else []
  {
    if n > 0 {
      var court, id := CircuitCourts[n - 1], CircuitCourts[i].id;
      var pre, part := RecentUpTo(its, n - 1), RecentPart(its[n - 1]);
      RecentShare(its, n - 1, i);
      IdsDiffer(n - 1, i);
      assert AllFromCourt(part, court);
      assert RecentUpTo(its, n) == pre + part;
      WithIdPush(pre, part, court, id);
      if i == n - 1 {
        assert WithId(pre + part, id) == [] + part;
      } else {
        assert WithId(pre + part, id) == WithId(pre, id) + [];
      }
    }
  }

  /** The same for the most-cited records and iteration `i`'s second search. */
  lemma {:induction false} CitedShare(its: seq<Iteration>, n: nat, i: nat)
    requires n <= |its| <= |CircuitCourts| && i < |CircuitCourts| && FromOwnCourts(its)
    ensures WithId(CitedUpTo(its, n), CircuitCourts[i].id) == if i < n then CitedPart(its[i]) else []
  {
    if n > 0 {
      var court, id := CircuitCourts[n - 1], CircuitCourts[i].id;
      var pre, part := CitedUpTo(its, n - 1), CitedPart(its[n - 1]);
      CitedShare(its, n - 1, i);
      IdsDiffer(n - 1, i);
      assert AllFromCourt(part, court);
      assert CitedUpTo(its, n) == pre + part;
      WithIdPush(pre, part, court, id);
      if i == n - 1 {
        assert WithId(pre + part, id) == [] + part;
      } else {
        assert WithId(pre + part, id) == WithId(pre, id) + [];
      }
    }
  }

  /** A search that failed, was not ok, or found no `results` yields nothing to push. */
  predicate NothingFound(f: Fetch) {
    f.NetworkError?
    || (f.Response? && !f.ok)
    || (f.Response? && f.ok && f.body.Parsed? && !Nullish(f.body.data) && !Truthy(Get(f.body.data, "results")))
  }

  /** A search that found nothing pushes nothing. */
  lemma NothingFoundPushesNothing(court: Court, f: Fetch)
    requires NothingFound(f)
    ensures Pushed(StageOf(court, f)) == []
  {
  }

  /** A circuit whose search found nothing has no records of its own in that search's list. */
  lemma NothingFoundNoRecords(outcomes: seq<(Fetch, Fetch)>, i: nat)
    requires |outcomes| == |CircuitCourts| && i < |CircuitCourts|
    ensures NothingFound(outcomes[i].0) ==> WithId(RecentUpTo(Iterations(outcomes), |CircuitCourts|), CircuitCourts[i].id) == []
    ensures NothingFound(outcomes[i].1) ==> WithId(CitedUpTo(Iterations(outcomes), |CircuitCourts|), CircuitCourts[i].id) == []
  {
    var its := Iterations(outcomes);
    var court := CircuitCourts[i];
    IterationsFromOwnCourts(outcomes);
    RecentShare(its, |CircuitCourts|, i);
    CitedShare(its, |CircuitCourts|, i);
    assert its[i] == Iteration(StageOf(court, outcomes[i].0), StageOf(court, outcomes[i].1));
    if NothingFound(outcomes[i].0) {
      NothingFoundPushesNothing(court, outcomes[i].0);
    }
    if NothingFound(outcomes[i].1) {
      NothingFoundPushesNothing(court, outcomes[i].1);
    }
  }

  /**
   * Every circuit's first search is sent whatever happened to earlier
   * circuits, and its second search exactly when the first did not throw.
   */
  lemma {:induction false} EveryCircuitRequested(its: seq<Iteration>, n: nat, i: nat)
    requires n <= |its| <= |CircuitCourts| && i < n
    ensures Request(CircuitCourts[i].id, Recent) in RequestsUpTo(its, n)
    ensures Request(CircuitCourts[i].id, Cited) in RequestsUpTo(its, n) <==> !its[i].first.Threw?
    decreases n
  {
    if i < n - 1 {
      EveryCircuitRequested(its, n - 1, i);
      LaterRequestsOmit(its, n, i);
    } else {
      OwnRequests(its, i);
    }
  }

  /** Circuit `i`'s own requests, after those of the circuits before it. */
  lemma OwnRequests(its: seq<Iteration>, i: nat)
    requires i < |its| <= |CircuitCourts|
    ensures Request(CircuitCourts[i].id, Recent) in RequestsUpTo(its, i + 1)
    ensures Request(CircuitCourts[i].id, Cited) in RequestsUpTo(its, i + 1) <==> !its[i].first.Threw?
  {
    var court := CircuitCourts[i];
    var pre, part := RequestsUpTo(its, i), RequestsPart(court, its[i]);
    NoRequestsFor(its, i, i);
    assert Request(court.id, Recent) !in pre && Request(court.id, Cited) !in pre;
    assert RequestsUpTo(its, i + 1) == pre + part;
    assert part[0] == Request(court.id, Recent);
    RequestsPartCited(court, its[i]);
  }

  /** A circuit's second request is among its own exactly when its first stage did not throw. */
  lemma RequestsPartCited(court: Court, it: Iteration)
    ensures Request(court.id, Cited) in RequestsPart(court, it) <==> !it.first.Threw?
  {
    if it.first.Threw? {
      assert RequestsPart(court, it) == [Request(court.id, Recent)];
    } else {
      assert RequestsPart(court, it)[1] == Request(court.id, Cited);
    }
  }

  /** The requests for circuit `n - 1` do not name an earlier circuit `i`. */
  lemma LaterRequestsOmit(its: seq<Iteration>, n: nat, i: nat)
    requires n <= |its| <= |CircuitCourts| && i < n - 1
    ensures forall kind :: Request(CircuitCourts[i].id, kind) in RequestsUpTo(its, n) <==> Request(CircuitCourts[i].id, kind) in RequestsUpTo(its, n - 1)
  {
    var court := CircuitCourts[n - 1];
    IdsDiffer(n - 1, i);
    assert RequestsUpTo(its, n) == RequestsUpTo(its, n - 1) + RequestsPart(court, its[n - 1]);
    assert forall q :: q in RequestsPart(court, its[n - 1]) ==> q.court == court.id;
  }

  /** The requests of the first `n` iterations name none of the later circuits. */
  lemma {:induction false} NoRequestsFor(its: seq<Iteration>, n: nat, i: nat)
    requires n <= i < |CircuitCourts| && n <= |its| <= |CircuitCourts|
    ensures forall q :: q in RequestsUpTo(its, n) ==> q.court != CircuitCourts[i].id
  {
    if n > 0 {
      var court := CircuitCourts[n - 1];
      var pre, part := RequestsUpTo(its, n - 1), RequestsPart(court, its[n - 1]);
      NoRequestsFor(its, n - 1, i);
      IdsDiffer(n - 1, i);
      assert RequestsUpTo(its, n) == pre + part;
      forall q: Request | q in pre + part
        ensures q.court != CircuitCourts[i].id
      {
        if q !in pre {
          assert q in part;
          assert q.court == court.id;
        }
      }
    }
  }

  lemma PrefixGrows<T>(a: seq<T>, b: seq<T>, c: seq<T>)
    requires a <= b
    ensures a <= b + c
  {
  }

  /** The lists and the request log only grow from one circuit to the next. */
  lemma {:induction false} OnlyGrow(its: seq<Iteration>, m: nat, n: nat)
    requires m <= n <= |its| <= |CircuitCourts|
    ensures RecentUpTo(its, m) <= RecentUpTo(its, n)
    ensures CitedUpTo(its, m) <= CitedUpTo(its, n)
    ensures RequestsUpTo(its, m) <= RequestsUpTo(its, n)
    decreases n - m
  {
    if m < n {
      OnlyGrow(its, m, n - 1);
      var court := CircuitCourts[n - 1];
      assert RecentUpTo(its, n) == RecentUpTo(its, n - 1) + RecentPart(its[n - 1]);
      assert CitedUpTo(its, n) == CitedUpTo(its, n - 1) + CitedPart(its[n - 1]);
      assert RequestsUpTo(its, n) == RequestsUpTo(its, n - 1) + RequestsPart(court, its[n - 1]);
      PrefixGrows(RecentUpTo(its, m), RecentUpTo(its, n - 1), RecentPart(its[n - 1]));
      PrefixGrows(CitedUpTo(its, m), CitedUpTo(its, n - 1), CitedPart(its[n - 1]));
      PrefixGrows(RequestsUpTo(its, m), RequestsUpTo(its, n - 1), RequestsPart(court, its[n - 1]));
    }
  }

  /** Iterations whose first searches ended alike push the same recent records. */
  lemma {:induction false} SameFirstSameRecent(its1: seq<Iteration>, its2: seq<Iteration>, n: nat)
    requires n <= |its1| && n <= |its2|
    requires forall i :: 0 <= i < n ==> its1[i].first == its2[i].first
    ensures RecentUpTo(its1, n) == RecentUpTo(its2, n)
  {
    if n > 0 {
      SameFirstSameRecent(its1, its2, n - 1);
      assert its1[n - 1].first == its2[n - 1].first;
      assert RecentUpTo(its1, n) == RecentUpTo(its1, n - 1) + RecentPart(its1[n - 1]);
      assert RecentUpTo(its2, n) == RecentUpTo(its2, n - 1) + RecentPart(its2[n - 1]);
    }
  }

  /**
   * The recent list does not depend on how any second search went: what a
   * circuit's first search pushed stays pushed when its second search throws.
   */
  lemma RecentIgnoresCited(o1: seq<(Fetch, Fetch)>, o2: seq<(Fetch, Fetch)>, n: nat)
    requires n <= |o1| <= |CircuitCourts| && n <= |o2| <= |CircuitCourts|
    requires forall i :: 0 <= i < n ==> o1[i].0 == o2[i].0
    ensures RecentUpTo(Iterations(o1), n) == RecentUpTo(Iterations(o2), n)
  {
    var its1, its2 := Iterations(o1), Iterations(o2);
    forall i | 0 <= i < n
      ensures its1[i].first == its2[i].first
    {
      assert o1[i].0 == o2[i].0;
      assert its1[i] == IterationOf(CircuitCourts[i], o1[i]);
      assert its2[i] == IterationOf(CircuitCourts[i], o2[i]);
    }
    SameFirstSameRecent(its1, its2, n);
  }
}
