/**
 `fetch_all` of the SWAPI loader: build a collection URL, follow the `next`
 links of a paginated collection and accumulate every page's `results`,
 retrying the walk after a transport failure.

 The network is a value: a map from URL to the decoded JSON body served
 there, and a fault oracle saying whether the request for a URL fails
 (with an SSL error or another `requests` exception) in a given attempt
 under a given TLS-verification setting. Sleeping is recorded, not done:
 a run returns the exponents `k` of the `backoff ** k` delays it waited.
 The walk is bounded by `fuel`, the number of pages it may read; the
 Python loop has no bound. Running out of fuel ends the fetch with
 `NoTermination` for any chain longer than `fuel` pages, finite or not,
 so the model agrees with the Python loop only on chains of at most
 `fuel` pages.
 */
module Fetch {
  import opened Wrappers
  import opened Values
  import Text

  /** `requests.exceptions.SSLError`, or any other `requests.RequestException`
      (connection error, timeout, error status, bad URL, and an undecodable
      body, which `requests` 2.27 and later raise as a `RequestException`). */
  datatype Fault = SslFault | RequestFault

  datatype Net = Net(
    pages: map<string, Json>,
    fault: (bool, nat, string) -> Option<Fault>,
    fuel: nat)

  /** `f"{base.rstrip('/')}/{endpoint.strip('/')}/"`: the base without its
      trailing slashes, one slash, the endpoint without surrounding slashes,
      one closing slash. */
  function CollectionUrl(base: string, endpoint: string): (r: string)
    ensures var b := Text.TrimEnd(base, Text.IsSlash);
            var e := Text.Trim(endpoint, Text.IsSlash);
            && |r| == |b| + |e| + 2
            && r[..|b|] == b && r[|b|] == '/' && r[|b| + 1..|b| + 1 + |e|] == e && r[|r| - 1] == '/'
  {
    Join(Text.TrimEnd(base, Text.IsSlash), Text.Trim(endpoint, Text.IsSlash))
  }

  function Join(b: string, e: string): (r: string)
    ensures |r| == |b| + |e| + 2
    ensures r[..|b|] == b && r[|b|] == '/' && r[|b| + 1..|b| + 1 + |e|] == e && r[|r| - 1] == '/'
  {
    var r := b + ['/'] + e + ['/'];
    assert r[..|b|] == b;
    assert r[|b| + 1..|b| + 1 + |e|] == e;
    r
  }

  /** Extra slashes at the end of the base or around the endpoint do not change the URL. */
  lemma CollectionUrlIgnoresSlashes(base: string, endpoint: string, n: nat, m: nat, k: nat)
    ensures CollectionUrl(base + Slashes(n), Slashes(m) + endpoint + Slashes(k))
         == CollectionUrl(base, endpoint)
  {
    Text.TrimEndAppend(base, Slashes(n), Text.IsSlash);
    var e := Slashes(m) + endpoint + Slashes(k);
    assert e == Slashes(m) + (endpoint + Slashes(k));
    Text.TrimEndAppend(Slashes(m) + endpoint, Slashes(k), Text.IsSlash);
    var te := Text.TrimEnd(endpoint, Text.IsSlash);
    TrimEndAfterSlashes(Slashes(m), endpoint);
    Text.TrimStartPrepend(Slashes(m), te, Text.IsSlash);
  }

  /** With a base that has no trailing slash and a bare endpoint, the URL is `base/endpoint/`. */
  lemma CollectionUrlPlain(base: string, endpoint: string)
    requires base == [] || base[|base| - 1] != '/'
    requires endpoint != [] && endpoint[0] != '/' && endpoint[|endpoint| - 1] != '/'
    ensures CollectionUrl(base, endpoint) == base + "/" + endpoint + "/"
  {
    Text.TrimEndNoop(base, Text.IsSlash);
    Text.TrimEndNoop(endpoint, Text.IsSlash);
    Text.TrimStartNoop(endpoint, Text.IsSlash);
  }

  function Slashes(n: nat): (r: string)
    ensures |r| == n && forall i :: 0 <= i < n ==> r[i] == '/'
  {
    seq(n, _ => '/')
  }

  /** Leading slashes do not affect what `rstrip` keeps of a string that is not all slashes. */
  lemma {:induction false} TrimEndAfterSlashes(t: string, s: string)
    requires forall i :: 0 <= i < |t| ==> t[i] == '/'
    ensures Text.TrimEnd(t + s, Text.IsSlash) == t + Text.TrimEnd(s, Text.IsSlash)
            || (Text.TrimEnd(s, Text.IsSlash) == [] && Text.TrimEnd(t + s, Text.IsSlash) <= t)
    decreases |s|
  {
    if s != [] && s[|s| - 1] == '/' {
      assert (t + s)[..|t + s| - 1] == t + s[..|s| - 1];
      TrimEndAfterSlashes(t, s[..|s| - 1]);
    } else if s == [] {
      assert t + s == t;
    }
  }

  /** One `requests.get(url)` followed by `raise_for_status()` and `json()`.
      A `next` that is not a string is not a URL `requests` accepts, and a
      URL the server does not serve answers with an error status. */
  function Request(net: Net, verify: bool, attempt: nat, url: Json): (r: Result<Json, Fault>)
    ensures r.Success? <==> url.JStr? && net.fault(verify, attempt, url.s).None? && url.s in net.pages
    ensures r.Success? ==> r.value == net.pages[url.s]
    ensures r.Failure? ==>
      r.error == (if url.JStr? && net.fault(verify, attempt, url.s).Some?
                  then net.fault(verify, attempt, url.s).value else RequestFault)
  {
    if !url.JStr? then Failure(RequestFault)
    else match net.fault(verify, attempt, url.s)
      case Some(f) => Failure(f)
      case None => if url.s in net.pages then Success(net.pages[url.s]) else Failure(RequestFault)
  }

  /** The records a page contributes and its `next` link:
      `results.extend(data.get("results", []))` then `data.get("next")`. */
  function ReadPage(data: Json): (r: Result<(seq<Json>, Json), PyError>)
    ensures !data.JObj? ==> r == Failure(AttributeError)
    ensures data.JObj? && Lookup(data.fields, "results").None? ==> r.Success? && r.value.0 == []
    ensures data.JObj? && Lookup(data.fields, "results") == Some(JNull) ==> r == Failure(TypeError)
    ensures data.JObj? && Lookup(data.fields, "results").Some? ==>
      var results := Lookup(data.fields, "results").value;
      && (r.Success? <==> Iterate(results).Some?)
      && (r.Success? ==> r.value.0 == Iterate(results).value)
      && (results.JArr? ==> r.Success? && r.value.0 == results.items)
      && (Iterate(results).None? ==> r == Failure(TypeError))
    ensures r.Success? ==> r.value.1 == FieldOr(data.fields, "next", JNull)
  {
    match data
    case JObj(fields) =>
      (match Iterate(FieldOr(fields, "results", JArr([])))
       case None => Failure(TypeError)
       case Some(items) => Success((items, FieldOr(fields, "next", JNull))))
    case _ => Failure(AttributeError)
  }

  /** `prefix` in front of a collection, if there is one. */
  function Lift(prefix: seq<Json>, o: Option<seq<Json>>): (r: Option<seq<Json>>)
  {
    match o
    case Some(rest) => Some(prefix + rest)
    case None => None
  }

  /**
   The reference meaning of a collection: the concatenation, in link order,
   of the `results` of every page reachable from `url` through `next`, as a
   network that never fails would serve it, or `None` when the chain reaches
   a page that is not served or malformed, or is longer than `fuel` pages.
   */
  function Chain(pages: map<string, Json>, url: Json, fuel: nat): Option<seq<Json>>
    decreases fuel
  {
    if !Truthy(url) then Some([])
    else if fuel == 0 || !url.JStr? || url.s !in pages then None
    else match ReadPage(pages[url.s])
      case Failure(_) => None
      case Success(page) => Lift(page.0, Chain(pages, page.1, fuel - 1))
  }

  lemma LiftLift(a: seq<Json>, b: seq<Json>, o: Option<seq<Json>>)
    ensures Lift(a, Lift(b, o)) == Lift(a + b, o)
  {
    if o.Some? {
      assert a + (b + o.value) == (a + b) + o.value;
    }
  }

  /** One request of a run: the attempt it belongs to and the URL it asked for. */
  datatype Req = Req(attempt: nat, url: Json)

  datatype WalkEnd =
    | Done(records: seq<Json>)
    | Faulted(fault: Fault, at: Json, collected: seq<Json>, left: nat)
    | Crashed(error: PyError)
    | Exhausted

  datatype Walked = Walked(end: WalkEnd, trace: seq<Req>)

  /**
   The `while url:` loop of one attempt, from cursor `url` with the records
   `acc` collected so far. A transport failure stops the walk with the failed
   URL and the records collected before it, which is the state the next
   attempt resumes from.
   */
  function Walk(net: Net, verify: bool, attempt: nat, url: Json, acc: seq<Json>, fuel: nat): (w: Walked)
    decreases fuel
    ensures forall i :: 0 <= i < |w.trace| ==> w.trace[i].attempt == attempt
    ensures Truthy(url) && fuel > 0 ==> w.trace != [] && w.trace[0] == Req(attempt, url)
    ensures w.end.Faulted? ==>
              && Truthy(w.end.at) && w.end.left > 0
              && w.trace != [] && w.trace[|w.trace| - 1] == Req(attempt, w.end.at)
              && Request(net, verify, attempt, w.end.at) == Failure(w.end.fault)
  {
    if !Truthy(url) then Walked(Done(acc), [])
    else if fuel == 0 then Walked(Exhausted, [])
    else
      var req := Req(attempt, url);
      match Request(net, verify, attempt, url)
      case Failure(f) => Walked(Faulted(f, url, acc, fuel), [req])
      case Success(data) =>
        match ReadPage(data)
        case Failure(e) => Walked(Crashed(e), [req])
        case Success(page) =>
          var rest := Walk(net, verify, attempt, page.1, acc + page.0, fuel - 1);
          Walked(rest.end, [req] + rest.trace)
  }

  /**
   What one attempt collects is what the reference collection holds: a
   finished walk returns the records collected before it followed by the
   whole chain; a walk stopped by a transport fault has collected exactly
   the chain up to the failed URL, so the chain from that URL completes it;
   a malformed page or an endless chain means there is no collection.
   */
  lemma {:induction false} WalkSound(net: Net, verify: bool, attempt: nat, url: Json, acc: seq<Json>, fuel: nat)
    decreases fuel
    ensures var w := Walk(net, verify, attempt, url, acc, fuel);
      && (w.end.Done? ==> Lift(acc, Chain(net.pages, url, fuel)) == Some(w.end.records))
      && (w.end.Faulted? ==>
            Lift(acc, Chain(net.pages, url, fuel)) == Lift(w.end.collected, Chain(net.pages, w.end.at, w.end.left)))
      && (w.end.Crashed? || w.end.Exhausted? ==> Chain(net.pages, url, fuel) == None)
  {
    if !Truthy(url) {
      assert acc + [] == acc;
    } else if fuel > 0 && Request(net, verify, attempt, url).Success? {
      var page := ReadPage(Request(net, verify, attempt, url).value);
      if page.Success? {
        var next, records := page.value.1, page.value.0;
        WalkSound(net, verify, attempt, next, acc + records, fuel - 1);
        LiftLift(acc, records, Chain(net.pages, next, fuel - 1));
      }
    }
  }

  /** Why `fetch_all` raised: the last attempt's transport failure re-raised,
      an exception it does not catch, or a `next` chain with no end. */
  datatype FetchError = Raised(fault: Fault) | Crash(error: PyError) | NoTermination

  datatype Fetched = Fetched(outcome: Result<seq<Json>, FetchError>, sleeps: seq<nat>, trace: seq<Req>)

  /**
   The `for attempt in range(1, retries + 1)` loop from `attempt` on. The
   cursor and the collected records carry over from a failed attempt to the
   next one; after a failed attempt `k` that is not the last, the run sleeps
   `backoff ** k`.
   */
  function Attempts(net: Net, verify: bool, retries: int, attempt: nat, url: Json,
                    acc: seq<Json>, fuel: nat): (r: Fetched)
    requires 1 <= attempt
    decreases retries - attempt
    ensures attempt > retries ==> r == Fetched(Success(acc), [], [])
    ensures forall i :: 0 <= i < |r.sleeps| ==> r.sleeps[i] == attempt + i
    ensures |r.sleeps| <= if retries < attempt then 0 else retries - attempt
    ensures r.outcome.Failure? && r.outcome.error.Raised? ==> |r.sleeps| == retries - attempt
  {
    if attempt > retries then Fetched(Success(acc), [], [])
    else
      var w := Walk(net, verify, attempt, url, acc, fuel);
      match w.end
      case Done(records) => Fetched(Success(records), [], w.trace)
      case Crashed(e) => Fetched(Failure(Crash(e)), [], w.trace)
      case Exhausted => Fetched(Failure(NoTermination), [], w.trace)
      case Faulted(f, at, collected, left) =>
        if attempt == retries then Fetched(Failure(Raised(f)), [], w.trace)
        else
          var rest := Attempts(net, verify, retries, attempt + 1, at, collected, left);
          Fetched(rest.outcome, [attempt] + rest.sleeps, w.trace + rest.trace)
  }

  /** Whenever consecutive requests belong to different attempts, the second
      is the next attempt asking again for the URL the first one asked for. */
  predicate Resumes(t: seq<Req>) {
    forall i, j :: 0 <= i < |t| && 0 <= j < |t| && j == i + 1 ==>
      || t[j].attempt == t[i].attempt
      || t[j] == Req(t[i].attempt + 1, t[i].url)
  }

  /** Joining one attempt's trace to the next attempt's keeps the resume property. */
  lemma ResumeAcross(a: seq<Req>, b: seq<Req>, attempt: nat, at: Json)
    requires a != [] && a[|a| - 1] == Req(attempt, at)
    requires forall i :: 0 <= i < |a| ==> a[i].attempt == attempt
    requires b != [] && b[0] == Req(attempt + 1, at)
    requires Resumes(b)
    ensures Resumes(a + b)
  {
    var t := a + b;
    forall i, j | 0 <= i < |t| && 0 <= j < |t| && j == i + 1
      ensures || t[j].attempt == t[i].attempt
              || t[j] == Req(t[i].attempt + 1, t[i].url)
    {
      if j < |a| {
        assert t[i] == a[i] && t[j] == a[j];
      } else if j == |a| {
        assert t[i] == a[i] && t[j] == b[0];
      } else {
        assert t[i] == b[i - |a|] && t[j] == b[j - |a|];
      }
    }
  }

  /** `fetch_all(endpoint, base, verify, retries)`: at most `retries` attempts,
      sleeping `backoff ** k` after each failed attempt `k` but the last. */
  function FetchAll(net: Net, verify: bool, endpoint: string, base: string, retries: int): (r: Fetched)
    ensures retries < 1 ==> r == Fetched(Success([]), [], [])
    ensures forall i :: 0 <= i < |r.sleeps| ==> r.sleeps[i] == i + 1
    ensures |r.sleeps| <= if retries < 1 then 0 else retries - 1
    ensures r.outcome.Failure? && r.outcome.error.Raised? ==> |r.sleeps| == retries - 1
  {
    Attempts(net, verify, retries, 1, JStr(CollectionUrl(base, endpoint)), [], net.fuel)
  }

  /** Requests all belong to attempts in `first..retries`. */
  predicate Within(trace: seq<Req>, first: nat, retries: int) {
    forall i :: 0 <= i < |trace| ==> first <= trace[i].attempt <= retries
  }

  /** The sleeps count the attempts that came before the last request's. */
  predicate SleptBefore(trace: seq<Req>, sleeps: seq<nat>, first: nat) {
    && (trace == [] ==> sleeps == [])
    && (trace != [] ==> |sleeps| == trace[|trace| - 1].attempt - first)
  }

  /** One attempt's requests in front of a later run stay within range. */
  lemma WithinJoin(a: seq<Req>, b: seq<Req>, attempt: nat, retries: int)
    requires attempt < retries
    requires forall i :: 0 <= i < |a| ==> a[i].attempt == attempt
    requires Within(b, attempt + 1, retries)
    ensures Within(a + b, attempt, retries)
  {
    var t := a + b;
    forall i | 0 <= i < |t|
      ensures attempt <= t[i].attempt <= retries
    {
      if i < |a| {
        assert t[i] == a[i];
      } else {
        assert t[i] == b[i - |a|];
      }
    }
  }

  /** One more sleep in front of a non-empty later run keeps the count. */
  lemma SleptBeforeJoin(a: seq<Req>, b: seq<Req>, sleeps: seq<nat>, attempt: nat)
    requires b != [] && SleptBefore(b, sleeps, attempt + 1)
    ensures SleptBefore(a + b, [attempt] + sleeps, attempt)
  {
    LastOfJoin(a, b);
  }

  /** Every request of a run belongs to an attempt in `attempt..retries`. */
  lemma {:induction false} AttemptsWithin(net: Net, verify: bool, retries: int, attempt: nat,
                                          url: Json, acc: seq<Json>, fuel: nat)
    requires 1 <= attempt
    decreases retries - attempt
    ensures Within(Attempts(net, verify, retries, attempt, url, acc, fuel).trace, attempt, retries)
  {
    if attempt <= retries {
      AttemptsUnfold(net, verify, retries, attempt, url, acc, fuel);
      var w := Walk(net, verify, attempt, url, acc, fuel);
      if w.end.Faulted? && attempt < retries {
        var at, collected, left := w.end.at, w.end.collected, w.end.left;
        AttemptsWithin(net, verify, retries, attempt + 1, at, collected, left);
        var rest := Attempts(net, verify, retries, attempt + 1, at, collected, left);
        WithinJoin(w.trace, rest.trace, attempt, retries);
      }
    }
  }

  /** A run sleeps once before every attempt after its first, up to the one that made its last request. */
  lemma {:induction false} AttemptsSlept(net: Net, verify: bool, retries: int, attempt: nat,
                                         url: Json, acc: seq<Json>, fuel: nat)
    requires 1 <= attempt
    decreases retries - attempt
    ensures var r := Attempts(net, verify, retries, attempt, url, acc, fuel);
      SleptBefore(r.trace, r.sleeps, attempt)
  {
    if attempt <= retries {
      AttemptsUnfold(net, verify, retries, attempt, url, acc, fuel);
      var w := Walk(net, verify, attempt, url, acc, fuel);
      if w.end.Faulted? && attempt < retries {
        var at, collected, left := w.end.at, w.end.collected, w.end.left;
        AttemptsSlept(net, verify, retries, attempt + 1, at, collected, left);
        AttemptsStart(net, verify, retries, attempt + 1, at, collected, left);
        var rest := Attempts(net, verify, retries, attempt + 1, at, collected, left);
        SleptBeforeJoin(w.trace, rest.trace, rest.sleeps, attempt);
      } else if w.trace != [] {
        assert w.trace[|w.trace| - 1].attempt == attempt;
      }
    }
  }

  /** A run is its first attempt followed, after a fault that is not the last, by the rest of the run. */
  lemma AttemptsUnfold(net: Net, verify: bool, retries: int, attempt: nat,
                       url: Json, acc: seq<Json>, fuel: nat)
    requires 1 <= attempt <= retries
    ensures var r := Attempts(net, verify, retries, attempt, url, acc, fuel);
            var w := Walk(net, verify, attempt, url, acc, fuel);
      if w.end.Faulted? && attempt < retries then
        var rest := Attempts(net, verify, retries, attempt + 1, w.end.at, w.end.collected, w.end.left);
        r.trace == w.trace + rest.trace && r.sleeps == [attempt] + rest.sleeps && r.outcome == rest.outcome
      else
        && r.trace == w.trace && r.sleeps == []
        && (r.outcome.Failure? && r.outcome.error.Raised? ==>
              w.end.Faulted? && attempt == retries && r.outcome.error.fault == w.end.fault)
  {
    var w := Walk(net, verify, attempt, url, acc, fuel);
    if w.end.Faulted? && attempt < retries {
      AttemptsRetry(net, verify, retries, attempt, url, acc, fuel);
    } else {
      AttemptsFinal(net, verify, retries, attempt, url, acc, fuel);
    }
  }

  /** The retry branch of `Attempts`. */
  lemma AttemptsRetry(net: Net, verify: bool, retries: int, attempt: nat,
                      url: Json, acc: seq<Json>, fuel: nat)
    requires 1 <= attempt < retries && Walk(net, verify, attempt, url, acc, fuel).end.Faulted?
    ensures var r := Attempts(net, verify, retries, attempt, url, acc, fuel);
            var w := Walk(net, verify, attempt, url, acc, fuel);
            var rest := Attempts(net, verify, retries, attempt + 1, w.end.at, w.end.collected, w.end.left);
      r.trace == w.trace + rest.trace && r.sleeps == [attempt] + rest.sleeps && r.outcome == rest.outcome
  {
  }

  /** The branch of `Attempts` where the first attempt ends the run. */
  lemma AttemptsFinal(net: Net, verify: bool, retries: int, attempt: nat,
                      url: Json, acc: seq<Json>, fuel: nat)
    requires 1 <= attempt <= retries
    requires !Walk(net, verify, attempt, url, acc, fuel).end.Faulted? || attempt == retries
    ensures var r := Attempts(net, verify, retries, attempt, url, acc, fuel);
            var w := Walk(net, verify, attempt, url, acc, fuel);
      && r.trace == w.trace && r.sleeps == []
      && (r.outcome.Failure? && r.outcome.error.Raised? ==>
            w.end.Faulted? && attempt == retries && r.outcome.error.fault == w.end.fault)
  {
  }

  /** A run that makes any request starts with the cursor it was given. */
  lemma AttemptsStart(net: Net, verify: bool, retries: int, attempt: nat,
                      url: Json, acc: seq<Json>, fuel: nat)
    requires 1 <= attempt <= retries
    ensures var r := Attempts(net, verify, retries, attempt, url, acc, fuel);
      Truthy(url) && fuel > 0 ==> r.trace != [] && r.trace[0] == Req(attempt, url)
  {
    var w := Walk(net, verify, attempt, url, acc, fuel);
    if Truthy(url) && fuel > 0 && w.end.Faulted? && attempt < retries {
      var rest := Attempts(net, verify, retries, attempt + 1, w.end.at, w.end.collected, w.end.left);
      assert (w.trace + rest.trace)[0] == w.trace[0];
    }
  }

  /** Each retry resumes where the failed attempt stopped: whenever consecutive
      requests belong to different attempts, the second is the next attempt
      asking again for the URL the first one failed on. */
  lemma {:induction false} AttemptsResume(net: Net, verify: bool, retries: int, attempt: nat,
                                          url: Json, acc: seq<Json>, fuel: nat)
    requires 1 <= attempt
    decreases retries - attempt
    ensures Resumes(Attempts(net, verify, retries, attempt, url, acc, fuel).trace)
  {
    if attempt <= retries {
      AttemptsUnfold(net, verify, retries, attempt, url, acc, fuel);
      var w := Walk(net, verify, attempt, url, acc, fuel);
      if w.end.Faulted? && attempt < retries {
        var at, collected, left := w.end.at, w.end.collected, w.end.left;
        AttemptsResume(net, verify, retries, attempt + 1, at, collected, left);
        RetryResumes(net, verify, retries, attempt, url, acc, fuel);
      } else {
        SingleAttemptResumes(w.trace, attempt);
      }
    }
  }

  /** A failed attempt followed by a retry that resumes keeps the resume property. */
  lemma RetryResumes(net: Net, verify: bool, retries: int, attempt: nat, url: Json, acc: seq<Json>, fuel: nat)
    requires 1 <= attempt < retries
    requires Walk(net, verify, attempt, url, acc, fuel).end.Faulted?
    requires var w := Walk(net, verify, attempt, url, acc, fuel).end;
             Resumes(Attempts(net, verify, retries, attempt + 1, w.at, w.collected, w.left).trace)
    ensures var w := Walk(net, verify, attempt, url, acc, fuel);
            var rest := Attempts(net, verify, retries, attempt + 1, w.end.at, w.end.collected, w.end.left);
            Resumes(w.trace + rest.trace)
  {
    var w := Walk(net, verify, attempt, url, acc, fuel);
    AttemptsStart(net, verify, retries, attempt + 1, w.end.at, w.end.collected, w.end.left);
    var rest := Attempts(net, verify, retries, attempt + 1, w.end.at, w.end.collected, w.end.left);
    ResumeAcross(w.trace, rest.trace, attempt, w.end.at);
  }

  lemma SingleAttemptResumes(t: seq<Req>, attempt: nat)
    requires forall i :: 0 <= i < |t| ==> t[i].attempt == attempt
    ensures Resumes(t)
  {
    forall i, j | 0 <= i < |t| && 0 <= j < |t| && j == i + 1
      ensures t[j].attempt == t[i].attempt
    {
    }
  }

  /** What a run returns is the collection the cursor leads to, behind the
      records already collected. */
  lemma {:induction false} AttemptsSound(net: Net, verify: bool, retries: int, attempt: nat,
                                         url: Json, acc: seq<Json>, fuel: nat)
    requires 1 <= attempt <= retries
    decreases retries - attempt
    ensures var r := Attempts(net, verify, retries, attempt, url, acc, fuel);
      r.outcome.Success? ==> Lift(acc, Chain(net.pages, url, fuel)) == Some(r.outcome.value)
  {
    AttemptsUnfold(net, verify, retries, attempt, url, acc, fuel);
    WalkSound(net, verify, attempt, url, acc, fuel);
    var w := Walk(net, verify, attempt, url, acc, fuel);
    if w.end.Faulted? && attempt < retries {
      AttemptsSound(net, verify, retries, attempt + 1, w.end.at, w.end.collected, w.end.left);
    }
  }

  /** A re-raised failure is the one the last request of attempt `retries` met. */
  predicate BlamesLast(net: Net, verify: bool, retries: int, r: Fetched) {
    r.outcome.Failure? && r.outcome.error.Raised? ==>
      && r.trace != [] && r.trace[|r.trace| - 1].attempt == retries
      && Request(net, verify, retries, r.trace[|r.trace| - 1].url) == Failure(r.outcome.error.fault)
  }

  /** A re-raised failure is the one the last attempt's last request met. */
  lemma {:induction false} AttemptsLastFault(net: Net, verify: bool, retries: int, attempt: nat,
                                             url: Json, acc: seq<Json>, fuel: nat)
    requires 1 <= attempt <= retries
    decreases retries - attempt
    ensures BlamesLast(net, verify, retries, Attempts(net, verify, retries, attempt, url, acc, fuel))
  {
    AttemptsUnfold(net, verify, retries, attempt, url, acc, fuel);
    var r := Attempts(net, verify, retries, attempt, url, acc, fuel);
    var w := Walk(net, verify, attempt, url, acc, fuel);
    if w.end.Faulted? && attempt < retries {
      var at := w.end.at;
      AttemptsLastFault(net, verify, retries, attempt + 1, at, w.end.collected, w.end.left);
      AttemptsStart(net, verify, retries, attempt + 1, at, w.end.collected, w.end.left);
      var rest := Attempts(net, verify, retries, attempt + 1, at, w.end.collected, w.end.left);
      LastFaultOfRetry(net, verify, retries, r, w.trace, rest);
    } else if r.outcome.Failure? && r.outcome.error.Raised? {
      assert w.end.Faulted? && attempt == retries && r.trace == w.trace;
      LastFaultOfFinal(net, verify, retries, r, w);
    }
  }

  /** A retried run re-raises what its rest re-raises, and ends with the rest's last request. */
  lemma LastFaultOfRetry(net: Net, verify: bool, retries: int, r: Fetched, first: seq<Req>, rest: Fetched)
    requires r.outcome == rest.outcome && r.trace == first + rest.trace && rest.trace != []
    requires BlamesLast(net, verify, retries, rest)
    ensures BlamesLast(net, verify, retries, r)
  {
    LastOfJoin(first, rest.trace);
  }

  /** A run whose only attempt re-raises its fault ends with the request that met it. */
  lemma LastFaultOfFinal(net: Net, verify: bool, retries: int, r: Fetched, w: Walked)
    requires r.outcome.Failure? && r.outcome.error.Raised? && w.end.Faulted?
    requires r.outcome.error.fault == w.end.fault && r.trace == w.trace
    requires w.trace != [] && w.trace[|w.trace| - 1].attempt == retries
    requires w.trace[|w.trace| - 1].url == w.end.at
    requires Request(net, verify, retries, w.end.at) == Failure(w.end.fault)
    ensures BlamesLast(net, verify, retries, r)
  {
  }

  /** A fault in attempt number `retries` is re-raised: there is no attempt left to retry it. */
  lemma LastAttemptRaises(net: Net, verify: bool, retries: int, url: Json, acc: seq<Json>, fuel: nat)
    requires 1 <= retries && Walk(net, verify, retries, url, acc, fuel).end.Faulted?
    ensures Attempts(net, verify, retries, retries, url, acc, fuel)
         == Fetched(Failure(Raised(Walk(net, verify, retries, url, acc, fuel).end.fault)), [],
                    Walk(net, verify, retries, url, acc, fuel).trace)
  {
  }

  /** Every request the network receives under this TLS setting fails with `f`. */
  ghost predicate AlwaysFails(net: Net, verify: bool, f: Fault) {
    forall attempt: nat, url: string :: net.fault(verify, attempt, url) == Some(f)
  }

  /**
   When every request fails with `f`, each attempt fails on its first
   request, every attempt but the last is retried from the same URL, and
   the last one re-raises `f`.
   */
  lemma {:induction false} AttemptsAllFail(net: Net, verify: bool, retries: int, attempt: nat,
                                           url: string, acc: seq<Json>, fuel: nat, f: Fault)
    requires 1 <= attempt <= retries && AlwaysFails(net, verify, f) && url != [] && fuel > 0
    ensures Attempts(net, verify, retries, attempt, JStr(url), acc, fuel).outcome == Failure(Raised(f))
    decreases retries - attempt
  {
    var w := Walk(net, verify, attempt, JStr(url), acc, fuel);
    assert Request(net, verify, attempt, JStr(url)) == Failure(f);
    assert w.end == Faulted(f, JStr(url), acc, fuel);
    if attempt < retries {
      AttemptsRetry(net, verify, retries, attempt, JStr(url), acc, fuel);
      AttemptsAllFail(net, verify, retries, attempt + 1, url, acc, fuel, f);
    } else {
      LastAttemptRaises(net, verify, retries, JStr(url), acc, fuel);
    }
  }

  /**
   A service every request to which fails with `f`: `fetch_all` sleeps
   after each of the first `retries - 1` attempts and then re-raises `f`.
   */
  lemma FetchAllUnreachable(net: Net, verify: bool, endpoint: string, base: string, retries: int, f: Fault)
    requires 1 <= retries && AlwaysFails(net, verify, f) && net.fuel > 0
    ensures FetchAll(net, verify, endpoint, base, retries).outcome == Failure(Raised(f))
    ensures FetchAll(net, verify, endpoint, base, retries).sleeps == seq(retries - 1, i => i + 1)
  {
    AttemptsAllFail(net, verify, retries, 1, CollectionUrl(base, endpoint), [], net.fuel, f);
    var r := FetchAll(net, verify, endpoint, base, retries);
    Counting(r.sleeps, retries - 1);
  }

  lemma Counting(s: seq<nat>, n: nat)
    requires |s| == n && forall i :: 0 <= i < |s| ==> s[i] == i + 1
    ensures s == seq(n, i => i + 1)
  {
  }

  lemma LastOfJoin<T>(a: seq<T>, b: seq<T>)
    requires b != []
    ensures a + b != [] && (a + b)[|a + b| - 1] == b[|b| - 1]
  {
  }

  /**
   `fetch_all` returns every record of the collection exactly once and in
   link order, whatever failed along the way: on success the result is the
   collection a never-failing network would serve. With `retries < 1` no
   request is made and the result is empty.
   */
  lemma FetchAllSound(net: Net, verify: bool, endpoint: string, base: string, retries: int)
    ensures var r := FetchAll(net, verify, endpoint, base, retries);
      && (r.outcome.Success? && retries >= 1 ==>
            Chain(net.pages, JStr(CollectionUrl(base, endpoint)), net.fuel) == Some(r.outcome.value))
      && (retries < 1 ==> r.trace == [] && r.outcome == Success([]))
  {
    var start := JStr(CollectionUrl(base, endpoint));
    if retries >= 1 {
      AttemptsSound(net, verify, retries, 1, start, [], net.fuel);
      var c := Chain(net.pages, start, net.fuel);
      if c.Some? {
        assert [] + c.value == c.value;
      }
    }
  }

  /** Attempts whose cursor still leads to a complete collection end with that collection
      when the last attempt sees no transport failure. */
  lemma {:induction false} AttemptsComplete(net: Net, verify: bool, retries: int, attempt: nat,
                                            url: Json, acc: seq<Json>, fuel: nat)
    requires 1 <= attempt <= retries
    requires Lift(acc, Chain(net.pages, url, fuel)).Some?
    requires forall u :: net.fault(verify, retries, u).None?
    ensures Attempts(net, verify, retries, attempt, url, acc, fuel).outcome
            == Success(Lift(acc, Chain(net.pages, url, fuel)).value)
    ensures (forall u :: net.fault(verify, attempt, u).None?) ==>
              Attempts(net, verify, retries, attempt, url, acc, fuel).sleeps == []
    decreases retries - attempt
  {
    AttemptsUnfold(net, verify, retries, attempt, url, acc, fuel);
    WalkSound(net, verify, attempt, url, acc, fuel);
    var w := Walk(net, verify, attempt, url, acc, fuel);
    if w.end.Faulted? {
      var at := w.end.at;
      ChainServed(net.pages, at, w.end.left);
      if attempt < retries {
        AttemptsComplete(net, verify, retries, attempt + 1, at, w.end.collected, w.end.left);
      }
    }
  }

  /** A cursor that leads to a complete collection names a page that is served. */
  lemma ChainServed(pages: map<string, Json>, url: Json, fuel: nat)
    requires Truthy(url) && Chain(pages, url, fuel).Some?
    ensures url.JStr? && url.s in pages
  {
  }

  /**
   A transient failure is survived: when the collection is complete and the
   last permitted attempt sees no transport failure, `fetch_all` returns the
   whole collection, each record once, however many earlier attempts failed
   and wherever they failed; with no failure at all it never sleeps.
   */
  lemma FetchAllRecovers(net: Net, verify: bool, endpoint: string, base: string, retries: int)
    requires retries >= 1
    requires Chain(net.pages, JStr(CollectionUrl(base, endpoint)), net.fuel).Some?
    requires forall u :: net.fault(verify, retries, u).None?
    ensures FetchAll(net, verify, endpoint, base, retries).outcome
            == Success(Chain(net.pages, JStr(CollectionUrl(base, endpoint)), net.fuel).value)
    ensures (forall u :: net.fault(verify, 1, u).None?) ==>
              FetchAll(net, verify, endpoint, base, retries).sleeps == []
  {
    var start := JStr(CollectionUrl(base, endpoint));
    assert Lift([], Chain(net.pages, start, net.fuel)).value == Chain(net.pages, start, net.fuel).value;
    AttemptsComplete(net, verify, retries, 1, start, [], net.fuel);
  }
}
