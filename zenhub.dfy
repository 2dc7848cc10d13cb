/** The ZenHub client of internal/zenhub/zenhub.go: a request loop that
    waits out the rate limit and retries, the two-step epic fetch and the
    per-issue fetch. The network and the JSON decoder are oracles: the
    model decides, from what they answer, what the client does next. */
module ZenHub {
  import opened Common
  import opened Numbers
  import opened Collections

  const ZenHubApi := "https://api.zenhub.com"

  /** `fmt.Sprintf(IssuesPath, repoId, issueNumber)`. */
  function IssuesPath(repoId: int, issueNumber: int): string
  {
    "/p1/repositories/" + FormatInt(repoId) + "/issues/" + FormatInt(issueNumber)
  }

  /** `fmt.Sprintf(EpicsListPath, repoId)`. */
  function EpicsListPath(repoId: int): string
  {
    "/p1/repositories/" + FormatInt(repoId) + "/epics"
  }

  /** `fmt.Sprintf(EpicPath, repoId, issueNumber)`. */
  function EpicPath(repoId: int, issueNumber: int): string
  {
    "/p1/repositories/" + FormatInt(repoId) + "/epics/" + FormatInt(issueNumber)
  }

  /** ZenHub's data for one issue; `estimate` is `Estimate.Value`, a Go `uint`. */
  datatype IssueData = IssueData(issueNumber: int, estimate: nat, isEpic: bool)

  /** One epic: the number of its own issue, its estimates and its member issues. */
  datatype EpicData = EpicData(issueNumber: int, totalEpicEstimates: nat, estimate: nat, issues: seq<IssueData>)

  /** One entry of the epic-list response. */
  datatype EpicListEntry = EpicListEntry(issueNumber: int, repoId: int)

  function EpicNumber(e: EpicData): int { e.issueNumber }

  function MemberNumber(d: IssueData): int { d.issueNumber }

  function EntryNumber(e: EpicListEntry): int { e.issueNumber }

  /** HTTP headers under their canonical names, as Go's `http.Header` keeps them. */
  type Header = map<string, seq<string>>

  /** `Header.Get`: the first value under the key, or "" when there is none. */
  function HeaderGet(h: Header, key: string): string
  {
    if key in h && |h[key]| > 0 then h[key][0] else ""
  }

  /** The canonical forms under which `Header.Get` looks up
      `X-RateLimit-Used`, `X-RateLimit-Limit` and `X-RateLimit-Reset`. */
  const UsedKey := "X-Ratelimit-Used"
  const LimitKey := "X-Ratelimit-Limit"
  const ResetKey := "X-Ratelimit-Reset"

  datatype Request = Request(verb: string, url: string, header: Header)
  datatype Response = Response(header: Header, body: string)

  /** What `http.DefaultClient.Do` hands back: a response (nil or not) and an error (nil or not). */
  datatype Exchange = Exchange(resp: Option<Response>, err: Option<Error>)

  /** The network, seen by the client.
      `newRequest` is `http.NewRequest`'s verdict on a URL;
      `send(r, n)` is the answer to request `r` when it is the client's
      n-th exchange of the run (counting from 0);
      `patience` is how many attempts of one request the model follows. */
  datatype Http = Http(newRequest: string -> Option<Error>, send: (Request, nat) -> Exchange, patience: nat)

  /** What the JSON decoder makes of a body. */
  datatype Decoded<T> = Decoded(value: T) | Malformed(detail: string)

  /** The JSON decoder, one entry per target type. */
  datatype Json = Json(
    epicList: string -> Decoded<seq<EpicListEntry>>,
    epic: string -> Decoded<EpicData>,
    issue: string -> Decoded<IssueData>)

  /** The `Client` struct: only the API token. */
  datatype Client = Client(token: string)

  /** The request `doRequest` builds for a path. */
  function NewRequest(c: Client, path: string): Request
  {
    Request("GET", ZenHubApi + path,
      map["Content-Type" := ["application/json"], "X-Authentication-Token" := [c.token]])
  }

  /** The quota is used up when the Used header's text equals the Limit
      header's text; two absent headers read as "" and so count too. */
  predicate Exhausted(h: Header)
  {
    HeaderGet(h, UsedKey) == HeaderGet(h, LimitKey)
  }

  /** The end of a request whose body was decoded. */
  function Decoding<T>(d: Decoded<T>): Outcome<T>
  {
    match d
    case Malformed(detail) => Fail(DecodeError(detail))
    case Decoded(v) => Ok(v)
  }

  /** What one iteration of doRequest's loop does with an answer: wait until
      the given reset time and send the same request again, or end. */
  datatype Verdict<T> = Retry(resetAt: int) | Settle(outcome: Outcome<T>)

  /** One iteration of doRequest, after the request was sent. The response
      is dereferenced before the error is looked at, so a nil response
      panics; an exhausted response is retried (or fails on an unreadable
      reset time) whatever the error says; only then come the transport
      error and the decoding of the body. */
  function Decide<T>(x: Exchange, decode: string -> Decoded<T>): (v: Verdict<T>)
    ensures x.resp.None? ==> v == Settle(Panicked)
    ensures v.Retry? ==> x.resp.Some? && Exhausted(x.resp.value.header)
    ensures v.Settle? && v.outcome.Ok? ==> x.resp.Some? && x.err.None? && decode(x.resp.value.body) == Decoded(v.outcome.value)
  {
    match x.resp
    case None => Settle(Panicked)
    case Some(resp) =>
      if Exhausted(resp.header) then
        match ParseInt64(HeaderGet(resp.header, ResetKey))
        case None => Settle(Fail(NumberError(HeaderGet(resp.header, ResetKey))))
        case Some(t) => Retry(t)
      else if x.err.Some? then Settle(Fail(x.err.value))
      else Settle(Decoding(decode(resp.body)))
  }

  /** What a call of doRequest ends with, the reset times it waited for, one
      per retried answer, and the exchange count after it. */
  datatype Trace<T> = Trace(outcome: Outcome<T>, waits: seq<int>, sent: nat)

  /** doRequest's loop from exchange number `sent`, with `left` attempts to go. */
  function Attempts<T>(http: Http, req: Request, decode: string -> Decoded<T>, sent: nat, left: nat): (t: Trace<T>)
    ensures sent + |t.waits| <= t.sent <= sent + |t.waits| + 1
    ensures |t.waits| <= left
    ensures t.outcome.Unfinished? ==> |t.waits| == left
    decreases left
  {
    if left == 0 then Trace(Unfinished, [], sent)
    else if http.newRequest(req.url).Some? then Trace(Fail(http.newRequest(req.url).value), [], sent)
    else
      match Decide(http.send(req, sent), decode)
      case Settle(o) => Trace(o, [], sent + 1)
      case Retry(at) =>
        var rest := Attempts(http, req, decode, sent + 1, left - 1);
        Trace(rest.outcome, [at] + rest.waits, rest.sent)
  }

  /** doRequest(path, response), as a function of the network. */
  function Fetch<T>(http: Http, c: Client, path: string, decode: string -> Decoded<T>, sent: nat): Trace<T>
  {
    Attempts(http, NewRequest(c, path), decode, sent, http.patience)
  }

  /** The verdict of the n-th exchange on a request. */
  function VerdictAt<T>(http: Http, req: Request, decode: string -> Decoded<T>, n: nat): Verdict<T>
  {
    Decide(http.send(req, n), decode)
  }

  /** The reset times of the run of retried answers (exhausted, with a reset
      time ParseInt reads) to the exchanges from number `sent` on, at most k
      of them. */
  function ResetTimes<T>(http: Http, req: Request, decode: string -> Decoded<T>, sent: nat, k: nat): seq<int>
    decreases k
  {
    if k == 0 then []
    else match VerdictAt(http, req, decode, sent)
      case Retry(at) => [at] + ResetTimes(http, req, decode, sent + 1, k - 1)
      case Settle(_) => []
  }

  /** A request whose first k answers are retried (exhausted, with a reset
      time ParseInt reads) and whose next one is not retried ends as that
      one says, after exactly k + 1 exchanges. The answer that is not
      retried may be a nil response, an exhausted one with an unreadable
      reset time, or one that is not exhausted. */
  lemma {:induction false} SettlesAfterWaits<T>(http: Http, req: Request, decode: string -> Decoded<T>, sent: nat, left: nat, k: nat)
    requires k < left
    requires http.newRequest(req.url).None?
    requires forall n :: sent <= n < sent + k ==> VerdictAt(http, req, decode, n).Retry?
    requires VerdictAt(http, req, decode, sent + k).Settle?
    ensures Attempts(http, req, decode, sent, left).outcome == VerdictAt(http, req, decode, sent + k).outcome
    ensures Attempts(http, req, decode, sent, left).sent == sent + k + 1
    decreases k
  {
    if k > 0 {
      assert VerdictAt(http, req, decode, sent).Retry?;
      SettlesAfterWaits(http, req, decode, sent + 1, left - 1, k - 1);
      assert sent + 1 + (k - 1) == sent + k;
    }
  }

  /** On the way, it waits once per retried answer, each time until the
      reset time that answer gave. */
  lemma {:induction false} WaitsUntilResets<T>(http: Http, req: Request, decode: string -> Decoded<T>, sent: nat, left: nat, k: nat)
    requires k < left
    requires http.newRequest(req.url).None?
    requires forall n :: sent <= n < sent + k ==> VerdictAt(http, req, decode, n).Retry?
    requires VerdictAt(http, req, decode, sent + k).Settle?
    ensures Attempts(http, req, decode, sent, left).waits == ResetTimes(http, req, decode, sent, k)
    ensures |Attempts(http, req, decode, sent, left).waits| == k
    decreases k
  {
    var v := VerdictAt(http, req, decode, sent);
    if k == 0 {
      assert v.Settle?;
    } else {
      assert v.Retry?;
      WaitsUntilResets(http, req, decode, sent + 1, left - 1, k - 1);
      var rest := Attempts(http, req, decode, sent + 1, left - 1);
      assert Attempts(http, req, decode, sent, left).waits == [v.resetAt] + rest.waits;
    }
  }

  /** A request whose every answer is retried (exhausted, with a reset time
      ParseInt reads) is never given up: the model leaves it unfinished after
      one wait per attempt it follows. An exhausted answer with an unreadable
      reset time ends it instead (UnreadableResetFails). */
  lemma {:induction false} NeverGivesUp<T>(http: Http, req: Request, decode: string -> Decoded<T>, sent: nat, left: nat)
    requires http.newRequest(req.url).None?
    requires forall n :: sent <= n < sent + left ==> VerdictAt(http, req, decode, n).Retry?
    ensures Attempts(http, req, decode, sent, left).outcome == Unfinished
    ensures Attempts(http, req, decode, sent, left).sent == sent + left
    decreases left
  {
    if left > 0 {
      assert VerdictAt(http, req, decode, sent).Retry?;
      NeverGivesUp(http, req, decode, sent + 1, left - 1);
    }
  }

  /** An exhausted answer whose reset header reads as the 64-bit time `at`
      is retried after waiting until exactly that time, even when the
      transport also reported an error. */
  lemma ExhaustedRetriesUntilReset<T>(h: Header, body: string, err: Option<Error>, decode: string -> Decoded<T>, at: int)
    requires Exhausted(h)
    requires ParseInt64(HeaderGet(h, ResetKey)) == Some(at)
    ensures Decide(Exchange(Some(Response(h, body)), err), decode) == Retry(at)
  {
  }

  /** In particular when the reset header holds the time as `%d` writes it. */
  lemma ExhaustedRetriesUntilFormattedReset<T>(h: Header, body: string, err: Option<Error>, decode: string -> Decoded<T>, at: int)
    requires Exhausted(h)
    requires Int64Min <= at <= Int64Max
    requires ResetKey in h && |h[ResetKey]| > 0 && h[ResetKey][0] == FormatInt(at)
    ensures Decide(Exchange(Some(Response(h, body)), err), decode) == Retry(at)
  {
    ParseFormatRoundTrip(at);
    ExhaustedRetriesUntilReset(h, body, err, decode, at);
  }

  /** An exhausted answer whose reset header is not a 64-bit decimal ends
      the request with the parse error, whatever the transport said. */
  lemma UnreadableResetFails<T>(h: Header, body: string, err: Option<Error>, decode: string -> Decoded<T>)
    requires Exhausted(h)
    requires ParseInt64(HeaderGet(h, ResetKey)).None?
    ensures Decide(Exchange(Some(Response(h, body)), err), decode) == Settle(Fail(NumberError(HeaderGet(h, ResetKey))))
  {
  }

  /** An answer without any rate-limit header counts as exhausted, and its
      empty reset header cannot be read: the request fails with a number error. */
  lemma NoRateLimitHeadersFails<T>(h: Header, body: string, err: Option<Error>, decode: string -> Decoded<T>)
    requires UsedKey !in h && LimitKey !in h && ResetKey !in h
    ensures Decide(Exchange(Some(Response(h, body)), err), decode) == Settle(Fail(NumberError("")))
  {
  }

  /** A non-exhausted answer ends the request: with the transport error if
      there is one, otherwise with the decoding error, otherwise with the
      decoded value. */
  lemma {:induction false} SettledAnswer<T>(x: Exchange, decode: string -> Decoded<T>)
    requires x.resp.Some? && !Exhausted(x.resp.value.header)
    ensures Decide(x, decode).Settle?
    ensures x.err.Some? ==> Decide(x, decode).outcome == Fail(x.err.value)
    ensures x.err.None? ==> Decide(x, decode).outcome == Decoding(decode(x.resp.value.body))
  {
  }

  /** Adds the waits of earlier iterations in front of a trace. */
  function AfterWaits<T>(waits: seq<int>, t: Trace<T>): Trace<T>
  {
    Trace(t.outcome, waits + t.waits, t.sent)
  }

  /** doRequest: send the request until an answer is not retried, waiting
      for the reset time in between. `sent0` counts the exchanges made before. */
  method DoRequest<T>(http: Http, c: Client, path: string, decode: string -> Decoded<T>, sent0: nat)
    returns (outcome: Outcome<T>, waits: seq<int>, sent: nat)
    ensures Trace(outcome, waits, sent) == Fetch(http, c, path, decode, sent0)
  {
    var req := NewRequest(c, path);
    ghost var whole := Attempts(http, req, decode, sent0, http.patience);
    waits, sent := [], sent0;
    var left := http.patience;
    while left > 0
      invariant whole == AfterWaits(waits, Attempts(http, req, decode, sent, left))
    {
      var err := http.newRequest(req.url);
      if err.Some? {
        return Fail(err.value), waits, sent;
      }
      var verdict := Decide(http.send(req, sent), decode);
      assert Attempts(http, req, decode, sent, left) ==
        if verdict.Settle? then Trace(verdict.outcome, [], sent + 1)
        else AfterWaits([verdict.resetAt], Attempts(http, req, decode, sent + 1, left - 1));
      sent := sent + 1;
      if verdict.Settle? {
        return verdict.outcome, waits, sent;
      }
      // time.Sleep until the reset time, then the same request again
      assert waits + ([verdict.resetAt] + Attempts(http, req, decode, sent, left - 1).waits)
          == (waits + [verdict.resetAt]) + Attempts(http, req, decode, sent, left - 1).waits;
      waits := waits + [verdict.resetAt];
      left := left - 1;
    }
    outcome := Unfinished;
  }

  /** One request per item, in order, each with doRequest: the decoded
      values, one per item, or the first request that does not succeed. */
  function FetchAll<X, T>(http: Http, c: Client, items: seq<X>, pathOf: X -> string, decode: string -> Decoded<T>, sent: nat)
    : (r: (Outcome<seq<T>>, nat))
    ensures r.1 >= sent
    ensures r.0.Ok? ==> |r.0.value| == |items|
    decreases |items|
  {
    if items == [] then (Ok([]), sent)
    else
      var t := Fetch(http, c, pathOf(items[0]), decode, sent);
      if !t.outcome.Ok? then (t.outcome.Propagate(), t.sent)
      else
        var rest := FetchAll(http, c, items[1..], pathOf, decode, t.sent);
        (if rest.0.Ok? then Ok([t.outcome.value] + rest.0.value) else rest.0, rest.1)
  }

  /** Puts the values fetched so far in front of what the remaining items give. */
  function AfterFetched<T>(got: seq<T>, r: (Outcome<seq<T>>, nat)): (Outcome<seq<T>>, nat)
  {
    (if r.0.Ok? then Ok(got + r.0.value) else r.0, r.1)
  }

  lemma AfterNothing<T>(r: (Outcome<seq<T>>, nat))
    ensures AfterFetched([], r) == r
  {
    if r.0.Ok? { assert [] + r.0.value == r.0.value; }
  }

  /** One more item fetched: the loop invariant of a fetch-per-item loop
      carries over. */
  lemma FetchedOneMore<X, T>(http: Http, c: Client, items: seq<X>, pathOf: X -> string, decode: string -> Decoded<T>,
                             sent: nat, got: seq<T>)
    requires items != []
    requires Fetch(http, c, pathOf(items[0]), decode, sent).outcome.Ok?
    ensures var t := Fetch(http, c, pathOf(items[0]), decode, sent);
      AfterFetched(got, FetchAll(http, c, items, pathOf, decode, sent))
      == AfterFetched(got + [t.outcome.value], FetchAll(http, c, items[1..], pathOf, decode, t.sent))
  {
    var t := Fetch(http, c, pathOf(items[0]), decode, sent);
    var rest := FetchAll(http, c, items[1..], pathOf, decode, t.sent);
    if rest.0.Ok? { assert got + ([t.outcome.value] + rest.0.value) == (got + [t.outcome.value]) + rest.0.value; }
  }

  /** A failed request ends a fetch-per-item loop with that failure. */
  lemma FetchFailedHere<X, T>(http: Http, c: Client, items: seq<X>, pathOf: X -> string, decode: string -> Decoded<T>,
                              sent: nat, got: seq<T>)
    requires items != []
    requires !Fetch(http, c, pathOf(items[0]), decode, sent).outcome.Ok?
    ensures var t := Fetch(http, c, pathOf(items[0]), decode, sent);
      AfterFetched(got, FetchAll(http, c, items, pathOf, decode, sent)) == (t.outcome.Propagate(), t.sent)
  {
  }

  /** The path of an epic's detail, per entry of the epic list. */
  function EpicPathOf(repoId: int): EpicListEntry -> string
  {
    (e: EpicListEntry) => EpicPath(repoId, e.issueNumber)
  }

  /** The details in list order, each with its number replaced by that of
      its list entry (zenhub.go sets `epic.IssueNumber` after decoding). */
  function Renumbered(details: seq<EpicData>, list: seq<EpicListEntry>): (r: seq<EpicData>)
    requires |details| == |list|
    ensures |r| == |list|
    ensures forall i :: 0 <= i < |r| ==> r[i] == details[i].(issueNumber := list[i].issueNumber)
  {
    if list == [] then []
    else Renumbered(details[..|details| - 1], list[..|list| - 1])
         + [details[|details| - 1].(issueNumber := list[|list| - 1].issueNumber)]
  }

  /** GetEpics as a function of the network: the epic list, then every
      epic's detail, collected into a map in list order. */
  function EpicsOf(http: Http, json: Json, c: Client, repoId: int, sent: nat): (Outcome<map<int, EpicData>>, nat)
  {
    var listing := Fetch(http, c, EpicsListPath(repoId), json.epicList, sent);
    if !listing.outcome.Ok? then (listing.outcome.Propagate(), listing.sent)
    else
      var list := listing.outcome.value;
      Collected(list, FetchAll(http, c, list, EpicPathOf(repoId), json.epic, listing.sent))
  }

  /** No partial result: when GetEpics succeeds its keys are exactly the
      numbers of the epic list, and every epic carries its key as its number. */
  lemma EpicsOfComplete(http: Http, json: Json, c: Client, repoId: int, sent: nat)
    ensures EpicsOf(http, json, c, repoId, sent).0.Ok? ==>
      && Fetch(http, c, EpicsListPath(repoId), json.epicList, sent).outcome.Ok?
      && EpicsOf(http, json, c, repoId, sent).0.value.Keys
         == KeysOf(Fetch(http, c, EpicsListPath(repoId), json.epicList, sent).outcome.value, EntryNumber)
    ensures EpicsOf(http, json, c, repoId, sent).0.Ok? ==>
      forall k :: k in EpicsOf(http, json, c, repoId, sent).0.value ==> EpicsOf(http, json, c, repoId, sent).0.value[k].issueNumber == k
  {
    var listing := Fetch(http, c, EpicsListPath(repoId), json.epicList, sent);
    if listing.outcome.Ok? {
      var list := listing.outcome.value;
      var details := FetchAll(http, c, list, EpicPathOf(repoId), json.epic, listing.sent);
      if details.0.Ok? {
        var got := Renumbered(details.0.value, list);
        LastByKeyDomain(got, EpicNumber);
        assert KeysOf(got, EpicNumber) == KeysOf(list, EntryNumber) by {
          forall k ensures k in KeysOf(got, EpicNumber) <==> k in KeysOf(list, EntryNumber) {
            if k in KeysOf(got, EpicNumber) {
              var i :| 0 <= i < |got| && EpicNumber(got[i]) == k;
              assert list[i].issueNumber == k;
            }
            if k in KeysOf(list, EntryNumber) {
              var i :| 0 <= i < |list| && list[i].issueNumber == k;
              assert EpicNumber(got[i]) == k;
            }
          }
        }
      }
    }
  }

  /** When the list names an epic more than once, the detail fetched for
      its last entry is the one kept. */
  lemma EpicsOfLastWins(http: Http, json: Json, c: Client, repoId: int, sent: nat, list: seq<EpicListEntry>, i: int)
    requires Fetch(http, c, EpicsListPath(repoId), json.epicList, sent).outcome == Ok(list)
    requires FetchAll(http, c, list, EpicPathOf(repoId), json.epic, Fetch(http, c, EpicsListPath(repoId), json.epicList, sent).sent).0.Ok?
    requires 0 <= i < |list|
    requires forall j :: i < j < |list| ==> list[j].issueNumber != list[i].issueNumber
    ensures EpicsOf(http, json, c, repoId, sent).0.Ok?
    ensures list[i].issueNumber in EpicsOf(http, json, c, repoId, sent).0.value
    ensures EpicsOf(http, json, c, repoId, sent).0.value[list[i].issueNumber]
         == FetchAll(http, c, list, EpicPathOf(repoId), json.epic, Fetch(http, c, EpicsListPath(repoId), json.epicList, sent).sent)
            .0.value[i].(issueNumber := list[i].issueNumber)
  {
    var raw := FetchAll(http, c, list, EpicPathOf(repoId), json.epic, Fetch(http, c, EpicsListPath(repoId), json.epicList, sent).sent).0.value;
    var got := Renumbered(raw, list);
    forall j | i < j < |got| ensures EpicNumber(got[j]) != EpicNumber(got[i]) {
    }
    LastByKeyLastWins(got, EpicNumber, i);
  }

  /** GetEpics's loop over the epic list, one entry at a time from entry i
      on, with the map built so far: the loop's own order of events. */
  function EpicsFrom(http: Http, json: Json, c: Client, repoId: int, list: seq<EpicListEntry>,
                     i: nat, epics: map<int, EpicData>, sent: nat): (Outcome<map<int, EpicData>>, nat)
    requires i <= |list|
    decreases |list| - i
  {
    if i == |list| then (Ok(epics), sent)
    else
      var t := Fetch(http, c, EpicPath(repoId, list[i].issueNumber), json.epic, sent);
      if !t.outcome.Ok? then (t.outcome.Propagate(), t.sent)
      else EpicsFrom(http, json, c, repoId, list, i + 1,
                     epics[list[i].issueNumber := t.outcome.value.(issueNumber := list[i].issueNumber)], t.sent)
  }

  /** The epic map made of a run of details, one per list entry, or the
      failure that ended the run. */
  function Collected(list: seq<EpicListEntry>, fetched: (Outcome<seq<EpicData>>, nat)): (Outcome<map<int, EpicData>>, nat)
    requires fetched.0.Ok? ==> |fetched.0.value| == |list|
  {
    if fetched.0.Ok? then (Ok(LastByKey(Renumbered(fetched.0.value, list), EpicNumber)), fetched.1)
    else (fetched.0.Propagate(), fetched.1)
  }

  /** One more detail written into the epic map. */
  lemma RenumberedOneMore(got: seq<EpicData>, list: seq<EpicListEntry>, i: int, v: EpicData)
    requires |got| == i < |list|
    ensures LastByKey(Renumbered(got + [v], list[..i + 1]), EpicNumber)
         == LastByKey(Renumbered(got, list[..i]), EpicNumber)[list[i].issueNumber := v.(issueNumber := list[i].issueNumber)]
  {
    assert (got + [v])[..i] == got && list[..i + 1][..i] == list[..i];
    var renumbered := v.(issueNumber := list[i].issueNumber);
    assert Renumbered(got + [v], list[..i + 1]) == Renumbered(got, list[..i]) + [renumbered];
    LastByKeySnoc(Renumbered(got, list[..i]), renumbered, EpicNumber);
  }

  /** The loop's order of events gives what the batch description gives:
      every detail fetched, then all written into the map in list order. */
  lemma {:induction false} EpicsFromCollected(http: Http, json: Json, c: Client, repoId: int, list: seq<EpicListEntry>,
                                              i: nat, got: seq<EpicData>, sent: nat)
    requires i <= |list| && |got| == i
    ensures EpicsFrom(http, json, c, repoId, list, i, LastByKey(Renumbered(got, list[..i]), EpicNumber), sent)
         == Collected(list, AfterFetched(got, FetchAll(http, c, list[i..], EpicPathOf(repoId), json.epic, sent)))
    decreases |list| - i
  {
    var rest := list[i..];
    if i == |list| {
      assert rest == [] && got + [] == got && list[..i] == list;
    } else {
      assert rest[0] == list[i] && rest[1..] == list[i + 1..];
      assert EpicPathOf(repoId)(rest[0]) == EpicPath(repoId, list[i].issueNumber);
      var t := Fetch(http, c, EpicPath(repoId, list[i].issueNumber), json.epic, sent);
      if !t.outcome.Ok? {
        FetchFailedHere(http, c, rest, EpicPathOf(repoId), json.epic, sent, got);
        PropagateTwice<EpicData, seq<EpicData>, map<int, EpicData>>(t.outcome);
      } else {
        RenumberedOneMore(got, list, i, t.outcome.value);
        FetchedOneMore(http, c, rest, EpicPathOf(repoId), json.epic, sent, got);
        EpicsFromCollected(http, json, c, repoId, list, i + 1, got + [t.outcome.value], t.sent);
      }
    }
  }

  /** After a successful list request, EpicsOf is the loop's order of events
      from the first entry with an empty map. */
  lemma EpicsOfSteps(http: Http, json: Json, c: Client, repoId: int, sent: nat)
    ensures var listing := Fetch(http, c, EpicsListPath(repoId), json.epicList, sent);
      listing.outcome.Ok? ==>
        EpicsOf(http, json, c, repoId, sent) == EpicsFrom(http, json, c, repoId, listing.outcome.value, 0, map[], listing.sent)
  {
    var listing := Fetch(http, c, EpicsListPath(repoId), json.epicList, sent);
    if listing.outcome.Ok? {
      var list := listing.outcome.value;
      EpicsFromCollected(http, json, c, repoId, list, 0, [], listing.sent);
      assert list[0..] == list && list[..0] == [];
      AfterNothing(FetchAll(http, c, list, EpicPathOf(repoId), json.epic, listing.sent));
    }
  }

  /** GetEpics: fetch the epic list, then each epic's detail; any request
      that does not succeed ends the call without a map. `sent0` counts the
      exchanges made before. */
  method GetEpics(http: Http, json: Json, c: Client, repoId: int, sent0: nat)
    returns (r: Outcome<map<int, EpicData>>, sent: nat)
    ensures (r, sent) == EpicsOf(http, json, c, repoId, sent0)
    ensures var listing := Fetch(http, c, EpicsListPath(repoId), json.epicList, sent0);
      !listing.outcome.Ok? ==> r == listing.outcome.Propagate() && sent == listing.sent
  {
    var listed, _, afterList := DoRequest(http, c, EpicsListPath(repoId), json.epicList, sent0);
    sent := afterList;
    if !listed.Ok? {
      return listed.Propagate(), sent;
    }
    var list := listed.value;
    EpicsOfSteps(http, json, c, repoId, sent0);
    ghost var whole := EpicsFrom(http, json, c, repoId, list, 0, map[], afterList);
    var epics: map<int, EpicData> := map[];
    var i := 0;
    while i < |list|
      invariant 0 <= i <= |list|
      invariant EpicsFrom(http, json, c, repoId, list, i, epics, sent) == whole
    {
      var entry := list[i];
      var epic, _, s := DoRequest(http, c, EpicPath(repoId, entry.issueNumber), json.epic, sent);
      if !epic.Ok? {
        return epic.Propagate(), s;
      }
      sent := s;
      epics := epics[entry.issueNumber := epic.value.(issueNumber := entry.issueNumber)];
      i := i + 1;
    }
    r := Ok(epics);
  }

  /** GetIssueData: ZenHub's data for one issue, or the request's failure. */
  method GetIssueData(http: Http, json: Json, c: Client, repoId: int, issueNumber: int, sent0: nat)
    returns (r: Outcome<IssueData>, sent: nat)
    ensures var t := Fetch(http, c, IssuesPath(repoId, issueNumber), json.issue, sent0);
      r == t.outcome && sent == t.sent
  {
    var data, _, s := DoRequest(http, c, IssuesPath(repoId, issueNumber), json.issue, sent0);
    r, sent := data, s;
  }
}
