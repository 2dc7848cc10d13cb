# github-to-csv: the issue/epic join, in Dafny

github-to-csv exports the issues of a GitHub repository as CSV rows, enriched
with ZenHub data. The model covers the join that produces those rows:

- the pagination loop that collects every GitHub issue (`cmd/main.go`);
- the ZenHub client (`internal/zenhub/zenhub.go`):
  - `doRequest`, which waits out the rate limit and retries;
  - `GetEpics`, a two-step, all-or-nothing fetch of the epic map;
  - `GetIssueData`;
- the issue index (`makeIssueMap`) and the reverse index from a member issue to
  the GitHub issue of its epic (`makeIssueToEpicMap`);
- the row loop, which skips pull requests and builds one `Issue` row for every
  other issue.

Modules:

- `Common`: Go's error returns, as an `Outcome`:
  - `Ok`;
  - `Fail`, an error that `main` turns into `log.Fatal`;
  - `Panicked`, a nil dereference;
  - `Unfinished`: the run would still be going after the number of steps the
    model follows.
- `Numbers`: `strconv.ParseInt(s, 10, 64)` and `%d`, with their round trip.
- `Collections`: `LastByKey`, the map a `for … { m[key(x)] = x }` loop builds.
- `ZenHub`: the client. Each imperative function is a method, proved equal to a
  function of the network:
  - `DoRequest` against `Fetch`;
  - `GetEpics` against `EpicsOf`;
  - `GetIssueData`.
- `Cmd`: the join in `main`:
  - `ListAllIssues` against `Paginate`;
  - `MakeIssueMap` and `MakeIssueToEpicMap` against `LastByKey` and `ReverseIndex`;
  - `BuildRows` against `RowsOf`;
  - `Export`, the whole run, against `Exported`.

How the outside world is represented:

- **The network** is an `Http` value:
  - `newRequest` is `http.NewRequest`'s verdict on a URL.
  - `send(request, n)` is the answer to a request sent as the client's n-th
    exchange. This lets one path be answered differently over time.
  - `patience` bounds how many attempts of one request the model follows.
- **JSON decoding** is a `Json` value of decoders.
- **go-github's `ListByRepo`** is a function from page number to a `Page`.
- **Go's map iteration order** at `cmd/main.go:150` is unspecified, so it
  reaches the model as a parameter: `order`, or `visitOrder` in `Export`.
  Properties that must hold for every order are proved for every order.

## Model

| member | source | states |
|---|---|---|
| Common.Outcome.Propagate | internal/zenhub/zenhub.go:59-61 | Passing an error to a caller with another result type (`return nil, err`) keeps it an error of the same kind, with the same error value. |
| Numbers.ParseInt64 | internal/zenhub/zenhub.go:101 | A parsed reset time lies in the 64-bit range, and an empty header text is a parse error. |
| Numbers.ParseFormatRoundTrip | internal/zenhub/zenhub.go:101 | For every 64-bit integer, parsing the decimal text `%d` writes gives the number back. |
| Collections.LastByKey | cmd/main.go:137-143 | Defines the map a loop builds by writing every element under its key, first to last (the model of `makeIssueMap`). |
| Collections.LastByKeyDomain | cmd/main.go:137-143 | The map built by the loop has exactly the keys of the elements. Each value is one of the elements, stored under its own key. |
| Collections.LastByKeyLastWins | cmd/main.go:139-141 | An element with no later element of the same key is the value stored under that key (last write wins). |
| ZenHub.HeaderGet | internal/zenhub/zenhub.go:100-101 | Defines `Header.Get`: the first value under the key, or "" when the key is absent or has no value. |
| ZenHub.Exhausted | internal/zenhub/zenhub.go:100 | Defines exhaustion as the text of the Used header equalling the text of the Limit header. Two absent headers both read as "", so they count as exhausted. |
| ZenHub.NewRequest | internal/zenhub/zenhub.go:91-97 | Defines the request: GET on the API base plus the path, with the JSON content type and the client token as headers. |
| ZenHub.Decide | internal/zenhub/zenhub.go:99-117 | A nil response panics, because the header is read before the error is looked at. One loop iteration retries only on a response whose Used and Limit header texts are equal. It succeeds only when there is a response, no transport error, and the body decodes to the value returned. |
| ZenHub.Attempts | internal/zenhub/zenhub.go:90-121 | Every exchange but the last is followed by a wait. There is at most one wait per attempt. The request stays unfinished only when every attempt waited. |
| ZenHub.Fetch | internal/zenhub/zenhub.go:88-123 | Defines doRequest on a path as the retry loop over the request `NewRequest` builds, following `patience` attempts. |
| ZenHub.SettlesAfterWaits | internal/zenhub/zenhub.go:99-120 | Suppose the first k answers are retried (exhausted, with a reset time ParseInt reads) and the next is not retried. That answer may be nil, exhausted with an unreadable reset, or not exhausted. The request ends as that answer decides, after exactly k+1 exchanges. |
| ZenHub.WaitsUntilResets | internal/zenhub/zenhub.go:100-107 | On the way it waits exactly k times, each time until the reset time the retried answer gave, in order. |
| ZenHub.NeverGivesUp | internal/zenhub/zenhub.go:90-108 | A request whose every answer is retried (exhausted, with a reset time ParseInt reads) never ends with a value or an error. It uses one exchange per attempt. |
| ZenHub.ExhaustedRetriesUntilReset | internal/zenhub/zenhub.go:100-107 | An exhausted answer whose reset header `ParseInt` reads as a time (any sign, leading zeros or `%d` form) is retried after waiting until exactly that time, even if the transport reported an error. |
| ZenHub.ExhaustedRetriesUntilFormattedReset | internal/zenhub/zenhub.go:100-107 | In particular, a reset header holding a 64-bit time as `%d` writes it is retried after waiting until that time. |
| ZenHub.UnreadableResetFails | internal/zenhub/zenhub.go:100-105 | An exhausted answer whose reset header is not a 64-bit decimal ends the request with the parse error. |
| ZenHub.NoRateLimitHeadersFails | internal/zenhub/zenhub.go:100-105 | An answer with no rate-limit headers counts as exhausted. Its empty reset header cannot be parsed, so the request fails. |
| ZenHub.SettledAnswer | internal/zenhub/zenhub.go:110-120 | A non-exhausted answer ends the request: with the transport error if there is one, otherwise with what one decode of the body gives. |
| ZenHub.DoRequest | internal/zenhub/zenhub.go:88-123 | The retry loop ends as `Fetch` describes and waits for the same reset times. It uses the same number of exchanges. |
| ZenHub.FetchAll | internal/zenhub/zenhub.go:65-73 | Fetching item by item yields one value per item on success. The exchange count never goes back. |
| ZenHub.Renumbered | internal/zenhub/zenhub.go:71 | Each fetched epic detail carries the issue number of its list entry, in list order. Nothing else about it changes. |
| ZenHub.EpicsOf | internal/zenhub/zenhub.go:56-76 | Defines GetEpics. A failed list request propagates. Otherwise every detail is fetched in list order and the first failure propagates; on success the renumbered details are written into a map, last entry winning. |
| ZenHub.EpicsOfComplete | internal/zenhub/zenhub.go:63-75 | When GetEpics succeeds, the epic-list request succeeded and the map's keys are exactly the numbers of the list. Every epic's `IssueNumber` equals its key. |
| ZenHub.EpicsOfLastWins | internal/zenhub/zenhub.go:72 | When the list names an epic more than once, the map keeps the detail fetched for its last entry. |
| ZenHub.EpicsFromCollected | internal/zenhub/zenhub.go:65-75 | The loop fetches one detail at a time and writes each into the map. That ends as the batch description does: every detail fetched, then the map built in list order, or the first failure. |
| ZenHub.EpicsOfSteps | internal/zenhub/zenhub.go:56-76 | After a successful list request, GetEpics is the loop from the first entry with an empty map. |
| ZenHub.GetEpics | internal/zenhub/zenhub.go:56-76 | The method computes `EpicsOf`. A failed list request ends the call with that error, no map and no further exchange. |
| ZenHub.GetIssueData | internal/zenhub/zenhub.go:78-86 | Returns the decoded data of the issue's path, or the request's failure, after the exchanges doRequest made. |
| Cmd.Paginate | cmd/main.go:45-70 | Defines the pagination loop from a page. A failed page ends it with the GitHub error. A page naming next page 0 ends it with the issues gathered. Otherwise its issues come before those of the page it names. |
| Cmd.PaginateCompletes | cmd/main.go:45-70 | Each request asks for the page the previous answer named. If the first n answers name a next page and answer n names page 0, the result is all the pages' issues in fetch order. Pull requests are included. |
| Cmd.PaginateAborts | cmd/main.go:58-60 | If a page request fails, the run ends with that error and no issue list. |
| Cmd.PaginateUnfinished | cmd/main.go:49-70 | While every answer names a next page, the loop has not finished. |
| Cmd.ListAllIssues | cmd/main.go:45-70 | The pagination loop computes `Paginate` from page 0. |
| Cmd.MakeIssueMap | cmd/main.go:137-143 | The issue map has exactly the listed numbers as keys. Each key holds the last issue in list order with that number. |
| Cmd.Owner | cmd/main.go:152 | Defines `githubIssueMap[epic.IssueNumber]`: the epic's own GitHub issue, or None (nil) when that issue is not among the listed issues. |
| Cmd.ReverseIndex | cmd/main.go:145-157 | Defines the reverse index over epics in a given order: each epic in turn writes each of its members, mapped to its owner. |
| Cmd.Enlist | cmd/main.go:151-153 | Defines the inner loop: each member of one epic, in order, is written into the index, mapped to the same owner. |
| Cmd.EnlistAt | cmd/main.go:151-153 | The inner loop adds exactly the epic's member numbers, each mapped to the epic's owner. All other entries stay as they were. |
| Cmd.ReverseIndexKeys | cmd/main.go:150-154 | The reverse index has exactly the member numbers of all epics as keys. |
| Cmd.ReverseIndexLastWins | cmd/main.go:150-154 | A member listed by epic i and by no later epic maps to epic i's own GitHub issue. That is None when the epic's issue is not among the listed issues. |
| Cmd.ReverseIndexOwnedBy | cmd/main.go:150-154 | Every entry of the reverse index is the owner of some epic that lists that issue. |
| Cmd.Visit | cmd/main.go:150 | Visiting the epic map in a given order yields, position by position, the epic under each key. |
| Cmd.DisjointOwner | cmd/main.go:150-154 | If no issue belongs to two epics, then in any visit order a member of epic k maps to epic k's owner. |
| Cmd.ReverseIndexAgrees | cmd/main.go:150-154 | If no issue belongs to two epics, an entry made in one visit order is made, with the same owner, in any other order. |
| Cmd.ReverseIndexOrderFree | cmd/main.go:150-154 | If no issue belongs to two epics, the reverse index is the same for every visit order. |
| Cmd.OwningKey | cmd/main.go:150-154 | Every key of the reverse index is a member of some epic of the map. |
| Cmd.ReverseIndexVisitKeys | cmd/main.go:150-154 | In any visit order, a number is a key of the reverse index iff some epic of the map lists it. |
| Cmd.ReverseIndexVisitDomain | cmd/main.go:145-157 | The same, for all numbers at once. |
| Cmd.EnlistMembers | cmd/main.go:151-153 | The inner loop computes `Enlist`: every member, in order, mapped to the owner. |
| Cmd.MakeIssueToEpicMap | cmd/main.go:145-157 | The nested loops compute the reverse index of the issue map over the epics in the given order. Its keys are exactly the members of the epics. |
| Cmd.NonPullRequests | cmd/main.go:81-84 | An issue is kept iff it is in the list and is not a pull request. No more issues are kept than were listed. |
| Cmd.NonPullRequestsAppend | cmd/main.go:81-84 | Dropping pull requests keeps order: on a concatenation it gives the concatenation of the results. |
| Cmd.MakeIssue | cmd/main.go:91-116 | A row's fields are set as follows. Number, title, state and body are the issue's. The milestone is absent iff the issue has none, otherwise it is the milestone's title. The epic title and number are present iff the reverse index has a non-nil owner for the issue, and are then that owner's. `IsEpic` holds iff the number is a key of the epic map. Story points are always present and equal the fetched estimate. |
| Cmd.Rows | cmd/main.go:104-116 | One row per issue and its data, in order. |
| Cmd.RowsOf | cmd/main.go:79-117 | Defines the row loop. GetIssueData is fetched for every issue that is not a pull request, in order, and the first failure propagates. On success there is one `MakeIssue` row each. |
| Cmd.RowsOfSkip | cmd/main.go:82-84 | A pull request produces no row and no request. |
| Cmd.RowsOfFailed | cmd/main.go:86-89 | If the ZenHub data of an issue cannot be had, the run ends with that failure and no rows. |
| Cmd.RowsOfFetched | cmd/main.go:86-116 | An issue whose data came back puts its row before the rows of the issues after it. |
| Cmd.RowsFromRowsOf | cmd/main.go:79-117 | The loop's order of events gives the same result as the batch description. That description fetches the data of every issue that is not a pull request, in order, then builds one row each. |
| Cmd.BuildRows | cmd/main.go:79-117 | The row loop computes `RowsFrom` from the first issue with no rows. |
| Cmd.RowsOfRows | cmd/main.go:79-117 | On success there is exactly one row per non-pull-request issue, in order. Each row has that issue's number and story points. `IsEpic` holds iff the number is an epic key. The epic number is present iff the reverse index has a non-nil owner for it. |
| Cmd.Exported | cmd/main.go:45-117 | Defines the run. A failed listing propagates. Then a failed GetEpics propagates. Otherwise the result is the rows `RowsOf` builds with the reverse index over the epics in the given visit order. |
| Cmd.ExportedRows | cmd/main.go:45-117 | A successful run means the listing and GetEpics succeeded, with one row per non-pull-request issue in listing order. Each row has story points and `IsEpic` iff its number is an epic key. An epic number appears only on a member of some epic. |
| Cmd.Export | cmd/main.go:45-117 | The run is `Exported`. A failed listing ends it with that error, before any ZenHub request. A failed GetEpics ends it with that error. Otherwise the result is exactly the rows `RowsOf` builds from the listed issues, the reverse index over the epics in the given visit order, and the epics. So a failed GetIssueData ends the run with its error (`Cmd.RowsOfFailed`). |

## Left out

- HTTP, OAuth2 and go-github are represented by the `Http` and `ListByRepo` oracles. Header canonicalisation and the request's headers appear only as data in `NewRequest`.
- JSON decoding is represented by the `Json` decoders. A decode error leaves no partially filled record behind, because every caller discards the record on error.
- `time.Sleep`, `time.Now` and `time.Unix` are not modelled; a wait is recorded as the reset time it waits for.
- ZenHub.Attempts: `doRequest` retries forever. The model follows at most `Http.patience` attempts per request, and `Unfinished` means the source would still be retrying.
- Cmd.Paginate: the model follows at most `pages` page requests, and `Unfinished` means the source would still be paging.
- The configuration step is not modelled: environment variables and `strconv.Atoi` on the repository id (`cmd/main.go:28-33`). The repository id is a parameter.
- The output step is not modelled: `csvutil.Marshal`, file creation and writing (`cmd/main.go:119-133`). `Export` returns the rows instead.
- The constant owner and repository names, `State: "all"` and `PerPage: 1000` passed to `ListByRepo` belong to the `ListByRepo` oracle.
- `IsPullRequest()` is a field of the GitHub issue.
- GitHub's always-present fields (number, title, state, milestone title) are plain values rather than pointers.
- ZenHub.GetIssueData: on error the source also returns a zero `IssueData`. The model returns only the failure, because the caller ends the run without reading it.
- `resp.Body.Close()` is not modelled. This includes the bodies the source leaves open on retries and on decode errors.
- Go's fixed-width `int` and `uint` are unbounded integers here. The only width that matters is the 64-bit reset time, and that one is modelled.
- A nil response with a transport error dereferences `resp` at `internal/zenhub/zenhub.go:100` before `err` is checked. The model keeps that order, and the outcome is `Panicked`.
