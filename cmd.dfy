/** The join of cmd/main.go: page through the repository's GitHub issues,
    index them by number, build the reverse index from member issue to the
    GitHub issue of its epic, and turn every issue that is not a pull
    request into one exported row. */
module Cmd {
  import opened Common
  import opened Collections
  import opened ZenHub

  datatype Milestone = Milestone(title: string)

  /** The fields of a go-github `Issue` that the join reads. Whether it is a
      pull request is go-github's `IsPullRequest()`, taken as given. */
  datatype GitHubIssue = GitHubIssue(
    number: int, title: string, state: string, milestone: Option<Milestone>,
    body: Option<string>, isPullRequest: bool)

  /** The exported `Issue` record: one row of the output. */
  datatype Issue = Issue(
    number: int, title: string, state: string, milestone: Option<string>, body: Option<string>,
    epicTitle: Option<string>, epicNumber: Option<int>, isEpic: bool, storyPoints: Option<nat>)

  /** What `ListByRepo` answers for one page: an error, or the page's issues
      and the number of the next page (0 when there is none). */
  datatype Page = PageFailed(detail: string) | Page(issues: seq<GitHubIssue>, nextPage: int)

  /** The repository's issue listing, by requested page number. */
  type ListByRepo = int -> Page

  // ---------------------------------------------------------------------
  // Pagination

  /** The pagination loop from page `page`, following at most `pages` pages. */
  function Paginate(list: ListByRepo, page: int, pages: nat): Outcome<seq<GitHubIssue>>
    decreases pages
  {
    if pages == 0 then Unfinished
    else
      match list(page)
      case PageFailed(d) => Fail(GitHubError(d))
      case Page(items, next) =>
        if next == 0 then Ok(items)
        else
          var rest := Paginate(list, next, pages - 1);
          if rest.Ok? then Ok(items + rest.value) else rest
  }

  function NextOf(p: Page): int { if p.Page? then p.nextPage else 0 }

  function ItemsOf(p: Page): seq<GitHubIssue> { if p.Page? then p.issues else [] }

  /** A page answer after which the loop asks for another page. */
  predicate Continues(p: Page) { p.Page? && p.nextPage != 0 }

  /** The page number of the k-th request when every request asks for the
      page the previous answer named. */
  function PageAt(list: ListByRepo, start: int, k: nat): int
    decreases k
  {
    if k == 0 then start else PageAt(list, NextOf(list(start)), k - 1)
  }

  /** The issues of the first k pages of that chain, in fetch order. */
  function Gathered(list: ListByRepo, start: int, k: nat): seq<GitHubIssue>
    decreases k
  {
    if k == 0 then [] else ItemsOf(list(start)) + Gathered(list, NextOf(list(start)), k - 1)
  }

  /** When the first n answers name a next page and answer n names page 0,
      the loop returns the issues of those n + 1 pages, concatenated in
      fetch order, pull requests included. */
  lemma {:induction false} PaginateCompletes(list: ListByRepo, start: int, pages: nat, n: nat)
    requires n < pages
    requires forall k :: 0 <= k < n ==> Continues(list(PageAt(list, start, k)))
    requires list(PageAt(list, start, n)).Page? && list(PageAt(list, start, n)).nextPage == 0
    ensures Paginate(list, start, pages) == Ok(Gathered(list, start, n + 1))
    decreases n
  {
    if n == 0 {
      assert PageAt(list, start, 0) == start;
      assert Gathered(list, start, 1) == ItemsOf(list(start)) + Gathered(list, NextOf(list(start)), 0);
      assert ItemsOf(list(start)) + [] == list(start).issues;
    } else {
      assert Continues(list(PageAt(list, start, 0)));
      var next := list(start).nextPage;
      forall k | 0 <= k < n - 1 ensures Continues(list(PageAt(list, next, k))) {
        assert PageAt(list, start, k + 1) == PageAt(list, next, k);
      }
      assert PageAt(list, start, n) == PageAt(list, next, n - 1);
      PaginateCompletes(list, next, pages - 1, n - 1);
    }
  }

  /** When the first n answers name a next page and request n fails, the
      loop ends with that error and no issue list. */
  lemma {:induction false} PaginateAborts(list: ListByRepo, start: int, pages: nat, n: nat)
    requires n < pages
    requires forall k :: 0 <= k < n ==> Continues(list(PageAt(list, start, k)))
    requires list(PageAt(list, start, n)).PageFailed?
    ensures Paginate(list, start, pages) == Fail(GitHubError(list(PageAt(list, start, n)).detail))
    decreases n
  {
    if n > 0 {
      assert Continues(list(PageAt(list, start, 0)));
      var next := list(start).nextPage;
      forall k | 0 <= k < n - 1 ensures Continues(list(PageAt(list, next, k))) {
        assert PageAt(list, start, k + 1) == PageAt(list, next, k);
      }
      assert PageAt(list, start, n) == PageAt(list, next, n - 1);
      PaginateAborts(list, next, pages - 1, n - 1);
    }
  }

  /** When every answer the model follows names a next page, the loop has
      not finished. */
  lemma {:induction false} PaginateUnfinished(list: ListByRepo, start: int, pages: nat)
    requires forall k :: 0 <= k < pages ==> Continues(list(PageAt(list, start, k)))
    ensures Paginate(list, start, pages) == Unfinished
    decreases pages
  {
    if pages > 0 {
      assert Continues(list(PageAt(list, start, 0)));
      var next := list(start).nextPage;
      forall k | 0 <= k < pages - 1 ensures Continues(list(PageAt(list, next, k))) {
        assert PageAt(list, start, k + 1) == PageAt(list, next, k);
      }
      PaginateUnfinished(list, next, pages - 1);
    }
  }

  /** Puts the issues gathered so far in front of what the remaining pages give. */
  function AfterPages(done: seq<GitHubIssue>, r: Outcome<seq<GitHubIssue>>): Outcome<seq<GitHubIssue>>
  {
    if r.Ok? then Ok(done + r.value) else r
  }

  /** The pagination loop of main: request page 0, append its issues, and
      go on with the page the answer names until it names page 0. */
  method ListAllIssues(list: ListByRepo, pages: nat) returns (r: Outcome<seq<GitHubIssue>>)
    ensures r == Paginate(list, 0, pages)
  {
    var githubIssues: seq<GitHubIssue> := [];
    var page := 0;
    var left := pages;
    assert AfterPages([], Paginate(list, 0, pages)) == Paginate(list, 0, pages) by {
      var all := Paginate(list, 0, pages);
      if all.Ok? { assert [] + all.value == all.value; }
    }
    while left > 0
      invariant Paginate(list, 0, pages) == AfterPages(githubIssues, Paginate(list, page, left))
    {
      var answer := list(page);
      if answer.PageFailed? {
        return Fail(GitHubError(answer.detail));
      }
      ghost var rest := Paginate(list, answer.nextPage, left - 1);
      if rest.Ok? {
        assert githubIssues + (answer.issues + rest.value) == (githubIssues + answer.issues) + rest.value;
      }
      githubIssues := githubIssues + answer.issues;
      if answer.nextPage == 0 {
        return Ok(githubIssues);
      }
      page := answer.nextPage;
      left := left - 1;
    }
    r := Unfinished;
  }

  // ---------------------------------------------------------------------
  // Indexes

  function IssueNumber(i: GitHubIssue): int { i.number }

  /** makeIssueMap: every issue under its number, the last one in list order
      winning. */
  method MakeIssueMap(githubIssues: seq<GitHubIssue>) returns (issueMap: map<int, GitHubIssue>)
    ensures issueMap == LastByKey(githubIssues, IssueNumber)
    ensures issueMap.Keys == KeysOf(githubIssues, IssueNumber)
  {
    issueMap := map[];
    var i := 0;
    while i < |githubIssues|
      invariant 0 <= i <= |githubIssues|
      invariant issueMap == LastByKey(githubIssues[..i], IssueNumber)
    {
      assert githubIssues[..i + 1][..i] == githubIssues[..i];
      issueMap := issueMap[githubIssues[i].number := githubIssues[i]];
      i := i + 1;
    }
    assert githubIssues[..i] == githubIssues;
    LastByKeyDomain(githubIssues, IssueNumber);
  }

  /** The numbers of an epic's member issues. */
  function Members(e: EpicData): set<int>
  {
    KeysOf(e.issues, MemberNumber)
  }

  /** `githubIssueMap[epic.IssueNumber]`: the GitHub issue of the epic, nil
      when the epic's own issue is not among the listed issues. */
  function Owner(issueMap: map<int, GitHubIssue>, e: EpicData): Option<GitHubIssue>
  {
    if e.issueNumber in issueMap then Some(issueMap[e.issueNumber]) else None
  }

  /** The inner loop of makeIssueToEpicMap: every member, in order, mapped to the owner. */
  function Enlist(m: map<int, Option<GitHubIssue>>, members: seq<IssueData>, owner: Option<GitHubIssue>)
    : map<int, Option<GitHubIssue>>
  {
    if members == [] then m
    else Enlist(m, members[..|members| - 1], owner)[members[|members| - 1].issueNumber := owner]
  }

  /** makeIssueToEpicMap's outer loop over the epics in the order given. */
  function ReverseIndex(issueMap: map<int, GitHubIssue>, epics: seq<EpicData>): map<int, Option<GitHubIssue>>
  {
    if epics == [] then map[]
    else
      var last := epics[|epics| - 1];
      Enlist(ReverseIndex(issueMap, epics[..|epics| - 1]), last.issues, Owner(issueMap, last))
  }

  /** The inner loop adds exactly the epic's members, all mapped to its
      owner, and leaves every other entry as it was. */
  lemma {:induction false} EnlistAt(m: map<int, Option<GitHubIssue>>, members: seq<IssueData>, owner: Option<GitHubIssue>)
    ensures Enlist(m, members, owner).Keys == m.Keys + KeysOf(members, MemberNumber)
    ensures forall n :: n in Enlist(m, members, owner) ==>
      Enlist(m, members, owner)[n] == if n in KeysOf(members, MemberNumber) then owner else m[n]
  {
    if members != [] {
      var init := members[..|members| - 1];
      EnlistAt(m, init, owner);
      KeysOfSnoc(members, MemberNumber);
    }
  }

  /** The keys of the reverse index are exactly the member numbers of all epics. */
  lemma {:induction false} ReverseIndexKeys(issueMap: map<int, GitHubIssue>, epics: seq<EpicData>, n: int)
    ensures n in ReverseIndex(issueMap, epics) <==> exists i :: 0 <= i < |epics| && n in Members(epics[i])
  {
    if epics != [] {
      var init := epics[..|epics| - 1];
      var last := epics[|epics| - 1];
      ReverseIndexKeys(issueMap, init, n);
      EnlistAt(ReverseIndex(issueMap, init), last.issues, Owner(issueMap, last));
        if exists i :: 0 <= i < |epics| && n in Members(epics[i]) {
        var i :| 0 <= i < |epics| && n in Members(epics[i]);
        if i < |epics| - 1 { assert init[i] == epics[i]; }
      }
      if exists i :: 0 <= i < |init| && n in Members(init[i]) {
        var i :| 0 <= i < |init| && n in Members(init[i]);
        assert epics[i] == init[i];
      }
    }
  }

  /** Last write wins: an issue listed by epic i and by no later epic maps
      to epic i's owner (which is None when the epic's own issue was not
      listed on GitHub). */
  lemma {:induction false} ReverseIndexLastWins(issueMap: map<int, GitHubIssue>, epics: seq<EpicData>, i: int, n: int)
    requires 0 <= i < |epics| && n in Members(epics[i])
    requires forall j :: i < j < |epics| ==> n !in Members(epics[j])
    ensures n in ReverseIndex(issueMap, epics)
    ensures ReverseIndex(issueMap, epics)[n] == Owner(issueMap, epics[i])
  {
    var init := epics[..|epics| - 1];
    var last := epics[|epics| - 1];
    EnlistAt(ReverseIndex(issueMap, init), last.issues, Owner(issueMap, last));
    if i < |epics| - 1 {
      assert init[i] == epics[i];
      forall j | i < j < |init| ensures n !in Members(init[j]) {
        assert init[j] == epics[j];
      }
      ReverseIndexLastWins(issueMap, init, i, n);
    }
  }

  /** Every entry of the reverse index is the owner of some epic that lists it. */
  lemma {:induction false} ReverseIndexOwnedBy(issueMap: map<int, GitHubIssue>, epics: seq<EpicData>, n: int)
    requires n in ReverseIndex(issueMap, epics)
    ensures exists i :: 0 <= i < |epics| && n in Members(epics[i]) && ReverseIndex(issueMap, epics)[n] == Owner(issueMap, epics[i])
  {
    var init := epics[..|epics| - 1];
    var last := epics[|epics| - 1];
    EnlistAt(ReverseIndex(issueMap, init), last.issues, Owner(issueMap, last));
    if n !in Members(last) {
      ReverseIndexOwnedBy(issueMap, init, n);
      var i :| 0 <= i < |init| && n in Members(init[i]) && ReverseIndex(issueMap, init)[n] == Owner(issueMap, init[i]);
      assert epics[i] == init[i];
    }
  }

  /** An order in which to visit every epic of the map once, as Go's map
      iteration does in an order it leaves unspecified. */
  ghost predicate IsVisitOrder(epics: map<int, EpicData>, order: seq<int>)
  {
    && (forall i :: 0 <= i < |order| ==> order[i] in epics)
    && (forall k :: k in epics ==> k in order)
    && (forall i, j :: 0 <= i < j < |order| ==> order[i] != order[j])
  }

  /** The epics in the order visited. */
  function Visit(epics: map<int, EpicData>, order: seq<int>): (r: seq<EpicData>)
    requires forall i :: 0 <= i < |order| ==> order[i] in epics
    ensures |r| == |order|
    ensures forall i :: 0 <= i < |order| ==> r[i] == epics[order[i]]
  {
    if order == [] then [] else Visit(epics, order[..|order| - 1]) + [epics[order[|order| - 1]]]
  }

  /** No issue is a member of two different epics. */
  ghost predicate DisjointMembers(epics: map<int, EpicData>)
  {
    forall a, b :: a in epics && b in epics && a != b ==> Members(epics[a]) !! Members(epics[b])
  }

  /** With disjoint member lists, whatever the visit order, a member of
      epic k maps to epic k's owner. */
  lemma DisjointOwner(issueMap: map<int, GitHubIssue>, epics: map<int, EpicData>, order: seq<int>, k: int, n: int)
    requires IsVisitOrder(epics, order) && DisjointMembers(epics)
    requires k in epics && n in Members(epics[k])
    ensures n in ReverseIndex(issueMap, Visit(epics, order))
    ensures ReverseIndex(issueMap, Visit(epics, order))[n] == Owner(issueMap, epics[k])
  {
    var visited := Visit(epics, order);
    assert k in order;
    var i :| 0 <= i < |order| && order[i] == k;
    forall j | i < j < |visited| ensures n !in Members(visited[j]) {
      assert order[j] != k;
    }
    ReverseIndexLastWins(issueMap, visited, i, n);
  }

  /** With disjoint member lists, an entry made in one visit order is made,
      with the same owner, in any other. */
  lemma ReverseIndexAgrees(issueMap: map<int, GitHubIssue>, epics: map<int, EpicData>, order1: seq<int>, order2: seq<int>, n: int)
    requires IsVisitOrder(epics, order1) && IsVisitOrder(epics, order2)
    requires DisjointMembers(epics)
    requires n in ReverseIndex(issueMap, Visit(epics, order1))
    ensures n in ReverseIndex(issueMap, Visit(epics, order2))
    ensures ReverseIndex(issueMap, Visit(epics, order2))[n] == ReverseIndex(issueMap, Visit(epics, order1))[n]
  {
    var k := OwningKey(issueMap, epics, order1, n);
    DisjointOwner(issueMap, epics, order1, k, n);
    DisjointOwner(issueMap, epics, order2, k, n);
  }

  /** With disjoint member lists the reverse index does not depend on the
      order in which the epics are visited. */
  lemma ReverseIndexOrderFree(issueMap: map<int, GitHubIssue>, epics: map<int, EpicData>, order1: seq<int>, order2: seq<int>)
    requires IsVisitOrder(epics, order1) && IsVisitOrder(epics, order2)
    requires DisjointMembers(epics)
    ensures ReverseIndex(issueMap, Visit(epics, order1)) == ReverseIndex(issueMap, Visit(epics, order2))
  {
    var r1 := ReverseIndex(issueMap, Visit(epics, order1));
    var r2 := ReverseIndex(issueMap, Visit(epics, order2));
    forall n | n in r1 ensures n in r2 && r2[n] == r1[n] {
      ReverseIndexAgrees(issueMap, epics, order1, order2, n);
    }
    forall n | n in r2 ensures n in r1 {
      ReverseIndexAgrees(issueMap, epics, order2, order1, n);
    }
    SameEntries(r1, r2);
  }

  lemma SameEntries(r1: map<int, Option<GitHubIssue>>, r2: map<int, Option<GitHubIssue>>)
    requires forall n :: n in r1 ==> n in r2 && r2[n] == r1[n]
    requires forall n :: n in r2 ==> n in r1
    ensures r1 == r2
  {
    assert forall n :: n in r1 <==> n in r2;
    assert forall n :: n in r1 ==> r1[n] == r2[n];
  }

  /** An epic whose members include a key of the reverse index. */
  lemma OwningKey(issueMap: map<int, GitHubIssue>, epics: map<int, EpicData>, order: seq<int>, n: int) returns (k: int)
    requires IsVisitOrder(epics, order)
    requires n in ReverseIndex(issueMap, Visit(epics, order))
    ensures k in epics && n in Members(epics[k])
  {
    var visited := Visit(epics, order);
    ReverseIndexKeys(issueMap, visited, n);
    var i :| 0 <= i < |visited| && n in Members(visited[i]);
    k := order[i];
  }

  /** The keys of makeIssueToEpicMap's result: the members of the epics,
      whatever the visit order. */
  lemma ReverseIndexVisitKeys(issueMap: map<int, GitHubIssue>, epics: map<int, EpicData>, order: seq<int>, n: int)
    requires IsVisitOrder(epics, order)
    ensures n in ReverseIndex(issueMap, Visit(epics, order)) <==> exists k :: k in epics && n in Members(epics[k])
  {
    var visited := Visit(epics, order);
    ReverseIndexKeys(issueMap, visited, n);
    if n in ReverseIndex(issueMap, visited) {
      var i :| 0 <= i < |visited| && n in Members(visited[i]);
      assert order[i] in epics;
    }
    if exists k :: k in epics && n in Members(epics[k]) {
      var k :| k in epics && n in Members(epics[k]);
      assert k in order;
      var i :| 0 <= i < |order| && order[i] == k;
      assert n in Members(visited[i]);
    }
  }

  lemma ReverseIndexVisitDomain(issueMap: map<int, GitHubIssue>, epics: map<int, EpicData>, order: seq<int>)
    requires IsVisitOrder(epics, order)
    ensures forall n :: n in ReverseIndex(issueMap, Visit(epics, order)) <==> exists k :: k in epics && n in Members(epics[k])
  {
    forall n ensures n in ReverseIndex(issueMap, Visit(epics, order)) <==> exists k :: k in epics && n in Members(epics[k]) {
      ReverseIndexVisitKeys(issueMap, epics, order, n);
    }
  }

  /** One more epic visited: the outer loop's step, in the index. */
  lemma VisitOneMore(issueMap: map<int, GitHubIssue>, epics: map<int, EpicData>, order: seq<int>, v: int)
    requires forall i :: 0 <= i < |order| ==> order[i] in epics
    requires 0 <= v < |order|
    ensures ReverseIndex(issueMap, Visit(epics, order[..v + 1]))
         == Enlist(ReverseIndex(issueMap, Visit(epics, order[..v])), epics[order[v]].issues, Owner(issueMap, epics[order[v]]))
  {
    assert order[..v + 1][..v] == order[..v];
    var visited := Visit(epics, order[..v + 1]);
    assert visited[..v] == Visit(epics, order[..v]);
  }

  /** One more member enlisted: the inner loop's step. */
  lemma EnlistOneMore(m: map<int, Option<GitHubIssue>>, members: seq<IssueData>, j: int, owner: Option<GitHubIssue>)
    requires 0 <= j < |members|
    ensures Enlist(m, members[..j + 1], owner) == Enlist(m, members[..j], owner)[members[j].issueNumber := owner]
  {
    assert members[..j + 1][..j] == members[..j];
  }

  /** makeIssueToEpicMap's inner loop: map each member of one epic to its owner. */
  method EnlistMembers(m: map<int, Option<GitHubIssue>>, members: seq<IssueData>, owner: Option<GitHubIssue>)
    returns (r: map<int, Option<GitHubIssue>>)
    ensures r == Enlist(m, members, owner)
  {
    r := m;
    for j := 0 to |members|
      invariant r == Enlist(m, members[..j], owner)
    {
      EnlistOneMore(m, members, j, owner);
      r := r[members[j].issueNumber := owner];
    }
    assert members[..|members|] == members;
  }

  /** makeIssueToEpicMap: for every epic, in the map's iteration order, map
      each of its member issues to the epic's GitHub issue (or nil). Go
      leaves that order unspecified; it comes in as `order`. */
  method MakeIssueToEpicMap(githubIssues: seq<GitHubIssue>, zenhubEpics: map<int, EpicData>, order: seq<int>)
    returns (issueToEpicMap: map<int, Option<GitHubIssue>>)
    requires IsVisitOrder(zenhubEpics, order)
    ensures issueToEpicMap == ReverseIndex(LastByKey(githubIssues, IssueNumber), Visit(zenhubEpics, order))
    ensures forall n :: n in issueToEpicMap <==> exists k :: k in zenhubEpics && n in Members(zenhubEpics[k])
  {
    issueToEpicMap := map[];
    var githubIssueMap := MakeIssueMap(githubIssues);
    for v := 0 to |order|
      invariant issueToEpicMap == ReverseIndex(githubIssueMap, Visit(zenhubEpics, order[..v]))
    {
      var epic := zenhubEpics[order[v]];
      VisitOneMore(githubIssueMap, zenhubEpics, order, v);
      issueToEpicMap := EnlistMembers(issueToEpicMap, epic.issues, Owner(githubIssueMap, epic));
    }
    assert order[..|order|] == order;
    ReverseIndexVisitDomain(githubIssueMap, zenhubEpics, order);
  }

  // ---------------------------------------------------------------------
  // Rows

  /** The issues that are not pull requests, in their order. */
  function NonPullRequests(s: seq<GitHubIssue>): (r: seq<GitHubIssue>)
    ensures forall i :: 0 <= i < |r| ==> !r[i].isPullRequest
    ensures forall x :: x in r <==> x in s && !x.isPullRequest
    ensures |r| <= |s|
  {
    if s == [] then [] else (if s[0].isPullRequest then [] else [s[0]]) + NonPullRequests(s[1..])
  }

  /** Dropping pull requests keeps order: on a concatenation it is the
      concatenation of the results. */
  lemma {:induction false} NonPullRequestsAppend(a: seq<GitHubIssue>, b: seq<GitHubIssue>)
    ensures NonPullRequests(a + b) == NonPullRequests(a) + NonPullRequests(b)
  {
    if a == [] {
      assert a + b == b;
    } else {
      assert (a + b)[1..] == a[1..] + b;
      NonPullRequestsAppend(a[1..], b);
    }
  }

  /** One row: the issue's own fields, its milestone's title, its epic's
      title and number from the reverse index, whether it is an epic, and
      the estimate ZenHub returned for it. */
  function MakeIssue(issue: GitHubIssue, issueToEpicMap: map<int, Option<GitHubIssue>>,
                     zenhubEpics: map<int, EpicData>, data: IssueData): (row: Issue)
    ensures row.number == issue.number && row.title == issue.title && row.state == issue.state && row.body == issue.body
    ensures row.milestone.None? <==> issue.milestone.None?
    ensures issue.milestone.Some? ==> row.milestone == Some(issue.milestone.value.title)
    ensures row.epicTitle.Some? <==> issue.number in issueToEpicMap && issueToEpicMap[issue.number].Some?
    ensures row.epicNumber.Some? <==> row.epicTitle.Some?
    ensures row.epicTitle.Some? ==>
      && row.epicTitle.value == issueToEpicMap[issue.number].value.title
      && row.epicNumber.value == issueToEpicMap[issue.number].value.number
    ensures row.isEpic <==> issue.number in zenhubEpics
    ensures row.storyPoints == Some(data.estimate)
  {
    var epic := if issue.number in issueToEpicMap then issueToEpicMap[issue.number] else None;
    Issue(
      number := issue.number,
      title := issue.title,
      state := issue.state,
      milestone := if issue.milestone.Some? then Some(issue.milestone.value.title) else None,
      body := issue.body,
      epicTitle := if epic.Some? then Some(epic.value.title) else None,
      epicNumber := if epic.Some? then Some(epic.value.number) else None,
      isEpic := issue.number in zenhubEpics,
      storyPoints := Some(data.estimate))
  }

  /** The rows of the given issues, with their fetched data, in order. */
  function Rows(issues: seq<GitHubIssue>, data: seq<IssueData>, issueToEpicMap: map<int, Option<GitHubIssue>>,
                zenhubEpics: map<int, EpicData>): (rows: seq<Issue>)
    requires |data| == |issues|
    ensures |rows| == |issues|
    ensures forall i :: 0 <= i < |issues| ==> rows[i] == MakeIssue(issues[i], issueToEpicMap, zenhubEpics, data[i])
  {
    if issues == [] then []
    else Rows(issues[..|issues| - 1], data[..|data| - 1], issueToEpicMap, zenhubEpics)
         + [MakeIssue(issues[|issues| - 1], issueToEpicMap, zenhubEpics, data[|data| - 1])]
  }

  /** The path of an issue's ZenHub data. */
  function IssuePathOf(repoId: int): GitHubIssue -> string
  {
    (i: GitHubIssue) => IssuesPath(repoId, i.number)
  }

  /** The rows of the issues once their data is in, or the failure that
      ended the fetching. */
  function Assemble(issues: seq<GitHubIssue>, fetched: (Outcome<seq<IssueData>>, nat),
                    issueToEpicMap: map<int, Option<GitHubIssue>>, zenhubEpics: map<int, EpicData>)
    : (Outcome<seq<Issue>>, nat)
    requires fetched.0.Ok? ==> |fetched.0.value| == |issues|
  {
    (if fetched.0.Ok? then Ok(Rows(issues, fetched.0.value, issueToEpicMap, zenhubEpics)) else fetched.0.Propagate(), fetched.1)
  }

  /** The row loop as a function of the network: one GetIssueData per issue
      that is not a pull request, in order, then one row each. */
  function RowsOf(http: Http, json: Json, c: Client, repoId: int, githubIssues: seq<GitHubIssue>,
                  issueToEpicMap: map<int, Option<GitHubIssue>>, zenhubEpics: map<int, EpicData>, sent: nat)
    : (Outcome<seq<Issue>>, nat)
  {
    var issues := NonPullRequests(githubIssues);
    Assemble(issues, FetchAll(http, c, issues, IssuePathOf(repoId), json.issue, sent), issueToEpicMap, zenhubEpics)
  }

  /** A row put in front of the rows of the data fetched after it. */
  lemma AssembleCons(issue: GitHubIssue, d: IssueData, issues: seq<GitHubIssue>, fetched: (Outcome<seq<IssueData>>, nat),
                     issueToEpicMap: map<int, Option<GitHubIssue>>, zenhubEpics: map<int, EpicData>, built: seq<Issue>)
    requires fetched.0.Ok? ==> |fetched.0.value| == |issues|
    ensures AfterFetched(built, Assemble([issue] + issues, AfterFetched([d], fetched), issueToEpicMap, zenhubEpics))
         == AfterFetched(built + [MakeIssue(issue, issueToEpicMap, zenhubEpics, d)], Assemble(issues, fetched, issueToEpicMap, zenhubEpics))
  {
    if fetched.0.Ok? {
      var row := MakeIssue(issue, issueToEpicMap, zenhubEpics, d);
      var later := Rows(issues, fetched.0.value, issueToEpicMap, zenhubEpics);
      RowsCons(issue, d, issues, fetched.0.value, issueToEpicMap, zenhubEpics);
      assert (built + [row]) + later == built + ([row] + later);
    } else {
      PropagateTwice<seq<IssueData>, seq<IssueData>, seq<Issue>>(fetched.0);
    }
  }

  /** The row loop one issue at a time, from issue i on, with the rows
      built so far: the loop's own order of events. */
  function RowsFrom(http: Http, json: Json, c: Client, repoId: int, githubIssues: seq<GitHubIssue>,
                    issueToEpicMap: map<int, Option<GitHubIssue>>, zenhubEpics: map<int, EpicData>,
                    i: nat, built: seq<Issue>, sent: nat): (Outcome<seq<Issue>>, nat)
    requires i <= |githubIssues|
    decreases |githubIssues| - i
  {
    if i == |githubIssues| then (Ok(built), sent)
    else if githubIssues[i].isPullRequest then
      RowsFrom(http, json, c, repoId, githubIssues, issueToEpicMap, zenhubEpics, i + 1, built, sent)
    else
      var t := Fetch(http, c, IssuesPath(repoId, githubIssues[i].number), json.issue, sent);
      if !t.outcome.Ok? then (t.outcome.Propagate(), t.sent)
      else RowsFrom(http, json, c, repoId, githubIssues, issueToEpicMap, zenhubEpics, i + 1,
                    built + [MakeIssue(githubIssues[i], issueToEpicMap, zenhubEpics, t.outcome.value)], t.sent)
  }

  lemma RowsCons(issue: GitHubIssue, d: IssueData, issues: seq<GitHubIssue>, data: seq<IssueData>,
                 issueToEpicMap: map<int, Option<GitHubIssue>>, zenhubEpics: map<int, EpicData>)
    requires |data| == |issues|
    ensures Rows([issue] + issues, [d] + data, issueToEpicMap, zenhubEpics)
         == [MakeIssue(issue, issueToEpicMap, zenhubEpics, d)] + Rows(issues, data, issueToEpicMap, zenhubEpics)
  {
    var whole := Rows([issue] + issues, [d] + data, issueToEpicMap, zenhubEpics);
    var parts := [MakeIssue(issue, issueToEpicMap, zenhubEpics, d)] + Rows(issues, data, issueToEpicMap, zenhubEpics);
    assert |whole| == |parts|;
    forall k | 0 <= k < |whole| ensures whole[k] == parts[k] {
      if k > 0 { assert ([issue] + issues)[k] == issues[k - 1] && ([d] + data)[k] == data[k - 1]; }
    }
  }

  /** A pull request at the head adds nothing. */
  lemma RowsOfSkip(http: Http, json: Json, c: Client, repoId: int, rest: seq<GitHubIssue>,
                   issueToEpicMap: map<int, Option<GitHubIssue>>, zenhubEpics: map<int, EpicData>, sent: nat)
    requires rest != [] && rest[0].isPullRequest
    ensures RowsOf(http, json, c, repoId, rest, issueToEpicMap, zenhubEpics, sent)
         == RowsOf(http, json, c, repoId, rest[1..], issueToEpicMap, zenhubEpics, sent)
  {
    assert NonPullRequests(rest) == [] + NonPullRequests(rest[1..]) == NonPullRequests(rest[1..]);
  }

  /** An issue at the head whose data cannot be had ends the rows with that failure. */
  lemma RowsOfFailed(http: Http, json: Json, c: Client, repoId: int, rest: seq<GitHubIssue>,
                     issueToEpicMap: map<int, Option<GitHubIssue>>, zenhubEpics: map<int, EpicData>, sent: nat)
    requires rest != [] && !rest[0].isPullRequest
    requires !Fetch(http, c, IssuesPath(repoId, rest[0].number), json.issue, sent).outcome.Ok?
    ensures var t := Fetch(http, c, IssuesPath(repoId, rest[0].number), json.issue, sent);
      RowsOf(http, json, c, repoId, rest, issueToEpicMap, zenhubEpics, sent) == (t.outcome.Propagate(), t.sent)
  {
    var t := Fetch(http, c, IssuesPath(repoId, rest[0].number), json.issue, sent);
    var items := NonPullRequests(rest);
    assert items[0] == rest[0];
    assert IssuePathOf(repoId)(items[0]) == IssuesPath(repoId, rest[0].number);
    FetchFailedHere(http, c, items, IssuePathOf(repoId), json.issue, sent, []);
    PropagateTwice<IssueData, seq<IssueData>, seq<Issue>>(t.outcome);
  }

  /** An issue at the head whose data came back puts its row first. */
  lemma RowsOfFetched(http: Http, json: Json, c: Client, repoId: int, rest: seq<GitHubIssue>,
                      issueToEpicMap: map<int, Option<GitHubIssue>>, zenhubEpics: map<int, EpicData>, sent: nat,
                      built: seq<Issue>)
    requires rest != [] && !rest[0].isPullRequest
    requires Fetch(http, c, IssuesPath(repoId, rest[0].number), json.issue, sent).outcome.Ok?
    ensures var t := Fetch(http, c, IssuesPath(repoId, rest[0].number), json.issue, sent);
      AfterFetched(built, RowsOf(http, json, c, repoId, rest, issueToEpicMap, zenhubEpics, sent))
      == AfterFetched(built + [MakeIssue(rest[0], issueToEpicMap, zenhubEpics, t.outcome.value)],
                      RowsOf(http, json, c, repoId, rest[1..], issueToEpicMap, zenhubEpics, t.sent))
  {
    var t := Fetch(http, c, IssuesPath(repoId, rest[0].number), json.issue, sent);
    var items := NonPullRequests(rest);
    var later := NonPullRequests(rest[1..]);
    assert items == [rest[0]] + later;
    assert items[0] == rest[0] && items[1..] == later;
    assert IssuePathOf(repoId)(items[0]) == IssuesPath(repoId, rest[0].number);
    var whole := FetchAll(http, c, items, IssuePathOf(repoId), json.issue, sent);
    var more := FetchAll(http, c, later, IssuePathOf(repoId), json.issue, t.sent);
    FetchedOneMore(http, c, items, IssuePathOf(repoId), json.issue, sent, []);
    AfterNothing(whole);
    assert whole == AfterFetched([t.outcome.value], more);
    AssembleCons(rest[0], t.outcome.value, later, more, issueToEpicMap, zenhubEpics, built);
  }

  /** The loop's order of events gives what the batch description gives:
      fetch every issue that is not a pull request, then build every row. */
  lemma {:induction false} RowsFromRowsOf(http: Http, json: Json, c: Client, repoId: int, githubIssues: seq<GitHubIssue>,
                                          issueToEpicMap: map<int, Option<GitHubIssue>>, zenhubEpics: map<int, EpicData>,
                                          i: nat, built: seq<Issue>, sent: nat)
    requires i <= |githubIssues|
    ensures RowsFrom(http, json, c, repoId, githubIssues, issueToEpicMap, zenhubEpics, i, built, sent)
         == AfterFetched(built, RowsOf(http, json, c, repoId, githubIssues[i..], issueToEpicMap, zenhubEpics, sent))
    decreases |githubIssues| - i
  {
    var rest := githubIssues[i..];
    if i == |githubIssues| {
      assert rest == [];
      assert built + [] == built;
    } else {
      assert rest[0] == githubIssues[i] && rest[1..] == githubIssues[i + 1..];
      if githubIssues[i].isPullRequest {
        RowsOfSkip(http, json, c, repoId, rest, issueToEpicMap, zenhubEpics, sent);
        RowsFromRowsOf(http, json, c, repoId, githubIssues, issueToEpicMap, zenhubEpics, i + 1, built, sent);
      } else {
        var t := Fetch(http, c, IssuesPath(repoId, githubIssues[i].number), json.issue, sent);
        if !t.outcome.Ok? {
          RowsOfFailed(http, json, c, repoId, rest, issueToEpicMap, zenhubEpics, sent);
        } else {
          RowsOfFetched(http, json, c, repoId, rest, issueToEpicMap, zenhubEpics, sent, built);
          RowsFromRowsOf(http, json, c, repoId, githubIssues, issueToEpicMap, zenhubEpics, i + 1,
                         built + [MakeIssue(githubIssues[i], issueToEpicMap, zenhubEpics, t.outcome.value)], t.sent);
        }
      }
    }
  }

  /** The row loop of main: skip pull requests, fetch each other issue's
      ZenHub data (any failure ends the run with no rows) and append its
      row; RowsFromRowsOf says what that adds up to. */
  method BuildRows(http: Http, json: Json, c: Client, repoId: int, githubIssues: seq<GitHubIssue>,
                   issueToEpicMap: map<int, Option<GitHubIssue>>, zenhubEpics: map<int, EpicData>, sent0: nat)
    returns (r: Outcome<seq<Issue>>, sent: nat)
    ensures (r, sent) == RowsFrom(http, json, c, repoId, githubIssues, issueToEpicMap, zenhubEpics, 0, [], sent0)
  {
    var parsedIssues: seq<Issue> := [];
    sent := sent0;
    var i := 0;
    while i < |githubIssues|
      invariant 0 <= i <= |githubIssues|
      invariant RowsFrom(http, json, c, repoId, githubIssues, issueToEpicMap, zenhubEpics, i, parsedIssues, sent)
             == RowsFrom(http, json, c, repoId, githubIssues, issueToEpicMap, zenhubEpics, 0, [], sent0)
    {
      var issue := githubIssues[i];
      if issue.isPullRequest {
        i := i + 1;
        continue;
      }
      var zIssue, s := GetIssueData(http, json, c, repoId, issue.number, sent);
      if !zIssue.Ok? {
        return zIssue.Propagate(), s;
      }
      parsedIssues := parsedIssues + [MakeIssue(issue, issueToEpicMap, zenhubEpics, zIssue.value)];
      sent := s;
      i := i + 1;
    }
    r := Ok(parsedIssues);
  }

  /** Every issue that is not a pull request gets exactly one row, in
      order, carrying its number, its story points, whether it is an epic
      and, exactly when the reverse index has an owner for it, its epic. */
  lemma RowsOfRows(http: Http, json: Json, c: Client, repoId: int, githubIssues: seq<GitHubIssue>,
                   issueToEpicMap: map<int, Option<GitHubIssue>>, zenhubEpics: map<int, EpicData>, sent: nat)
    ensures var r := RowsOf(http, json, c, repoId, githubIssues, issueToEpicMap, zenhubEpics, sent).0;
      r.Ok? ==>
        && |r.value| == |NonPullRequests(githubIssues)|
        && forall i :: 0 <= i < |r.value| ==>
          && r.value[i].number == NonPullRequests(githubIssues)[i].number
          && r.value[i].storyPoints.Some?
          && (r.value[i].isEpic <==> r.value[i].number in zenhubEpics)
          && (r.value[i].epicNumber.Some? <==> r.value[i].number in issueToEpicMap && issueToEpicMap[r.value[i].number].Some?)
  {
  }

  // ---------------------------------------------------------------------
  // The run

  /** main without its configuration and output, as a function of the
      outside world: list every issue; a failed listing ends the run before
      ZenHub is asked anything. Then fetch the epics; a failure ends the
      run. Then build the reverse index over the epics in the order given,
      and the rows, one GetIssueData per issue that is not a pull request. */
  function Exported(list: ListByRepo, pages: nat, http: Http, json: Json, c: Client, repoId: int,
                    visitOrder: map<int, EpicData> -> seq<int>): Outcome<seq<Issue>>
    requires forall epics :: IsVisitOrder(epics, visitOrder(epics))
  {
    var issues := Paginate(list, 0, pages);
    if !issues.Ok? then issues.Propagate()
    else
      var e := EpicsOf(http, json, c, repoId, 0);
      if !e.0.Ok? then e.0.Propagate()
      else
        var order := visitOrder(e.0.value);
        assert IsVisitOrder(e.0.value, order);
        var issueToEpicMap := ReverseIndex(LastByKey(issues.value, IssueNumber), Visit(e.0.value, order));
        RowsOf(http, json, c, repoId, issues.value, issueToEpicMap, e.0.value, e.1).0
  }

  /** A successful run listed every issue and fetched the epics, and has one
      row per issue that is not a pull request, in listing order. Each row
      has story points, `IsEpic` exactly when its number is an epic, and an
      epic number only when some epic lists it as a member. */
  lemma ExportedRows(list: ListByRepo, pages: nat, http: Http, json: Json, c: Client, repoId: int,
                     visitOrder: map<int, EpicData> -> seq<int>)
    requires forall epics :: IsVisitOrder(epics, visitOrder(epics))
    ensures var r := Exported(list, pages, http, json, c, repoId, visitOrder);
      r.Ok? ==>
        && Paginate(list, 0, pages).Ok?
        && EpicsOf(http, json, c, repoId, 0).0.Ok?
        && |r.value| == |NonPullRequests(Paginate(list, 0, pages).value)|
    ensures var r := Exported(list, pages, http, json, c, repoId, visitOrder);
      r.Ok? ==> forall i :: 0 <= i < |r.value| ==>
        && r.value[i].number == NonPullRequests(Paginate(list, 0, pages).value)[i].number
        && r.value[i].storyPoints.Some?
        && (r.value[i].isEpic <==> r.value[i].number in EpicsOf(http, json, c, repoId, 0).0.value)
        && (r.value[i].epicNumber.Some? ==>
              exists k :: k in EpicsOf(http, json, c, repoId, 0).0.value && r.value[i].number in Members(EpicsOf(http, json, c, repoId, 0).0.value[k]))
  {
    var issues := Paginate(list, 0, pages);
    var e := EpicsOf(http, json, c, repoId, 0);
    if issues.Ok? && e.0.Ok? {
      var order := visitOrder(e.0.value);
      assert IsVisitOrder(e.0.value, order);
      var issueToEpicMap := ReverseIndex(LastByKey(issues.value, IssueNumber), Visit(e.0.value, order));
      ReverseIndexVisitDomain(LastByKey(issues.value, IssueNumber), e.0.value, order);
      RowsOfRows(http, json, c, repoId, issues.value, issueToEpicMap, e.0.value, e.1);
    }
  }

  /** main without its configuration and output: list every issue, fetch the
      epics, build the reverse index, and build the rows. */
  method Export(list: ListByRepo, pages: nat, http: Http, json: Json, c: Client, repoId: int,
                visitOrder: map<int, EpicData> -> seq<int>)
    returns (r: Outcome<seq<Issue>>)
    requires forall epics :: IsVisitOrder(epics, visitOrder(epics))
    ensures r == Exported(list, pages, http, json, c, repoId, visitOrder)
  {
    var githubIssues := ListAllIssues(list, pages);
    if !githubIssues.Ok? {
      return githubIssues.Propagate();
    }
    var zenhubEpics, sent := GetEpics(http, json, c, repoId, 0);
    if !zenhubEpics.Ok? {
      return zenhubEpics.Propagate();
    }
    var issueToEpicMap := MakeIssueToEpicMap(githubIssues.value, zenhubEpics.value, visitOrder(zenhubEpics.value));
    var rows, _ := BuildRows(http, json, c, repoId, githubIssues.value, issueToEpicMap, zenhubEpics.value, sent);
    RowsFromRowsOf(http, json, c, repoId, githubIssues.value, issueToEpicMap, zenhubEpics.value, 0, [], sent);
    assert githubIssues.value[0..] == githubIssues.value;
    AfterNothing(RowsOf(http, json, c, repoId, githubIssues.value, issueToEpicMap, zenhubEpics.value, sent));
    r := rows;
  }
}
