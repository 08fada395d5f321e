/** Fetching a source page by page: the loop over cursors, the offset-paging export adapters, the JIRA adapter over an
    arbitrary server, and the retry policy underneath it. */
module SourcePaging {
  import opened Lists
  import opened Text
  import Retry

  datatype Page<+T, +W> = Page(artifacts: seq<T>, next: Option<nat>, warnings: seq<W>, partialFailure: bool)

  datatype Fetched<+T, +W> = Fetched(artifacts: seq<T>, completedOffset: nat, pageCount: nat, warnings: seq<W>, partialFailure: bool)

  /** Every cursor a page hands out lies further on, and not beyond `bound`. */
  ghost predicate Progress<T(!new), W(!new)>(fetch: nat -> Page<T, W>, bound: nat) {
    forall offset: nat :: fetch(offset).next.Some? ==> offset < fetch(offset).next.value <= bound
  }

  /** The pages met when starting at an offset. */
  ghost function Chain<T(!new), W(!new)>(fetch: nat -> Page<T, W>, offset: nat, bound: nat): (pages: seq<Page<T, W>>)
    requires Progress(fetch, bound)
    ensures pages != []
    decreases if offset <= bound then bound - offset + 1 else 0
  {
    var page := fetch(offset);
    if page.next.None? then [page] else [page] + Chain(fetch, page.next.value, bound)
  }

  lemma ChainStep<T(!new), W(!new)>(fetch: nat -> Page<T, W>, offset: nat, bound: nat)
    requires Progress(fetch, bound)
    ensures var page, pages := fetch(offset), Chain(fetch, offset, bound);
            if page.next.None? then pages == [page] else pages == [page] + Chain(fetch, page.next.value, bound)
  {
  }

  ghost function AllArtifacts<T, W>(pages: seq<Page<T, W>>): seq<T> {
    if pages == [] then [] else pages[0].artifacts + AllArtifacts(pages[1..])
  }

  ghost function AllWarnings<T, W>(pages: seq<Page<T, W>>): seq<W> {
    if pages == [] then [] else pages[0].warnings + AllWarnings(pages[1..])
  }

  ghost predicate AnyFailure<T, W>(pages: seq<Page<T, W>>) {
    exists i :: 0 <= i < |pages| && pages[i].partialFailure
  }

  lemma {:induction false} ArtifactsSnoc<T, W>(pages: seq<Page<T, W>>, page: Page<T, W>)
    ensures AllArtifacts(pages + [page]) == AllArtifacts(pages) + page.artifacts
  {
    if pages == [] {
      OnePage(page);
      assert pages + [page] == [page];
    } else {
      TailOfConcat(pages, [page]);
      ArtifactsSnoc(pages[1..], page);
    }
  }

  lemma {:induction false} WarningsSnoc<T, W>(pages: seq<Page<T, W>>, page: Page<T, W>)
    ensures AllWarnings(pages + [page]) == AllWarnings(pages) + page.warnings
  {
    if pages == [] {
      OnePage(page);
      assert pages + [page] == [page];
    } else {
      TailOfConcat(pages, [page]);
      WarningsSnoc(pages[1..], page);
    }
  }

  lemma FailureSnoc<T, W>(pages: seq<Page<T, W>>, page: Page<T, W>)
    ensures AnyFailure(pages + [page]) <==> AnyFailure(pages) || page.partialFailure
  {
    var all := pages + [page];
    assert all[|pages|] == page && forall i :: 0 <= i < |pages| ==> all[i] == pages[i];
  }

  lemma PagesSnoc<T, W>(pages: seq<Page<T, W>>, page: Page<T, W>)
    ensures AllArtifacts(pages + [page]) == AllArtifacts(pages) + page.artifacts
    ensures AllWarnings(pages + [page]) == AllWarnings(pages) + page.warnings
    ensures AnyFailure(pages + [page]) <==> AnyFailure(pages) || page.partialFailure
  {
    ArtifactsSnoc(pages, page);
    WarningsSnoc(pages, page);
    FailureSnoc(pages, page);
  }

  /** `_fetch_all`: follows cursors until a page has none. */
  method FetchAll<T(!new), W(!new)>(fetch: nat -> Page<T, W>, ghost bound: nat) returns (result: Fetched<T, W>)
    requires Progress(fetch, bound)
    ensures var pages := Chain(fetch, 0, bound);
            && result.artifacts == AllArtifacts(pages) && result.warnings == AllWarnings(pages)
            && result.pageCount == |pages| && (result.partialFailure <==> AnyFailure(pages))
            && result.completedOffset == |result.artifacts|
  {
    var first := fetch(0);
    var artifacts, warnings, partialFailure := first.artifacts, first.warnings, first.partialFailure;
    var cursor, pageCount := first.next, 1;
    ghost var seen := [first];
    OnePage(first);
    while cursor.Some?
      invariant artifacts == AllArtifacts(seen) && warnings == AllWarnings(seen) && pageCount == |seen|
      invariant partialFailure <==> AnyFailure(seen)
      invariant cursor.Some? ==> cursor.value <= bound
      invariant Follows(fetch, bound, seen, cursor)
      decreases if cursor.Some? then bound - cursor.value + 1 else 0
    {
      var page := fetch(cursor.value);
      PagesSnoc(seen, page);
      FollowsOne(fetch, bound, seen, cursor.value);
      seen := seen + [page];
      artifacts, warnings := artifacts + page.artifacts, warnings + page.warnings;
      partialFailure := partialFailure || page.partialFailure;
      cursor, pageCount := page.next, pageCount + 1;
    }
    assert seen + [] == seen;
    result := Fetched(artifacts, |artifacts|, pageCount, warnings, partialFailure);
  }

  /** The pages seen so far and those still to come from the cursor are the whole chain. */
  ghost predicate Follows<T(!new), W(!new)>(fetch: nat -> Page<T, W>, bound: nat, seen: seq<Page<T, W>>, cursor: Option<nat>)
    requires Progress(fetch, bound)
  {
    Chain(fetch, 0, bound) == seen + if cursor.Some? then Chain(fetch, cursor.value, bound) else []
  }

  lemma FollowsOne<T(!new), W(!new)>(fetch: nat -> Page<T, W>, bound: nat, seen: seq<Page<T, W>>, offset: nat)
    requires Progress(fetch, bound) && Follows(fetch, bound, seen, Some(offset))
    ensures Follows(fetch, bound, seen + [fetch(offset)], fetch(offset).next)
  {
    var page := fetch(offset);
    var rest := if page.next.Some? then Chain(fetch, page.next.value, bound) else [];
    assert Chain(fetch, offset, bound) == [page] + rest;
    assert seen + ([page] + rest) == (seen + [page]) + rest;
  }

  lemma OnePage<T, W>(page: Page<T, W>)
    ensures AllArtifacts([page]) == page.artifacts && AllWarnings([page]) == page.warnings
    ensures AnyFailure([page]) <==> page.partialFailure
  {
    assert [page][1..] == [] && [page][0] == page;
  }

  // ---- offset paging over a list ----

  /** `_page_fetch_result`, and the fixture adapter's paging */
  function PageOf<T, W>(artifacts: seq<T>, offset: nat, limit: nat, warnings: seq<W>, partialFailure: bool): Page<T, W> {
    var start := if offset <= |artifacts| then offset else |artifacts|;
    var end := if offset + limit <= |artifacts| then offset + limit else |artifacts|;
    var page := artifacts[start..if end < start then start else end];
    var next := offset + |page|;
    Page(page, if next < |artifacts| then Some(next) else None, warnings, partialFailure)
  }

  function Pager<T, W>(artifacts: seq<T>, limit: nat, warnings: seq<W>, partialFailure: bool): nat -> Page<T, W> {
    (offset: nat) => PageOf(artifacts, offset, limit, warnings, partialFailure)
  }

  lemma PagerProgress<T(!new), W(!new)>(artifacts: seq<T>, limit: nat, warnings: seq<W>, partialFailure: bool)
    requires limit > 0
    ensures Progress(Pager(artifacts, limit, warnings, partialFailure), |artifacts|)
  {
    forall offset: nat | PageOf(artifacts, offset, limit, warnings, partialFailure).next.Some?
      ensures offset < PageOf(artifacts, offset, limit, warnings, partialFailure).next.value <= |artifacts| {}
  }

  function PageCount(n: nat, limit: nat): (count: nat)
    requires limit > 0
    ensures count >= 1
  {
    if n <= limit then 1 else 1 + PageCount(n - limit, limit)
  }

  /** `max(1, ceil(n / limit))`: the least number of pages, and at least one, that hold `n` artifacts. */
  lemma {:induction false} PageCountIsCeiling(n: nat, limit: nat)
    requires limit > 0
    ensures n <= PageCount(n, limit) * limit
    ensures PageCount(n, limit) > 1 ==> (PageCount(n, limit) - 1) * limit < n
  {
    if n > limit {
      PageCountIsCeiling(n - limit, limit);
      var count := PageCount(n - limit, limit);
      assert (count + 1) * limit == count * limit + limit;
      assert (count - 1) * limit + limit == count * limit;
    }
  }

  function Repeated<W>(warnings: seq<W>, times: nat): seq<W> {
    if times == 0 then [] else warnings + Repeated(warnings, times - 1)
  }

  lemma LastPage<T(!new), W(!new)>(artifacts: seq<T>, offset: nat, limit: nat, warnings: seq<W>, partialFailure: bool)
    requires limit > 0 && offset <= |artifacts| && |artifacts| <= offset + limit
    ensures PageOf(artifacts, offset, limit, warnings, partialFailure) == Page(artifacts[offset..], None, warnings, partialFailure)
  {
  }

  lemma InnerPage<T(!new), W(!new)>(artifacts: seq<T>, offset: nat, limit: nat, warnings: seq<W>, partialFailure: bool)
    requires limit > 0 && offset + limit < |artifacts|
    ensures PageOf(artifacts, offset, limit, warnings, partialFailure) ==
            Page(artifacts[offset..offset + limit], Some(offset + limit), warnings, partialFailure)
    ensures artifacts[offset..offset + limit] + artifacts[offset + limit..] == artifacts[offset..]
  {
  }

  /** What a chain of pages over a list adds up to. */
  ghost predicate AddsUp<T, W>(pages: seq<Page<T, W>>, artifacts: seq<T>, count: nat, warnings: seq<W>, partialFailure: bool) {
    && AllArtifacts(pages) == artifacts && |pages| == count
    && AllWarnings(pages) == Repeated(warnings, count)
    && (AnyFailure(pages) <==> partialFailure)
  }

  lemma PageInFront<T, W>(page: Page<T, W>, pages: seq<Page<T, W>>, artifacts: seq<T>, count: nat, warnings: seq<W>)
    requires AddsUp(pages, artifacts, count, warnings, page.partialFailure) && page.warnings == warnings
    ensures AddsUp([page] + pages, page.artifacts + artifacts, count + 1, warnings, page.partialFailure)
  {
    var all := [page] + pages;
    assert all[1..] == pages && all[0] == page;
    if i :| 0 <= i < |pages| && pages[i].partialFailure {
      assert all[i + 1].partialFailure;
    }
    assert forall i :: 0 < i < |all| ==> all[i] == pages[i - 1];
  }

  lemma {:induction false} OffsetPaging<T(!new), W(!new)>(artifacts: seq<T>, offset: nat, limit: nat, warnings: seq<W>, partialFailure: bool)
    requires limit > 0 && offset <= |artifacts|
    requires Progress(Pager(artifacts, limit, warnings, partialFailure), |artifacts|)
    ensures AddsUp(Chain(Pager(artifacts, limit, warnings, partialFailure), offset, |artifacts|), artifacts[offset..],
                   PageCount(|artifacts| - offset, limit), warnings, partialFailure)
    decreases |artifacts| - offset
  {
    var fetch := Pager(artifacts, limit, warnings, partialFailure);
    if offset + limit < |artifacts| {
      InnerPage(artifacts, offset, limit, warnings, partialFailure);
      OffsetPaging(artifacts, offset + limit, limit, warnings, partialFailure);
      PageInFront(fetch(offset), Chain(fetch, offset + limit, |artifacts|), artifacts[offset + limit..],
                  PageCount(|artifacts| - offset - limit, limit), warnings);
    } else {
      LastPage(artifacts, offset, limit, warnings, partialFailure);
      OnePage(fetch(offset));
      assert Repeated(warnings, 1) == warnings + Repeated(warnings, 0) == warnings;
    }
  }

  /** Every in-scope artifact exactly once, in source order, over `max(1, ceil(n / limit))` pages; the warnings of the
      scan come back once per page. */
  method FetchAllExported<T(==, !new), W(!new)>(exported: seq<T>, inScope: T -> bool, limit: nat, warnings: seq<W>, partialFailure: bool)
    returns (result: Fetched<T, W>)
    requires limit > 0
    ensures result.artifacts == Filter(inScope, exported) && result.completedOffset == |result.artifacts|
    ensures result.pageCount == PageCount(|result.artifacts|, limit)
    ensures result.warnings == Repeated(warnings, result.pageCount) && result.partialFailure == partialFailure
  {
    var artifacts := Filter(inScope, exported);
    PagerProgress(artifacts, limit, warnings, partialFailure);
    OffsetPaging(artifacts, 0, limit, warnings, partialFailure);
    result := FetchAll(Pager(artifacts, limit, warnings, partialFailure), |artifacts|);
    assert artifacts[0..] == artifacts;
  }

  // ---- the restricted email export ----

  datatype Exported = Exported(externalId: string, projectKey: string, email: bool, archive: bool, reviewRequired: bool,
                               sourceApproved: bool, decision: bool)

  datatype ScanWarning = FileMissing | ManualReview(externalId: string) | Skipped(externalId: string)

  predicate KeptDecision(a: Exported, projectKey: string) {
    a.projectKey == projectKey && a.decision && (a.archive || (a.email && !a.reviewRequired && a.sourceApproved))
  }

  function ScanWarnings(exported: seq<Exported>, projectKey: string): seq<ScanWarning> {
    if exported == [] then []
    else
      var last := exported[|exported| - 1];
      ScanWarnings(exported[..|exported| - 1], projectKey)
      + if last.projectKey != projectKey || KeptDecision(last, projectKey) then []
        else if last.email && last.reviewRequired then [ManualReview(last.externalId)] else [Skipped(last.externalId)]
  }

  /** The approved decisions of the project, in order. */
  function KeptDecisions(exported: seq<Exported>, projectKey: string): seq<Exported> {
    if exported == [] then []
    else
      KeptDecisions(exported[..|exported| - 1], projectKey)
      + if KeptDecision(exported[|exported| - 1], projectKey) then [exported[|exported| - 1]] else []
  }

  function CountInProject(exported: seq<Exported>, projectKey: string): nat {
    if exported == [] then 0
    else CountInProject(exported[..|exported| - 1], projectKey) + if exported[|exported| - 1].projectKey == projectKey then 1 else 0
  }

  /** The scan so far kept the approved decisions in order and left a warning for every other artifact of the project. */
  ghost predicate Scanned(exported: seq<Exported>, projectKey: string, artifacts: seq<Exported>, warnings: seq<ScanWarning>) {
    && artifacts == KeptDecisions(exported, projectKey)
    && warnings == ScanWarnings(exported, projectKey)
    && |artifacts| + |warnings| == CountInProject(exported, projectKey)
  }

  lemma ScanOne(exported: seq<Exported>, artifact: Exported, projectKey: string,
                artifacts: seq<Exported>, warnings: seq<ScanWarning>, kept: seq<Exported>, warned: seq<ScanWarning>)
    requires Scanned(exported, projectKey, artifacts, warnings)
    requires kept == if KeptDecision(artifact, projectKey) then [artifact] else []
    requires warned == if artifact.projectKey != projectKey || KeptDecision(artifact, projectKey) then []
                       else if artifact.email && artifact.reviewRequired then [ManualReview(artifact.externalId)]
                       else [Skipped(artifact.externalId)]
    ensures Scanned(exported + [artifact], projectKey, artifacts + kept, warnings + warned)
  {
    assert (exported + [artifact])[..|exported|] == exported;
  }

  /** One artifact, routed as the source routes it. An artifact has one source type. */
  method RouteOne(artifact: Exported, projectKey: string) returns (kept: seq<Exported>, warned: seq<ScanWarning>)
    requires !(artifact.email && artifact.archive)
    ensures kept == if KeptDecision(artifact, projectKey) then [artifact] else []
    ensures warned == if artifact.projectKey != projectKey || KeptDecision(artifact, projectKey) then []
                      else if artifact.email && artifact.reviewRequired then [ManualReview(artifact.externalId)]
                      else [Skipped(artifact.externalId)]
  {
    if artifact.projectKey != projectKey {
      return [], [];
    }
    if artifact.email && artifact.reviewRequired {
      return [], [ManualReview(artifact.externalId)];
    }
    if artifact.decision && (artifact.archive || (artifact.email && artifact.sourceApproved)) {
      return [artifact], [];
    }
    return [], [Skipped(artifact.externalId)];
  }

  /** How many artifacts there are of a kind. */
  function CountOf(kind: Exported -> bool, exported: seq<Exported>): nat {
    if exported == [] then 0 else CountOf(kind, exported[..|exported| - 1]) + if kind(exported[|exported| - 1]) then 1 else 0
  }

  /** A decision of the project's archive, or of an email that is approved and needs no review. */
  predicate Wanted(a: Exported, projectKey: string) {
    && a.projectKey == projectKey && a.decision
    && (a.archive || (a.email && a.sourceApproved && !a.reviewRequired))
  }

  function ForReview(projectKey: string, id: string): Exported -> bool {
    (a: Exported) => a.projectKey == projectKey && a.externalId == id && a.email && a.reviewRequired
  }

  function Unwanted(projectKey: string, id: string): Exported -> bool {
    (a: Exported) => a.projectKey == projectKey && a.externalId == id && !Wanted(a, projectKey) && !(a.email && a.reviewRequired)
  }

  /** Wanted artifacts are kept, each as often as exported; each other one of the project leaves a warning, of emails that need a review
      that they do. */
  ghost predicate Routed(exported: seq<Exported>, projectKey: string, artifacts: seq<Exported>, warnings: seq<ScanWarning>) {
    && (forall a :: multiset(artifacts)[a] == if Wanted(a, projectKey) then multiset(exported)[a] else 0)
    && (forall id :: multiset(warnings)[ManualReview(id)] == CountOf(ForReview(projectKey, id), exported))
    && (forall id :: multiset(warnings)[Skipped(id)] == CountOf(Unwanted(projectKey, id), exported))
    && multiset(warnings)[FileMissing] == 0
  }

  lemma CountSnoc(kind: Exported -> bool, exported: seq<Exported>, a: Exported)
    ensures CountOf(kind, exported + [a]) == CountOf(kind, exported) + if kind(a) then 1 else 0
  {
    assert (exported + [a])[..|exported|] == exported;
  }

  lemma ScanSnoc(exported: seq<Exported>, a: Exported, projectKey: string)
    ensures KeptDecisions(exported + [a], projectKey) == KeptDecisions(exported, projectKey) + if KeptDecision(a, projectKey) then [a] else []
    ensures ScanWarnings(exported + [a], projectKey) ==
            ScanWarnings(exported, projectKey)
            + if a.projectKey != projectKey || KeptDecision(a, projectKey) then []
              else if a.email && a.reviewRequired then [ManualReview(a.externalId)] else [Skipped(a.externalId)]
  {
    assert (exported + [a])[..|exported|] == exported;
  }

  lemma OneMoreIn<T>(xs: seq<T>, more: seq<T>, x: T)
    ensures multiset(xs + more)[x] == multiset(xs)[x] + multiset(more)[x]
  {
  }

  lemma WarnedOf(a: Exported, projectKey: string, warned: seq<ScanWarning>, id: string)
    requires !(a.email && a.archive)
    requires warned == if a.projectKey != projectKey || Wanted(a, projectKey) then []
                       else if a.email && a.reviewRequired then [ManualReview(a.externalId)] else [Skipped(a.externalId)]
    ensures multiset(warned)[ManualReview(id)] == if ForReview(projectKey, id)(a) then 1 else 0
    ensures multiset(warned)[Skipped(id)] == if Unwanted(projectKey, id)(a) then 1 else 0
    ensures multiset(warned)[FileMissing] == 0
  {
  }

  lemma KeptSnoc(exported: seq<Exported>, a: Exported, projectKey: string, artifacts: seq<Exported>, kept: seq<Exported>, x: Exported)
    requires multiset(artifacts)[x] == if Wanted(x, projectKey) then multiset(exported)[x] else 0
    requires kept == if Wanted(a, projectKey) then [a] else []
    ensures multiset(artifacts + kept)[x] == if Wanted(x, projectKey) then multiset(exported + [a])[x] else 0
  {
    OneMoreIn(artifacts, kept, x);
    OneMoreIn(exported, [a], x);
  }

  lemma RoutedSnoc(exported: seq<Exported>, a: Exported, projectKey: string, artifacts: seq<Exported>, warnings: seq<ScanWarning>,
                   kept: seq<Exported>, warned: seq<ScanWarning>)
    requires Routed(exported, projectKey, artifacts, warnings) && !(a.email && a.archive)
    requires kept == if Wanted(a, projectKey) then [a] else []
    requires warned == if a.projectKey != projectKey || Wanted(a, projectKey) then []
                       else if a.email && a.reviewRequired then [ManualReview(a.externalId)] else [Skipped(a.externalId)]
    ensures Routed(exported + [a], projectKey, artifacts + kept, warnings + warned)
  {
    forall x ensures multiset(artifacts + kept)[x] == if Wanted(x, projectKey) then multiset(exported + [a])[x] else 0 {
      KeptSnoc(exported, a, projectKey, artifacts, kept, x);
    }
    forall id ensures multiset(warnings + warned)[ManualReview(id)] == CountOf(ForReview(projectKey, id), exported + [a]) {
      CountSnoc(ForReview(projectKey, id), exported, a);
      WarnedOf(a, projectKey, warned, id);
      OneMoreIn(warnings, warned, ManualReview(id));
    }
    forall id ensures multiset(warnings + warned)[Skipped(id)] == CountOf(Unwanted(projectKey, id), exported + [a]) {
      CountSnoc(Unwanted(projectKey, id), exported, a);
      WarnedOf(a, projectKey, warned, id);
      OneMoreIn(warnings, warned, Skipped(id));
    }
    WarnedOf(a, projectKey, warned, "");
    OneMoreIn(warnings, warned, FileMissing);
  }

  lemma {:induction false} ScanRoutes(exported: seq<Exported>, projectKey: string)
    requires forall i :: 0 <= i < |exported| ==> !(exported[i].email && exported[i].archive)
    ensures Routed(exported, projectKey, KeptDecisions(exported, projectKey), ScanWarnings(exported, projectKey))
  {
    if exported != [] {
      var init, a := exported[..|exported| - 1], exported[|exported| - 1];
      ScanRoutes(init, projectKey);
      ScanSnoc(init, a, projectKey);
      assert exported == init + [a];
      assert KeptDecision(a, projectKey) <==> Wanted(a, projectKey);
      RoutedSnoc(init, a, projectKey, KeptDecisions(init, projectKey), ScanWarnings(init, projectKey),
                 if Wanted(a, projectKey) then [a] else [],
                 if a.projectKey != projectKey || Wanted(a, projectKey) then []
                 else if a.email && a.reviewRequired then [ManualReview(a.externalId)] else [Skipped(a.externalId)]);
    }
  }

  method ScanDecisions(exported: seq<Exported>, projectKey: string) returns (artifacts: seq<Exported>, warnings: seq<ScanWarning>)
    requires forall i :: 0 <= i < |exported| ==> !(exported[i].email && exported[i].archive)
    ensures Scanned(exported, projectKey, artifacts, warnings)
    ensures Routed(exported, projectKey, artifacts, warnings)
  {
    artifacts, warnings := [], [];
    for i := 0 to |exported|
      invariant Scanned(exported[..i], projectKey, artifacts, warnings)
    {
      var kept, warned := RouteOne(exported[i], projectKey);
      ScanOne(exported[..i], exported[i], projectKey, artifacts, warnings, kept, warned);
      assert exported[..i + 1] == exported[..i] + [exported[i]];
      artifacts, warnings := artifacts + kept, warnings + warned;
    }
    ScanRoutes(exported, projectKey);
    assert exported[..|exported|] == exported;
  }

  // ---- JIRA ----

  /** An issue normalizes into an artifact or is skipped with a warning. */
  datatype Issue = Good(key: string) | Malformed(key: string)

  /** The body of a search answer: its issues and, if it has one, its total. */
  datatype Body = NotAList | Issues(issues: seq<Issue>, total: Option<int>)

  datatype Warning = Request(warning: Retry.Warning) | IssuesNotList | IssueSkipped(key: string)

  function GoodKeys(issues: seq<Issue>): seq<string> {
    if issues == [] then [] else GoodKeys(issues[..|issues| - 1]) + if issues[|issues| - 1].Good? then [issues[|issues| - 1].key] else []
  }

  function Skips(issues: seq<Issue>): seq<Warning> {
    if issues == [] then [] else Skips(issues[..|issues| - 1]) + if issues[|issues| - 1].Malformed? then [IssueSkipped(issues[|issues| - 1].key)] else []
  }

  method NormalizeIssues(issues: seq<Issue>) returns (artifacts: seq<string>, warnings: seq<Warning>)
    ensures artifacts == GoodKeys(issues) && warnings == Skips(issues)
    ensures |artifacts| + |warnings| == |issues|
  {
    artifacts, warnings := [], [];
    for i := 0 to |issues|
      invariant artifacts == GoodKeys(issues[..i]) && warnings == Skips(issues[..i])
      invariant |artifacts| + |warnings| == i
    {
      assert issues[..i + 1][..i] == issues[..i];
      if issues[i].Good? {
        artifacts := artifacts + [issues[i].key];
      } else {
        warnings := warnings + [IssueSkipped(issues[i].key)];
      }
    }
    assert issues[..|issues|] == issues;
  }

  function RequestWarnings(warnings: seq<Retry.Warning>): seq<Warning> {
    if warnings == [] then [] else [Request(warnings[0])] + RequestWarnings(warnings[1..])
  }

  /** One page, given the answer of the server at this offset and the warnings of the request. */
  function JiraPage(answer: Option<Body>, offset: nat, requestWarnings: seq<Warning>): Page<string, Warning> {
    if answer.None? then Page([], None, requestWarnings, true)
    else if answer.value.NotAList? then Page([], None, requestWarnings + [IssuesNotList], true)
    else
      var issues, total := answer.value.issues, answer.value.total;
      var next := offset + |issues|;
      var all := if total.Some? then total.value else next;
      var warnings := requestWarnings + Skips(issues);
      Page(GoodKeys(issues), if next < all then Some(next) else None, warnings, warnings != [])
  }

  /** A request without an answer, and an answer whose issues are no list, end the chain with nothing but warnings; an answer without a
      total ends it with its issues. */
  lemma PageWithoutCursor(answer: Option<Body>, offset: nat, requestWarnings: seq<Warning>)
    ensures var page := JiraPage(answer, offset, requestWarnings);
            && (answer == None ==> page == Page([], None, requestWarnings, true))
            && (answer == Some(NotAList) ==> page == Page([], None, requestWarnings + [IssuesNotList], true))
            && (answer.Some? && answer.value.Issues? && answer.value.total == None ==> page.next == None)
            && (answer.Some? && answer.value.Issues? ==>
                  page.artifacts == GoodKeys(answer.value.issues) && page.warnings == requestWarnings + Skips(answer.value.issues))
  {
  }

  /** The cursor stays where it is exactly when the server sends an empty page before its total: then the loop never ends. */
  lemma StallIffEmptyPage(answer: Option<Body>, offset: nat, requestWarnings: seq<Warning>)
    ensures JiraPage(answer, offset, requestWarnings).next == Some(offset) <==>
            answer.Some? && answer.value.Issues? && answer.value.issues == []
            && answer.value.total.Some? && offset < answer.value.total.value
    ensures JiraPage(answer, offset, requestWarnings).next.Some? ==>
            JiraPage(answer, offset, requestWarnings).next.value >= offset
  {
  }

  /** `transport(offset)(k)`: what the `k`-th call for the page at an offset meets. */
  type Transport = nat -> nat -> Retry.Attempt<Body>

  function Answers(transport: Transport, maxRetries: int): nat -> Option<Body> {
    (offset: nat) => Retry.Answer(transport(offset), maxRetries)
  }

  function Notes(transport: Transport, maxRetries: int): nat -> seq<Retry.Warning> {
    (offset: nat) => Retry.Warnings(transport(offset), maxRetries)
  }

  /** `fetch_incremental` of the JIRA adapter. */
  method FetchIncremental(transport: Transport, maxRetries: int, offset: nat) returns (page: Page<string, Warning>, calls: nat)
    ensures page == JiraPage(Answers(transport, maxRetries)(offset), offset, RequestWarnings(Notes(transport, maxRetries)(offset)))
    ensures calls == Retry.TotalCalls(transport(offset), maxRetries)
  {
    var response, warned, made, _ := Retry.RequestWithRetry(transport(offset), maxRetries);
    calls := made;
    var warnings := RequestWarnings(warned);
    if response.None? {
      return Page([], None, warnings, true), calls;
    }
    if response.value.NotAList? {
      return Page([], None, warnings + [IssuesNotList], true), calls;
    }
    var artifacts, skips := NormalizeIssues(response.value.issues);
    warnings := warnings + skips;
    var next := offset + |response.value.issues|;
    var total := if response.value.total.Some? then response.value.total.value else next;
    page := Page(artifacts, if next < total then Some(next) else None, warnings, warnings != []);
  }

  /** A server that answers over a fixed list of issues, with no empty page before its end. */
  ghost predicate Serves(answers: nat -> Option<Body>, raw: seq<Issue>) {
    forall offset: nat :: offset <= |raw| ==> ServesAt(answers(offset), raw, offset)
  }

  ghost predicate ServesAt(answer: Option<Body>, raw: seq<Issue>, offset: nat)
    requires offset <= |raw|
  {
    && answer.Some? && answer.value.Issues? && answer.value.total == Some(|raw|)
    && offset + |answer.value.issues| <= |raw|
    && answer.value.issues == raw[offset..offset + |answer.value.issues|]
    && (offset < |raw| ==> answer.value.issues != [])
  }

  /** The adapter as a page function; offsets beyond the list are never asked for. */
  function JiraFetch(answers: nat -> Option<Body>, notes: nat -> seq<Retry.Warning>, size: nat): nat -> Page<string, Warning> {
    (offset: nat) =>
      if offset <= size then JiraPage(answers(offset), offset, RequestWarnings(notes(offset))) else Page([], None, [], false)
  }

  function SkipsAmong(warnings: seq<Warning>): seq<Warning> {
    if warnings == [] then [] else (if warnings[0].IssueSkipped? then [warnings[0]] else []) + SkipsAmong(warnings[1..])
  }

  lemma {:induction false} SkipsAmongConcat(a: seq<Warning>, b: seq<Warning>)
    ensures SkipsAmong(a + b) == SkipsAmong(a) + SkipsAmong(b)
  {
    if a == [] {
      assert a + b == b;
    } else {
      TailOfConcat(a, b);
      SkipsAmongConcat(a[1..], b);
    }
  }

  lemma {:induction false} GoodConcat(a: seq<Issue>, b: seq<Issue>)
    ensures GoodKeys(a + b) == GoodKeys(a) + GoodKeys(b)
  {
    if b == [] {
      assert a + b == a;
    } else {
      InitOfConcat(a, b);
      GoodConcat(a, b[..|b| - 1]);
    }
  }

  lemma {:induction false} SkipsConcat(a: seq<Issue>, b: seq<Issue>)
    ensures Skips(a + b) == Skips(a) + Skips(b)
  {
    if b == [] {
      assert a + b == a;
    } else {
      InitOfConcat(a, b);
      SkipsConcat(a, b[..|b| - 1]);
    }
  }

  lemma {:induction false} SkipsAreSkips(issues: seq<Issue>)
    ensures SkipsAmong(Skips(issues)) == Skips(issues)
    ensures |GoodKeys(issues)| + |Skips(issues)| == |issues|
  {
    if issues != [] {
      var init := issues[..|issues| - 1];
      SkipsAreSkips(init);
      var last := if issues[|issues| - 1].Malformed? then [IssueSkipped(issues[|issues| - 1].key)] else [];
      SkipsAmongConcat(Skips(init), last);
      assert last != [] ==> last[1..] == [];
    }
  }

  lemma {:induction false} RequestsAreNoSkips(warnings: seq<Retry.Warning>)
    ensures SkipsAmong(RequestWarnings(warnings)) == []
  {
    if warnings != [] {
      RequestsAreNoSkips(warnings[1..]);
      assert RequestWarnings(warnings)[1..] == RequestWarnings(warnings[1..]);
    }
  }

  lemma JiraProgress(answers: nat -> Option<Body>, notes: nat -> seq<Retry.Warning>, raw: seq<Issue>)
    requires Serves(answers, raw)
    ensures Progress(JiraFetch(answers, notes, |raw|), |raw|)
  {
    forall offset: nat | JiraFetch(answers, notes, |raw|)(offset).next.Some?
      ensures offset < JiraFetch(answers, notes, |raw|)(offset).next.value <= |raw|
    {
      assert ServesAt(answers(offset), raw, offset);
    }
  }

  /** A chain of pages accounts for each raw issue once, as an artifact or as a skip. */
  ghost predicate Accounts(pages: seq<Page<string, Warning>>, issues: seq<Issue>) {
    && AllArtifacts(pages) == GoodKeys(issues)
    && SkipsAmong(AllWarnings(pages)) == Skips(issues)
    && |pages| <= if issues == [] then 1 else |issues|
  }

  lemma OneJiraPage(page: Page<string, Warning>, retried: seq<Warning>, issues: seq<Issue>)
    requires SkipsAmong(retried) == []
    requires page.artifacts == GoodKeys(issues) && page.warnings == retried + Skips(issues)
    ensures Accounts([page], issues)
  {
    OnePage(page);
    RequestThenSkips(retried, issues);
  }

  lemma PageCons<T, W>(page: Page<T, W>, rest: seq<Page<T, W>>)
    ensures AllArtifacts([page] + rest) == page.artifacts + AllArtifacts(rest)
    ensures AllWarnings([page] + rest) == page.warnings + AllWarnings(rest)
  {
    var all := [page] + rest;
    assert all[1..] == rest && all[0] == page;
  }

  lemma RequestThenSkips(retried: seq<Warning>, issues: seq<Issue>)
    requires SkipsAmong(retried) == []
    ensures SkipsAmong(retried + Skips(issues)) == Skips(issues)
  {
    SkipsAmongConcat(retried, Skips(issues));
    SkipsAreSkips(issues);
  }

  lemma JiraPageInFront(page: Page<string, Warning>, retried: seq<Warning>, issues: seq<Issue>, rest: seq<Page<string, Warning>>, later: seq<Issue>)
    requires SkipsAmong(retried) == [] && issues != [] && later != []
    requires page.artifacts == GoodKeys(issues) && page.warnings == retried + Skips(issues)
    requires Accounts(rest, later)
    ensures Accounts([page] + rest, issues + later)
  {
    PageCons(page, rest);
    RequestThenSkips(retried, issues);
    SkipsAmongConcat(page.warnings, AllWarnings(rest));
    GoodConcat(issues, later);
    SkipsConcat(issues, later);
  }

  /** What the page at an offset is, for a server that keeps to its list. */
  lemma JiraPageAt(answer: Option<Body>, raw: seq<Issue>, offset: nat, requestWarnings: seq<Warning>)
    requires offset <= |raw| && ServesAt(answer, raw, offset)
    ensures var page, issues := JiraPage(answer, offset, requestWarnings), answer.value.issues;
            && page.artifacts == GoodKeys(issues) && page.warnings == requestWarnings + Skips(issues)
            && raw[offset..] == issues + raw[offset + |issues|..]
            && page.next == (if offset + |issues| < |raw| then Some(offset + |issues|) else None)
  {
    var issues := answer.value.issues;
    assert raw[offset..offset + |issues|] + raw[offset + |issues|..] == raw[offset..];
  }

  lemma JiraLastPage(answer: Option<Body>, raw: seq<Issue>, offset: nat, warnings: seq<Retry.Warning>)
    requires offset <= |raw| && ServesAt(answer, raw, offset) && offset + |answer.value.issues| == |raw|
    ensures Accounts([JiraPage(answer, offset, RequestWarnings(warnings))], raw[offset..])
  {
    JiraPageAt(answer, raw, offset, RequestWarnings(warnings));
    RequestsAreNoSkips(warnings);
    assert raw[offset..] == answer.value.issues;
    OneJiraPage(JiraPage(answer, offset, RequestWarnings(warnings)), RequestWarnings(warnings), answer.value.issues);
  }

  lemma JiraInnerPage(answer: Option<Body>, raw: seq<Issue>, offset: nat, next: nat, warnings: seq<Retry.Warning>,
                      rest: seq<Page<string, Warning>>)
    requires offset < |raw| && ServesAt(answer, raw, offset) && offset + |answer.value.issues| == next < |raw|
    requires Accounts(rest, raw[next..])
    ensures Accounts([JiraPage(answer, offset, RequestWarnings(warnings))] + rest, raw[offset..])
  {
    JiraPageAt(answer, raw, offset, RequestWarnings(warnings));
    RequestsAreNoSkips(warnings);
    JiraPageInFront(JiraPage(answer, offset, RequestWarnings(warnings)), RequestWarnings(warnings), answer.value.issues, rest, raw[next..]);
  }

  /** From any offset on, the pages account for each raw issue once. */
  lemma {:induction false} JiraAccounts(answers: nat -> Option<Body>, notes: nat -> seq<Retry.Warning>, raw: seq<Issue>, offset: nat)
    requires Serves(answers, raw) && offset <= |raw|
    requires Progress(JiraFetch(answers, notes, |raw|), |raw|)
    ensures Accounts(Chain(JiraFetch(answers, notes, |raw|), offset, |raw|), raw[offset..])
    decreases |raw| - offset
  {
    var fetch := JiraFetch(answers, notes, |raw|);
    ChainStep(fetch, offset, |raw|);
    assert ServesAt(answers(offset), raw, offset);
    var next := offset + |answers(offset).value.issues|;
    var page := JiraPage(answers(offset), offset, RequestWarnings(notes(offset)));
    assert fetch(offset) == page;
    assert page.next == if next < |raw| then Some(next) else None;
    if next < |raw| {
      JiraAccounts(answers, notes, raw, next);
      JiraInnerPage(answers(offset), raw, offset, next, notes(offset), Chain(fetch, next, |raw|));
      assert Chain(fetch, offset, |raw|) == [page] + Chain(fetch, next, |raw|);
    } else {
      JiraLastPage(answers(offset), raw, offset, notes(offset));
    }
  }

  /** The transport calls behind a chain of pages. */
  ghost function ChainCalls(transport: Transport, maxRetries: int, fetch: nat -> Page<string, Warning>, offset: nat, bound: nat): nat
    requires Progress(fetch, bound)
    decreases if offset <= bound then bound - offset + 1 else 0
  {
    var next := fetch(offset).next;
    Retry.TotalCalls(transport(offset), maxRetries) + if next.None? then 0 else ChainCalls(transport, maxRetries, fetch, next.value, bound)
  }

  lemma OneMore(rest: nat, each: nat)
    ensures (rest + 1) * each == rest * each + each
  {
  }

  /** At least one call a page, and at most `maxRetries + 1`. */
  lemma {:induction false} CallsPerPage(transport: Transport, maxRetries: int, fetch: nat -> Page<string, Warning>, offset: nat, bound: nat)
    requires Progress(fetch, bound)
    ensures var pages := |Chain(fetch, offset, bound)|;
            pages <= ChainCalls(transport, maxRetries, fetch, offset, bound) <= pages * (Retry.AllowedRetries(maxRetries) + 1)
    decreases if offset <= bound then bound - offset + 1 else 0
  {
    var next := fetch(offset).next;
    ChainStep(fetch, offset, bound);
    if next.Some? {
      CallsPerPage(transport, maxRetries, fetch, next.value, bound);
      OneMore(|Chain(fetch, next.value, bound)|, Retry.AllowedRetries(maxRetries) + 1);
    }
  }

  lemma FailureInFront(page: Page<string, Warning>, rest: seq<Page<string, Warning>>)
    ensures AnyFailure([page] + rest) <==> page.partialFailure || AnyFailure(rest)
  {
    var all := [page] + rest;
    assert all[0] == page && forall i :: 0 < i < |all| ==> all[i] == rest[i - 1];
    assert forall i :: 0 <= i < |rest| ==> rest[i] == all[i + 1];
  }

  /** Over a server that answers, pages fail exactly when they warn. */
  lemma {:induction false} JiraFailures(answers: nat -> Option<Body>, notes: nat -> seq<Retry.Warning>, raw: seq<Issue>, offset: nat)
    requires Serves(answers, raw) && offset <= |raw|
    requires Progress(JiraFetch(answers, notes, |raw|), |raw|)
    ensures var pages := Chain(JiraFetch(answers, notes, |raw|), offset, |raw|);
            AnyFailure(pages) <==> AllWarnings(pages) != []
    decreases |raw| - offset
  {
    var fetch := JiraFetch(answers, notes, |raw|);
    ChainStep(fetch, offset, |raw|);
    assert ServesAt(answers(offset), raw, offset);
    var page := fetch(offset);
    assert page.partialFailure <==> page.warnings != [];
    if page.next.Some? {
      var rest := Chain(fetch, page.next.value, |raw|);
      JiraFailures(answers, notes, raw, page.next.value);
      PageCons(page, rest);
      FailureInFront(page, rest);
    } else {
      OnePage(page);
    }
  }

  /** The transport calls of a whole fetch. */
  ghost function JiraCalls(transport: Transport, maxRetries: int, raw: seq<Issue>): nat
    requires Serves(Answers(transport, maxRetries), raw)
  {
    var answers, notes := Answers(transport, maxRetries), Notes(transport, maxRetries);
    JiraProgress(answers, notes, raw);
    ChainCalls(transport, maxRetries, JiraFetch(answers, notes, |raw|), 0, |raw|)
  }

  method FetchAllJira(transport: Transport, maxRetries: int, raw: seq<Issue>) returns (result: Fetched<string, Warning>)
    requires Serves(Answers(transport, maxRetries), raw)
    ensures result.artifacts == GoodKeys(raw) && SkipsAmong(result.warnings) == Skips(raw)
    ensures |result.artifacts| + |SkipsAmong(result.warnings)| == |raw|
    ensures result.pageCount <= if raw == [] then 1 else |raw|
    // the completed cursor counts artifacts, so it falls short of the raw offset by the skipped issues
    ensures result.completedOffset == |raw| - |Skips(raw)|
    // the fetch counts as partly failed whenever there is any warning, a retry that succeeded included
    ensures result.partialFailure <==> result.warnings != []
    // every page is asked for at least once and at most `maxRetries + 1` times
    ensures result.pageCount <= JiraCalls(transport, maxRetries, raw) <= result.pageCount * (Retry.AllowedRetries(maxRetries) + 1)
  {
    var answers, notes := Answers(transport, maxRetries), Notes(transport, maxRetries);
    JiraProgress(answers, notes, raw);
    JiraAccounts(answers, notes, raw, 0);
    result := FetchAll(JiraFetch(answers, notes, |raw|), |raw|);
    assert raw[0..] == raw;
    SkipsAreSkips(raw);
    CallsPerPage(transport, maxRetries, JiraFetch(answers, notes, |raw|), 0, |raw|);
    JiraFailures(answers, notes, raw, 0);
  }
}
