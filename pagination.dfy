/** The paginated fetch of `getECRImageScanFindings` (main.go:101-160).

    The ECR client is abstracted into a `Service`: a total function from the
    request to either a page of findings with an optional continuation token
    or an error. `Follow` is the specification of the pagination: it issues
    the first request, and then the same request with the previous page's
    token, until a page comes back without a token or a request fails.
    The upstream alone decides whether that ever happens; the fetch method
    therefore takes, as a ghost argument, a number of requests within which
    it does. */
module Pagination {
  import opened Wrappers
  import opened Errors
  import opened Findings

  /** The fields of `ecr.DescribeImageScanFindingsInput` that the exporter sets. */
  datatype Request = Request(repositoryName: string, imageTag: string, nextToken: Option<string>)

  /** One `DescribeImageScanFindings` response: a page of findings and the
      optional `NextToken`. */
  datatype Page = Page(findings: seq<RawFinding>, nextToken: Option<string>)

  /** The upstream API call, as a function of the request. */
  type Service = Request -> Result<Page, Error>

  const RepositoryName := "api"
  const ImageTag := "develop"

  /** The request of main.go:109-112: fixed repository and tag, no token. */
  const FirstRequest := Request(RepositoryName, ImageTag, None)

  /** How a run of requests ends: every page up to and including the first
      one without a token; the pages read before a failed request and its
      error; or more requests needed than `fuel` allows. */
  datatype Pagination = Done(pages: seq<Page>) | Failed(pages: seq<Page>, error: Error) | OutOfFuel

  function Prepend(ps: seq<Page>, o: Pagination): Pagination {
    match o
    case Done(qs) => Done(ps + qs)
    case Failed(qs, e) => Failed(ps + qs, e)
    case OutOfFuel => OutOfFuel
  }

  /** At most `fuel` requests, starting with `req`, each next one carrying
      the previous page's token. */
  function Follow(svc: Service, req: Request, fuel: nat): (r: Pagination)
    ensures fuel == 0 ==> r.OutOfFuel?
    ensures r.Done? ==> 0 < |r.pages| <= fuel
    ensures r.Failed? ==> |r.pages| < fuel
    decreases fuel
  {
    if fuel == 0 then OutOfFuel
    else match svc(req)
      case Err(e) => Failed([], e)
      case Ok(page) =>
        if page.nextToken.None? then Done([page])
        else Prepend([page], Follow(svc, req.(nextToken := page.nextToken), fuel - 1))
  }

  /** Every finding of `pages`, page after page. */
  function AllFindings(pages: seq<Page>): (fs: seq<RawFinding>)
    ensures |fs| == TotalFindings(pages)
    decreases |pages|
  {
    if |pages| == 0 then [] else AllFindings(pages[..|pages| - 1]) + pages[|pages| - 1].findings
  }

  /** The number of findings over all pages. */
  function TotalFindings(pages: seq<Page>): nat
    decreases |pages|
  {
    if |pages| == 0 then 0 else TotalFindings(pages[..|pages| - 1]) + |pages[|pages| - 1].findings|
  }

  // ---------------------------------------------------------------------
  // An independent description of a run of requests
  // ---------------------------------------------------------------------

  /** The request issued after the pages `ps` have been read, starting with `req`. */
  function After(req: Request, ps: seq<Page>): Request {
    if |ps| == 0 then req else req.(nextToken := ps[|ps| - 1].nextToken)
  }

  /** Page `i` of `ps` is what the upstream answers to the request issued
      after pages `0..i-1`. */
  ghost predicate Served(svc: Service, req: Request, ps: seq<Page>) {
    forall i :: 0 <= i < |ps| ==> svc(After(req, ps[..i])) == Ok(ps[i])
  }

  /** Every page of `ps` carries a continuation token. */
  ghost predicate Continues(ps: seq<Page>) {
    forall i :: 0 <= i < |ps| ==> ps[i].nextToken.Some?
  }

  /** A complete run: served in order, every page but the last with a token,
      the last without one. */
  ghost predicate CompleteRun(svc: Service, req: Request, ps: seq<Page>) {
    |ps| > 0 && Served(svc, req, ps) && Continues(ps[..|ps| - 1]) && ps[|ps| - 1].nextToken.None?
  }

  /** A failed run: `ps` served in order, all with a token, and the request
      after them answered with `e`. */
  ghost predicate FailedRun(svc: Service, req: Request, ps: seq<Page>, e: Error) {
    Served(svc, req, ps) && Continues(ps) && svc(After(req, ps)) == Err(e)
  }

  /** Reading page `ps[0]` first shifts the requests by one page. */
  lemma ShiftAfter(req: Request, ps: seq<Page>, i: nat)
    requires i < |ps|
    ensures After(req.(nextToken := ps[0].nextToken), ps[1..][..i]) == After(req, ps[..i + 1])
  {
    if i > 0 {
      assert ps[1..][..i][i - 1] == ps[i];
    }
  }

  lemma ShiftServed(svc: Service, req: Request, ps: seq<Page>)
    requires |ps| > 0
    ensures Served(svc, req, ps) <==>
              svc(req) == Ok(ps[0]) && Served(svc, req.(nextToken := ps[0].nextToken), ps[1..])
  {
    var req' := req.(nextToken := ps[0].nextToken);
    forall i | 0 <= i < |ps| - 1
      ensures After(req', ps[1..][..i]) == After(req, ps[..i + 1]) && ps[1..][i] == ps[i + 1]
    {
      ShiftAfter(req, ps, i);
    }
    assert ps[..0] == [];
    if svc(req) == Ok(ps[0]) && Served(svc, req', ps[1..]) {
      forall i | 0 <= i < |ps| ensures svc(After(req, ps[..i])) == Ok(ps[i]) {
        if i > 0 {
          assert After(req', ps[1..][..i - 1]) == After(req, ps[..i]);
        }
      }
    }
  }

  lemma {:induction false} FollowDoneSound(svc: Service, req: Request, fuel: nat, ps: seq<Page>)
    requires Follow(svc, req, fuel) == Done(ps)
    ensures CompleteRun(svc, req, ps) && |ps| <= fuel
    decreases fuel
  {
    assert fuel > 0 && svc(req).Ok?;
    var page := svc(req).value;
    if page.nextToken.None? {
      assert ps == [page];
      ShiftServed(svc, req, ps);
      assert ps[..0] == [];
    } else {
      var req' := req.(nextToken := page.nextToken);
      var rest := Follow(svc, req', fuel - 1);
      assert rest.Done? && ps == [page] + rest.pages;
      FollowDoneSound(svc, req', fuel - 1, rest.pages);
      assert ps[1..] == rest.pages;
      ShiftServed(svc, req, ps);
      assert ps[..|ps| - 1] == [page] + rest.pages[..|rest.pages| - 1];
    }
  }

  lemma {:induction false} FollowDoneComplete(svc: Service, req: Request, fuel: nat, ps: seq<Page>)
    requires CompleteRun(svc, req, ps) && |ps| <= fuel
    ensures Follow(svc, req, fuel) == Done(ps)
    decreases fuel
  {
    ShiftServed(svc, req, ps);
    if |ps| > 1 {
      var req' := req.(nextToken := ps[0].nextToken);
      assert ps[..|ps| - 1][0] == ps[0];
      assert ps[1..][..|ps| - 2] == ps[..|ps| - 1][1..];
      FollowDoneComplete(svc, req', fuel - 1, ps[1..]);
      assert [ps[0]] + ps[1..] == ps;
    }
  }

  /** The pagination ends with all of `ps` exactly when the pages are served
      in order, the next request always carries the previous page's token,
      and the run stops at the FIRST page without a token. */
  lemma FollowDone(svc: Service, req: Request, fuel: nat, ps: seq<Page>)
    ensures Follow(svc, req, fuel) == Done(ps) <==> CompleteRun(svc, req, ps) && |ps| <= fuel
  {
    if Follow(svc, req, fuel) == Done(ps) {
      FollowDoneSound(svc, req, fuel, ps);
    }
    if CompleteRun(svc, req, ps) && |ps| <= fuel {
      FollowDoneComplete(svc, req, fuel, ps);
    }
  }

  lemma {:induction false} FollowFailedSound(svc: Service, req: Request, fuel: nat, ps: seq<Page>, e: Error)
    requires Follow(svc, req, fuel) == Failed(ps, e)
    ensures FailedRun(svc, req, ps, e) && |ps| < fuel
    decreases fuel
  {
    assert fuel > 0;
    if svc(req).Ok? {
      var page := svc(req).value;
      var req' := req.(nextToken := page.nextToken);
      var rest := Follow(svc, req', fuel - 1);
      assert page.nextToken.Some? && rest.Failed? && ps == [page] + rest.pages;
      FollowFailedSound(svc, req', fuel - 1, rest.pages, e);
      assert ps[1..] == rest.pages;
      ShiftServed(svc, req, ps);
      ShiftAfter(req, ps, |ps| - 1);
      assert ps[1..][..|ps| - 1] == ps[1..] && ps[..|ps|] == ps;
    }
  }

  lemma {:induction false} FollowFailedComplete(svc: Service, req: Request, fuel: nat, ps: seq<Page>, e: Error)
    requires FailedRun(svc, req, ps, e) && |ps| < fuel
    ensures Follow(svc, req, fuel) == Failed(ps, e)
    decreases fuel
  {
    if |ps| > 0 {
      ShiftServed(svc, req, ps);
      var req' := req.(nextToken := ps[0].nextToken);
      ShiftAfter(req, ps, |ps| - 1);
      assert ps[1..][..|ps| - 1] == ps[1..] && ps[..|ps|] == ps;
      FollowFailedComplete(svc, req', fuel - 1, ps[1..], e);
      assert [ps[0]] + ps[1..] == ps;
    }
  }

  /** The pagination fails after reading `ps` exactly when those pages were
      served in order, each with a token, and the next request failed. */
  lemma FollowFailed(svc: Service, req: Request, fuel: nat, ps: seq<Page>, e: Error)
    ensures Follow(svc, req, fuel) == Failed(ps, e) <==> FailedRun(svc, req, ps, e) && |ps| < fuel
  {
    if Follow(svc, req, fuel) == Failed(ps, e) {
      FollowFailedSound(svc, req, fuel, ps, e);
    }
    if FailedRun(svc, req, ps, e) && |ps| < fuel {
      FollowFailedComplete(svc, req, fuel, ps, e);
    }
  }

  /** Once `n` requests suffice, any larger bound gives the same outcome, so
      the fetch does not depend on the bound it is given. */
  lemma {:induction false} FollowStable(svc: Service, req: Request, n: nat, m: nat)
    requires !Follow(svc, req, n).OutOfFuel? && n <= m
    ensures Follow(svc, req, m) == Follow(svc, req, n)
    decreases n
  {
    assert n > 0;
    match svc(req)
    case Err(_) =>
    case Ok(page) =>
      if page.nextToken.Some? {
        FollowStable(svc, req.(nextToken := page.nextToken), n - 1, m - 1);
      }
  }

  /** One request of the pagination: the outcome after `req` in terms of
      its answer and of the outcome after the next request. */
  lemma FollowStep(svc: Service, req: Request, fuel: nat)
    requires !Follow(svc, req, fuel).OutOfFuel?
    ensures fuel > 0
    ensures svc(req).Err? ==> Follow(svc, req, fuel) == Failed([], svc(req).error)
    ensures svc(req).Ok? && svc(req).value.nextToken.None? ==> Follow(svc, req, fuel) == Done([svc(req).value])
    ensures svc(req).Ok? && svc(req).value.nextToken.Some? ==>
              var next := Follow(svc, req.(nextToken := svc(req).value.nextToken), fuel - 1);
              !next.OutOfFuel? && Follow(svc, req, fuel) == Prepend([svc(req).value], next)
  {
  }

  lemma PrependPrepend(ps: seq<Page>, qs: seq<Page>, o: Pagination)
    ensures Prepend(ps, Prepend(qs, o)) == Prepend(ps + qs, o)
  {
    match o
    case Done(rs) => assert ps + (qs + rs) == (ps + qs) + rs;
    case Failed(rs, _) => assert ps + (qs + rs) == (ps + qs) + rs;
    case OutOfFuel =>
  }

  /** Reading one more page extends the records and the working variables
      of the pages read so far. */
  lemma FetchPage(fetched: seq<Page>, page: Page)
    ensures Flatten(AllFindings(fetched + [page])) ==
              Flatten(AllFindings(fetched)) + Infos(Carry(Unset, AllFindings(fetched)), page.findings)
    ensures Carry(Unset, AllFindings(fetched + [page])) == Carry(Carry(Unset, AllFindings(fetched)), page.findings)
  {
    assert (fetched + [page])[..|fetched|] == fetched;
    assert AllFindings(fetched + [page]) == AllFindings(fetched) + page.findings;
    InfosAppend(Unset, AllFindings(fetched), page.findings);
    CarryAppend(Unset, AllFindings(fetched), page.findings);
  }

  /** One turn of the page loop, seen from the whole pagination: the pages
      read so far followed by the outcome from `input` on. */
  lemma FetchStep(svc: Service, fuel: nat, fetched: seq<Page>, input: Request, left: nat)
    requires Follow(svc, FirstRequest, fuel) == Prepend(fetched, Follow(svc, input, left))
    requires !Follow(svc, input, left).OutOfFuel?
    ensures left > 0
    ensures svc(input).Err? ==> Follow(svc, FirstRequest, fuel) == Failed(fetched, svc(input).error)
    ensures svc(input).Ok? && svc(input).value.nextToken.None? ==>
              Follow(svc, FirstRequest, fuel) == Done(fetched + [svc(input).value])
    ensures svc(input).Ok? && svc(input).value.nextToken.Some? ==>
              var next := Follow(svc, input.(nextToken := svc(input).value.nextToken), left - 1);
              !next.OutOfFuel? && Follow(svc, FirstRequest, fuel) == Prepend(fetched + [svc(input).value], next)
  {
    FollowStep(svc, input, left);
    if svc(input).Ok? {
      var page := svc(input).value;
      if page.nextToken.Some? {
        PrependPrepend(fetched, [page], Follow(svc, input.(nextToken := page.nextToken), left - 1));
      } else {
        assert fetched + [page] == fetched + [page] + [];
      }
    } else {
      assert fetched + [] == fetched;
    }
  }

  // ---------------------------------------------------------------------
  // The imperative fetch
  // ---------------------------------------------------------------------

  /** The body of the page loop of `getECRImageScanFindings` for one page
      (main.go:127-150): the loop over the page's findings, filling `results`
      by index, and inside it the attribute loop that updates the four
      working variables, which are passed in and handed back because they
      live outside the page loop. */
  method ReadPage(fs: seq<RawFinding>, packageVersion0: string, packageName0: string, cvss2Vector0: string, cvss2Score0: string)
    returns (results: seq<FindingsInfo>, packageVersion: string, packageName: string, cvss2Vector: string, cvss2Score: string)
    ensures results == Infos(Working(packageVersion0, packageName0, cvss2Vector0, cvss2Score0), fs)
    ensures Working(packageVersion, packageName, cvss2Vector, cvss2Score) ==
            Carry(Working(packageVersion0, packageName0, cvss2Vector0, cvss2Score0), fs)
  {
    packageVersion, packageName, cvss2Vector, cvss2Score := packageVersion0, packageName0, cvss2Vector0, cvss2Score0;
    ghost var start := Working(packageVersion, packageName, cvss2Vector, cvss2Score);
    var buffer := new FindingsInfo[|fs|];
    for i := 0 to |fs|
      invariant buffer[..i] == Infos(start, fs[..i])
      invariant Working(packageVersion, packageName, cvss2Vector, cvss2Score) == Carry(start, fs[..i])
    {
      var finding := fs[i];
      ghost var before := Working(packageVersion, packageName, cvss2Vector, cvss2Score);
      for j := 0 to |finding.attributes|
        invariant Working(packageVersion, packageName, cvss2Vector, cvss2Score) == Scan(before, finding.attributes[..j])
      {
        var attr := finding.attributes[j];
        if attr.key == PackageVersionKey {
          packageVersion := attr.value;
        } else if attr.key == PackageNameKey {
          packageName := attr.value;
        } else if attr.key == Cvss2VectorKey {
          cvss2Vector := attr.value;
        } else if attr.key == Cvss2ScoreKey {
          cvss2Score := attr.value;
        }
        assert finding.attributes[..j + 1][..j] == finding.attributes[..j];
      }
      assert finding.attributes[..|finding.attributes|] == finding.attributes;
      assert fs[..i + 1][..i] == fs[..i];
      buffer[i] := FindingsInfo(StringValue(finding.name), StringValue(finding.severity),
                                packageName, packageVersion, cvss2Vector, cvss2Score);
    }
    assert fs[..|fs|] == fs;
    results := buffer[..];
  }

  /** `getECRImageScanFindings`: requests pages until one comes back without
      a token, appending each page's records, with the four working
      variables kept across pages. The result is the records of every
      finding, in page order, when the pagination completes, and only the
      wrapped error when a request fails, however many pages were read
      before. */
  method GetECRImageScanFindings(svc: Service, ghost fuel: nat) returns (r: Result<seq<FindingsInfo>, Error>)
    requires !Follow(svc, FirstRequest, fuel).OutOfFuel?
    ensures r.Err? <==> Follow(svc, FirstRequest, fuel).Failed?
    ensures r.Err? ==> r.error == DescribeFailed(Follow(svc, FirstRequest, fuel).error)
    ensures r.Ok? ==> r.value == Flatten(AllFindings(Follow(svc, FirstRequest, fuel).pages))
  {
    var findingsInfos: seq<FindingsInfo> := [];
    var input := FirstRequest;
    var packageVersion, packageName, cvss2Vector, cvss2Score := "", "", "", "";
    ghost var fetched: seq<Page> := [];
    ghost var left: nat := fuel;
    while true
      invariant Follow(svc, FirstRequest, fuel) == Prepend(fetched, Follow(svc, input, left))
      invariant !Follow(svc, input, left).OutOfFuel?
      invariant findingsInfos == Flatten(AllFindings(fetched))
      invariant Working(packageVersion, packageName, cvss2Vector, cvss2Score) == Carry(Unset, AllFindings(fetched))
      decreases left
    {
      var response := svc(input);
      FetchStep(svc, fuel, fetched, input, left);
      if response.Err? {
        return Err(DescribeFailed(response.error));
      }
      var page := response.value;
      var results;
      results, packageVersion, packageName, cvss2Vector, cvss2Score :=
        ReadPage(page.findings, packageVersion, packageName, cvss2Vector, cvss2Score);
      FetchPage(fetched, page);
      findingsInfos := findingsInfos + results;
      fetched := fetched + [page];
      if page.nextToken.None? {
        return Ok(findingsInfos);
      }
      input := input.(nextToken := page.nextToken);
      left := left - 1;
    }
  }
}
