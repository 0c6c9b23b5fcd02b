/** A two-page refresh worked through the model. Page 1 holds finding CVE-1
    (HIGH) with package_name "libfoo" and package_version "1.2" and carries
    token "tok1"; page 2, served for "tok1", holds finding CVE-2 (LOW)
    without attributes and carries no token. */
module Scenario {
  import opened Wrappers
  import opened Errors
  import opened Findings
  import opened Pagination
  import opened Metrics

  const Cve1 := RawFinding(Some("CVE-1"), Some("HIGH"),
                           [Attribute(PackageNameKey, "libfoo"), Attribute(PackageVersionKey, "1.2")])
  const Cve2 := RawFinding(Some("CVE-2"), Some("LOW"), [])

  const Page1 := Page([Cve1], Some("tok1"))
  const Page2 := Page([Cve2], None)

  /** The upstream of the scenario; any other token is refused. */
  function Upstream(req: Request): Result<Page, Error> {
    if req.nextToken == None then Ok(Page1)
    else if req.nextToken == Some("tok1") then Ok(Page2)
    else Err(ApiError("invalid token"))
  }

  const Info1 := FindingsInfo("CVE-1", "HIGH", "libfoo", "1.2", "", "")
  const Info2 := FindingsInfo("CVE-2", "LOW", "libfoo", "1.2", "", "")

  /** The fetch reads both pages and stops. */
  lemma TwoPagesFollow()
    ensures Follow(Upstream, FirstRequest, 2) == Done([Page1, Page2])
  {
    assert Upstream(FirstRequest) == Ok(Page1);
    assert Upstream(FirstRequest.(nextToken := Some("tok1"))) == Ok(Page2);
  }

  /** CVE-2 has no attributes of its own, yet its record carries CVE-1's
      package values, because the working variables are not reset; both
      records show the package name/version swap. */
  lemma TwoPagesRecords()
    ensures Flatten(AllFindings([Page1, Page2])) == [Info1, Info2]
  {
    var fs := AllFindings([Page1, Page2]);
    assert [Page1, Page2][..1] == [Page1];
    assert AllFindings([Page1]) == [Cve1];
    assert fs == [Cve1, Cve2];
    assert fs[..1] == [Cve1];
    var attrs := Cve1.attributes;
    assert attrs[..1][..0] == [];
    assert Scan(Unset, attrs[..1]) == Working("", "libfoo", "", "");
    assert Scan(Unset, attrs) == Working("1.2", "libfoo", "", "");
    assert [Cve1][..0] == [];
    var w1 := Carry(Unset, [Cve1]);
    assert w1 == Scan(Carry(Unset, []), attrs);
    assert w1 == Working("1.2", "libfoo", "", "");
    assert Carry(Unset, fs) == w1;
    assert Infos(Unset, [Cve1]) == [Info1];
  }

  /** The two label tuples differ, so two samples with value 1 are published. */
  lemma TwoPagesPublished()
    ensures Published([Info1, Info2]) ==
              map[Labels("CVE-1", "HIGH", "1.2", "1.2", "", "") := 1,
                  Labels("CVE-2", "LOW", "1.2", "1.2", "", "") := 1]
  {
    assert [Info1, Info2][..1] == [Info1];
    assert [Info1][..0] == [];
    assert Published([Info1]) == map[LabelsOf(Info1) := 1];
  }

  /** The whole refresh: two pages, two records, two samples. */
  lemma TwoPages()
    ensures Follow(Upstream, FirstRequest, 2) == Done([Page1, Page2])
    ensures Flatten(AllFindings([Page1, Page2])) ==
              [FindingsInfo("CVE-1", "HIGH", "libfoo", "1.2", "", ""),
               FindingsInfo("CVE-2", "LOW", "libfoo", "1.2", "", "")]
    ensures Published(Flatten(AllFindings([Page1, Page2]))) ==
              map[Labels("CVE-1", "HIGH", "1.2", "1.2", "", "") := 1,
                  Labels("CVE-2", "LOW", "1.2", "1.2", "", "") := 1]
  {
    TwoPagesFollow();
    TwoPagesRecords();
    TwoPagesPublished();
  }

  /** A caller of `Snapshot` on the scenario's upstream. */
  method RefreshOnce() returns (err: Option<Error>, samples: map<Labels, int>)
    ensures err.None?
    ensures samples == map[Labels("CVE-1", "HIGH", "1.2", "1.2", "", "") := 1,
                           Labels("CVE-2", "LOW", "1.2", "1.2", "", "") := 1]
  {
    TwoPages();
    var gauges := new GaugeVec();
    err := Snapshot(gauges, Upstream, 2);
    samples := gauges.samples;
  }
}
