/** The gauge vector the exporter publishes and `snapshot` (main.go:63-84),
    which refreshes it.

    Of the Prometheus gauge vector only what `snapshot` relies on is
    modelled: a map from a full label tuple to the gauge's value, `Reset`,
    which empties it, and `With(labels).Set(v)`, which sets one entry. Two
    records with the same label tuple therefore publish one sample. */
module Metrics {
  import opened Wrappers
  import opened Errors
  import opened Findings
  import opened Pagination

  /** The label values of one sample, in the order of the label names
      "name", "severity", "package_version", "package_name", "CVSS2_VECTOR",
      "CVSS2_SCORE" (main.go:35). */
  datatype Labels = Labels(
    name: string,
    severity: string,
    packageVersion: string,
    packageName: string,
    cvss2Vector: string,
    cvss2Score: string)

  /** The label tuple of main.go:72-79. The record's `PackageName` goes into
      both the `package_version` and the `package_name` label; its
      `PackageVersion` is not published. */
  function LabelsOf(info: FindingsInfo): (l: Labels)
    ensures l.packageVersion == l.packageName == info.packageName
    ensures l.name == info.name && l.severity == info.severity
    ensures l.cvss2Vector == info.cvss2Vector && l.cvss2Score == info.cvss2Score
  {
    Labels(info.name, info.severity, info.packageName, info.packageName, info.cvss2Vector, info.cvss2Score)
  }

  /** The gauge vector `aws_custom_ecr_image_scan_findings` (main.go:29-36). */
  class GaugeVec {
    var samples: map<Labels, int>

    constructor ()
      ensures samples == map[]
    {
      samples := map[];
    }

    /** `Reset`: every sample is removed. */
    method Reset()
      modifies this
      ensures samples == map[]
    {
      samples := map[];
    }

    /** `With(labels).Set(value)`: the sample for `labels` is created or
        overwritten; every other sample stays as it was. */
    method Set(labels: Labels, value: int)
      modifies this
      ensures samples == old(samples)[labels := value]
    {
      samples := samples[labels := value];
    }
  }

  /** The samples that setting every record's label tuple to 1, in order,
      produces on an empty gauge vector. */
  function Published(infos: seq<FindingsInfo>): (m: map<Labels, int>)
    ensures forall i :: 0 <= i < |infos| ==> LabelsOf(infos[i]) in m
    ensures forall l :: l in m ==> m[l] == 1
    decreases |infos|
  {
    if |infos| == 0 then map[] else Published(infos[..|infos| - 1])[LabelsOf(infos[|infos| - 1]) := 1]
  }

  /** Two records publish the same sample exactly when they agree on
      everything but `PackageVersion`, which no label shows. */
  lemma SameLabels(a: FindingsInfo, b: FindingsInfo)
    ensures LabelsOf(a) == LabelsOf(b) <==> a.(packageVersion := b.packageVersion) == b
  {
    if LabelsOf(a) == LabelsOf(b) {
      assert a.name == b.name && a.severity == b.severity && a.packageName == b.packageName;
    }
  }

  /** The published label tuples are exactly those of the records, each
      with value 1. */
  lemma {:induction false} PublishedSamples(infos: seq<FindingsInfo>)
    ensures Published(infos).Keys == set i | 0 <= i < |infos| :: LabelsOf(infos[i])
    ensures forall l :: l in Published(infos) ==> Published(infos)[l] == 1
    decreases |infos|
  {
    if |infos| > 0 {
      var p := infos[..|infos| - 1];
      PublishedSamples(p);
      var last := LabelsOf(infos[|infos| - 1]);
      assert forall i :: 0 <= i < |p| ==> p[i] == infos[i];
      assert (set i | 0 <= i < |infos| :: LabelsOf(infos[i])) ==
             (set i | 0 <= i < |p| :: LabelsOf(p[i])) + {last};
    }
  }

  /** Records with equal label tuples collapse: there are never more
      samples than records. */
  lemma {:induction false} PublishedCount(infos: seq<FindingsInfo>)
    ensures |Published(infos)| <= |infos|
    decreases |infos|
  {
    if |infos| > 0 {
      var p := infos[..|infos| - 1];
      PublishedCount(p);
      var l := LabelsOf(infos[|infos| - 1]);
      assert Published(infos).Keys == Published(p).Keys + {l};
      assert |Published(p).Keys + {l}| <= |Published(p).Keys| + 1;
    }
  }

  /** `snapshot`: the gauge vector is reset BEFORE the fetch. A failed fetch
      returns the wrapped error and leaves the gauge vector empty; a
      successful one leaves exactly the samples of the fetched records, none
      from before the call. */
  method Snapshot(findings: GaugeVec, svc: Service, ghost fuel: nat) returns (err: Option<Error>)
    requires !Follow(svc, FirstRequest, fuel).OutOfFuel?
    modifies findings
    ensures err.Some? <==> Follow(svc, FirstRequest, fuel).Failed?
    ensures err.Some? ==> err.value == ReadFindingsFailed(DescribeFailed(Follow(svc, FirstRequest, fuel).error))
    ensures err.Some? ==> findings.samples == map[]
    ensures err.None? ==> findings.samples == Published(Flatten(AllFindings(Follow(svc, FirstRequest, fuel).pages)))
  {
    findings.Reset();
    var result := GetECRImageScanFindings(svc, fuel);
    if result.Err? {
      return Some(ReadFindingsFailed(result.error));
    }
    var findingsInfos := result.value;
    for k := 0 to |findingsInfos|
      invariant findings.samples == Published(findingsInfos[..k])
    {
      findings.Set(LabelsOf(findingsInfos[k]), 1);
      assert findingsInfos[..k + 1][..k] == findingsInfos[..k];
    }
    assert findingsInfos[..|findingsInfos|] == findingsInfos;
    return None;
  }
}
