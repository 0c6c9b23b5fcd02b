/** Findings as ECR reports them, the exporter's flattened record
    (`findingsInfo`), and the attribute extraction of
    `getECRImageScanFindings` as specification functions.

    The extraction keeps four working variables (package version, package
    name, CVSS2 vector, CVSS2 score) that are declared once, before any page
    is read, and are never reset. A finding's record therefore shows, for
    each of the four keys, the value of the LAST attribute with that key in
    the attribute lists of this finding and every finding before it, or the
    empty string when no such attribute was seen. `Carry` is that state,
    `Infos` the records built from it. */
module Findings {
  import opened Wrappers

  /** One key/value annotation of a finding. */
  datatype Attribute = Attribute(key: string, value: string)

  /** One finding of an image scan. Name and severity are optional
      (`*string`) upstream. */
  datatype RawFinding = RawFinding(name: Option<string>, severity: Option<string>, attributes: seq<Attribute>)

  /** The exporter's flattened record, fields in the order of main.go:18-25. */
  datatype FindingsInfo = FindingsInfo(
    name: string,
    severity: string,
    packageVersion: string,
    packageName: string,
    cvss2Vector: string,
    cvss2Score: string)

  /** The four working variables of main.go:114-119. */
  datatype Working = Working(packageVersion: string, packageName: string, cvss2Vector: string, cvss2Score: string)

  /** Their zero values, which Go gives them once, before the page loop. */
  const Unset := Working("", "", "", "")

  const PackageVersionKey := "package_version"
  const PackageNameKey := "package_name"
  const Cvss2VectorKey := "CVSS2_VECTOR"
  const Cvss2ScoreKey := "CVSS2_SCORE"

  /** The keys the `switch` of main.go:130-139 recognises. */
  predicate IsRecognised(key: string) {
    key == PackageVersionKey || key == PackageNameKey || key == Cvss2VectorKey || key == Cvss2ScoreKey
  }

  /** `aws.StringValue`: the pointed-to string, or "" for nil. */
  function StringValue(p: Option<string>): (s: string)
    ensures p == Some(s) || (p == None && s == "")
  {
    match p
    case Some(s) => s
    case None => ""
  }

  /** The working variable that an attribute with `key` writes; "" for a key
      that no case of the switch names. */
  function Field(w: Working, key: string): string {
    if key == PackageVersionKey then w.packageVersion
    else if key == PackageNameKey then w.packageName
    else if key == Cvss2VectorKey then w.cvss2Vector
    else if key == Cvss2ScoreKey then w.cvss2Score
    else ""
  }

  /** One pass of the attribute `switch` (main.go:130-139). */
  function Capture(w: Working, a: Attribute): (r: Working)
    ensures IsRecognised(a.key) ==> Field(r, a.key) == a.value
    ensures forall k :: k != a.key ==> Field(r, k) == Field(w, k)
    ensures !IsRecognised(a.key) ==> r == w
  {
    if a.key == PackageVersionKey then w.(packageVersion := a.value)
    else if a.key == PackageNameKey then w.(packageName := a.value)
    else if a.key == Cvss2VectorKey then w.(cvss2Vector := a.value)
    else if a.key == Cvss2ScoreKey then w.(cvss2Score := a.value)
    else w
  }

  /** The working variables after the attribute loop (main.go:129-140) has
      run over `attrs`, starting from `w`. */
  function Scan(w: Working, attrs: seq<Attribute>): (r: Working)
    ensures |attrs| > 0 && IsRecognised(attrs[|attrs| - 1].key) ==> Field(r, attrs[|attrs| - 1].key) == attrs[|attrs| - 1].value
    decreases |attrs|
  {
    if |attrs| == 0 then w else Capture(Scan(w, attrs[..|attrs| - 1]), attrs[|attrs| - 1])
  }

  /** The record literal of main.go:141-148: name and severity come from the
      finding, and the package version and package name are SWAPPED. */
  function Record(f: RawFinding, w: Working): (r: FindingsInfo)
    ensures r.name == StringValue(f.name) && r.severity == StringValue(f.severity)
    ensures r.packageName == w.packageVersion && r.packageVersion == w.packageName
    ensures r.cvss2Vector == w.cvss2Vector && r.cvss2Score == w.cvss2Score
  {
    FindingsInfo(StringValue(f.name), StringValue(f.severity),
                 w.packageName,     // PackageVersion: packageName
                 w.packageVersion,  // PackageName: packageVersion
                 w.cvss2Vector, w.cvss2Score)
  }

  /** The working variables after every finding of `fs` has been scanned, in
      order, starting from `w`; they are never reset between findings. */
  function Carry(w: Working, fs: seq<RawFinding>): (r: Working)
    ensures |fs| == 0 ==> r == w
    ensures |fs| == 1 ==> r == Scan(w, fs[0].attributes)
    decreases |fs|
  {
    if |fs| == 0 then w else Scan(Carry(w, fs[..|fs| - 1]), fs[|fs| - 1].attributes)
  }

  /** The records built for `fs`, one per finding, each from the working
      variables as they stand right after that finding's attributes. */
  function Infos(w: Working, fs: seq<RawFinding>): (r: seq<FindingsInfo>)
    ensures |r| == |fs|
    decreases |fs|
  {
    if |fs| == 0 then [] else Infos(w, fs[..|fs| - 1]) + [Record(fs[|fs| - 1], Carry(w, fs))]
  }

  /** The records `getECRImageScanFindings` builds for the findings of a
      whole fetch, in the order they arrived. */
  function Flatten(fs: seq<RawFinding>): seq<FindingsInfo> {
    Infos(Unset, fs)
  }

  /** The attribute lists of `fs`, one after another. */
  function AllAttributes(fs: seq<RawFinding>): seq<Attribute>
    decreases |fs|
  {
    if |fs| == 0 then [] else AllAttributes(fs[..|fs| - 1]) + fs[|fs| - 1].attributes
  }

  /** `attrs` without the attributes whose key the switch ignores. */
  function RecognisedOnly(attrs: seq<Attribute>): seq<Attribute>
    decreases |attrs|
  {
    if |attrs| == 0 then []
    else if IsRecognised(attrs[|attrs| - 1].key) then RecognisedOnly(attrs[..|attrs| - 1]) + [attrs[|attrs| - 1]]
    else RecognisedOnly(attrs[..|attrs| - 1])
  }

  // ---------------------------------------------------------------------
  // The attribute scan of one finding
  // ---------------------------------------------------------------------

  /** Scanning two lists one after the other is scanning their concatenation. */
  lemma {:induction false} ScanAppend(w: Working, a: seq<Attribute>, b: seq<Attribute>)
    ensures Scan(w, a + b) == Scan(Scan(w, a), b)
    decreases |b|
  {
    if |b| == 0 {
      assert a + b == a;
    } else {
      var b' := b[..|b| - 1];
      assert (a + b)[..|a + b| - 1] == a + b';
      assert (a + b)[|a + b| - 1] == b[|b| - 1];
      ScanAppend(w, a, b');
    }
  }

  /** For each recognised key the LAST attribute with that key wins; with no
      such attribute the working variable keeps the value it had. */
  lemma {:induction false} ScanLastWins(w: Working, attrs: seq<Attribute>, key: string)
    requires IsRecognised(key)
    ensures (forall i :: 0 <= i < |attrs| ==> attrs[i].key != key) ==> Field(Scan(w, attrs), key) == Field(w, key)
    ensures forall i :: 0 <= i < |attrs| && attrs[i].key == key && (forall j :: i < j < |attrs| ==> attrs[j].key != key) ==>
              Field(Scan(w, attrs), key) == attrs[i].value
    decreases |attrs|
  {
    if |attrs| > 0 {
      var n := |attrs|;
      var p := attrs[..n - 1];
      ScanLastWins(w, p, key);
      assert Scan(w, attrs) == Capture(Scan(w, p), attrs[n - 1]);
      forall i | 0 <= i < n && attrs[i].key == key && (forall j :: i < j < n ==> attrs[j].key != key)
        ensures Field(Scan(w, attrs), key) == attrs[i].value
      {
        if i < n - 1 {
          assert p[i] == attrs[i];
          assert forall j :: i < j < |p| ==> p[j] == attrs[j];
        }
      }
      if forall i :: 0 <= i < n ==> attrs[i].key != key {
        assert forall i :: 0 <= i < |p| ==> p[i] == attrs[i];
      }
    }
  }

  /** Attributes with an unrecognised key change nothing: dropping them all
      leaves the scan's outcome as it was. */
  lemma {:induction false} ScanIgnoresUnrecognised(w: Working, attrs: seq<Attribute>)
    ensures Scan(w, RecognisedOnly(attrs)) == Scan(w, attrs)
    decreases |attrs|
  {
    if |attrs| > 0 {
      var p := attrs[..|attrs| - 1];
      var x := attrs[|attrs| - 1];
      ScanIgnoresUnrecognised(w, p);
      if IsRecognised(x.key) {
        var q := RecognisedOnly(p) + [x];
        assert q[..|q| - 1] == RecognisedOnly(p);
      }
    }
  }

  // ---------------------------------------------------------------------
  // Working variables across findings (and across pages)
  // ---------------------------------------------------------------------

  /** The state after a run of findings is the scan of all their attributes,
      in order, as one list: nothing is reset between findings. */
  lemma {:induction false} CarryIsScan(w: Working, fs: seq<RawFinding>)
    ensures Carry(w, fs) == Scan(w, AllAttributes(fs))
    decreases |fs|
  {
    if |fs| > 0 {
      var p := fs[..|fs| - 1];
      CarryIsScan(w, p);
      ScanAppend(w, AllAttributes(p), fs[|fs| - 1].attributes);
    }
  }

  /** Splitting a run of findings in two: the second half starts from the
      state the first half left. */
  lemma {:induction false} CarryAppend(w: Working, a: seq<RawFinding>, b: seq<RawFinding>)
    ensures Carry(w, a + b) == Carry(Carry(w, a), b)
    decreases |b|
  {
    if |b| == 0 {
      assert a + b == a;
    } else {
      var b' := b[..|b| - 1];
      assert (a + b)[..|a + b| - 1] == a + b';
      CarryAppend(w, a, b');
    }
  }

  /** The records of a concatenation are the records of each part, the
      second part built from the state the first part left. */
  lemma {:induction false} InfosAppend(w: Working, a: seq<RawFinding>, b: seq<RawFinding>)
    ensures Infos(w, a + b) == Infos(w, a) + Infos(Carry(w, a), b)
    decreases |b|
  {
    if |b| == 0 {
      assert a + b == a;
    } else {
      var b' := b[..|b| - 1];
      assert (a + b)[..|a + b| - 1] == a + b';
      InfosAppend(w, a, b');
      CarryAppend(w, a, b);
    }
  }

  /** Record `i` is built from finding `i` and the state right after its
      attributes, which includes every earlier finding's attributes. */
  lemma {:induction false} InfoAt(w: Working, fs: seq<RawFinding>, i: nat)
    requires i < |fs|
    ensures Infos(w, fs)[i] == Record(fs[i], Carry(w, fs[..i + 1]))
    decreases |fs|
  {
    if i < |fs| - 1 {
      var p := fs[..|fs| - 1];
      InfoAt(w, p, i);
      assert p[..i + 1] == fs[..i + 1];
    } else {
      assert fs[..i + 1] == fs;
    }
  }

  /** What each field of record `i` holds: name and severity of finding `i`,
      `PackageName` the current `package_version` value, `PackageVersion` the
      current `package_name` value (the swap), and the two CVSS2 values. */
  lemma RecordFields(w: Working, fs: seq<RawFinding>, i: nat)
    requires i < |fs|
    ensures Infos(w, fs)[i].name == StringValue(fs[i].name)
    ensures Infos(w, fs)[i].severity == StringValue(fs[i].severity)
    ensures Infos(w, fs)[i].packageName == Field(Carry(w, fs[..i + 1]), PackageVersionKey)
    ensures Infos(w, fs)[i].packageVersion == Field(Carry(w, fs[..i + 1]), PackageNameKey)
    ensures Infos(w, fs)[i].cvss2Vector == Field(Carry(w, fs[..i + 1]), Cvss2VectorKey)
    ensures Infos(w, fs)[i].cvss2Score == Field(Carry(w, fs[..i + 1]), Cvss2ScoreKey)
  {
    InfoAt(w, fs, i);
  }

  /** A finding without an attribute for a recognised key inherits that
      field from the state the findings before it left. */
  lemma CarryOver(w: Working, fs: seq<RawFinding>, i: nat, key: string)
    requires i < |fs| && IsRecognised(key)
    requires forall j :: 0 <= j < |fs[i].attributes| ==> fs[i].attributes[j].key != key
    ensures Field(Carry(w, fs[..i + 1]), key) == Field(Carry(w, fs[..i]), key)
  {
    assert fs[..i + 1][..i] == fs[..i];
    ScanLastWins(Carry(w, fs[..i]), fs[i].attributes, key);
  }

  /** Over a whole run of findings the last attribute with a recognised key
      wins, whichever finding it belongs to; from the initial state a key
      that no finding so far had leaves its field empty. */
  lemma CarryLastWins(fs: seq<RawFinding>, key: string)
    requires IsRecognised(key)
    ensures (forall i :: 0 <= i < |AllAttributes(fs)| ==> AllAttributes(fs)[i].key != key) ==>
              Field(Carry(Unset, fs), key) == ""
    ensures forall i :: 0 <= i < |AllAttributes(fs)| && AllAttributes(fs)[i].key == key &&
                        (forall j :: i < j < |AllAttributes(fs)| ==> AllAttributes(fs)[j].key != key) ==>
              Field(Carry(Unset, fs), key) == AllAttributes(fs)[i].value
  {
    CarryIsScan(Unset, fs);
    ScanLastWins(Unset, AllAttributes(fs), key);
  }
}
