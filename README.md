# ECR image scan findings exporter — a verified model

The exporter is a small Go service. At a fixed interval it reads the image
scan findings of one ECR repository and tag ("api", "develop") through the
paginated `DescribeImageScanFindings` call. It flattens every finding into a
`findingsInfo` record and republishes the records as the Prometheus gauge
vector `aws_custom_ecr_image_scan_findings`, with value 1 per label tuple.

This project models the refresh pipeline in Dafny and proves what it does:

- `findings.dfy` (module `Findings`): findings, their attributes and the
  exporter's record. The attribute extraction is given as specification
  functions (`Capture`, `Scan`, `Carry`, `Infos`, `Flatten`), with lemmas about
  which attribute wins, carry-over between findings and record contents.
- `pagination.dfy` (module `Pagination`): the upstream as a `Service`
  function from request to page-or-error, and `Follow`, the specification of
  the pagination. `Follow` is characterised both ways by an independent
  description of a run of requests. `GetECRImageScanFindings` is the imperative
  fetch, proved against `Follow` and `Flatten`. It keeps the source's page loop,
  its loop over a page's findings filling a fixed-size buffer by index, and its
  attribute loop over four working variables that are never reset.
- `metrics.dfy` (module `Metrics`): the gauge vector as a class holding a
  `map<Labels, int>`, with `Reset` and `Set`. It also holds the label
  construction and `Snapshot`, which resets the gauge vector, fetches, and
  sets 1 for each record's label tuple.
- `interval.dfy` (module `Interval`): `GetInterval` and `Atoi`, a model of
  `strconv.Atoi` on a 64-bit platform that reports syntax and range errors
  apart. Its outcome is stated for every signed digit string, leading zeros
  included, and it is proved against `Itoa`, its inverse (`AtoiItoa`).
- `scenario.dfy` (module `Scenario`): a two-page refresh worked through.
- `wrappers.dfy` (modules `Wrappers`, `Errors`): `Option`, `Result` and the error values.

## Behaviour as the code has it

The model follows `main.go`, including four places where the code behaves
in a way one might not expect: the working variables are not reset for each
finding, the record's package fields are swapped, the `package_name` label is
not taken from `PackageVersion`, and the gauge vector is cleared before the
new findings are fetched rather than after. In detail:

- The four working variables are declared once, before the page loop
  (main.go:114-119), and never reset. A finding that lacks one of the four
  attributes shows the value of the most recent earlier finding that had it,
  even one on an earlier page. See `CarryOver`, `CarryLastWins` and
  `Scenario.TwoPages`.
- The record swaps the two package fields. `PackageName` holds the
  `package_version` attribute and `PackageVersion` holds `package_name`
  (main.go:144-145). See `RecordFields`.
- The label tuple puts the record's `PackageName` into both the
  `package_version` and the `package_name` label (main.go:75-76). The record's
  `PackageVersion` is never published. See `LabelsOf` and `Scenario.TwoPages`.
- `snapshot` resets the gauge vector before it fetches (main.go:64). A failed
  fetch therefore leaves it empty rather than as it was, and a scrape during a
  refresh can see an empty or partly filled gauge vector. See `Snapshot`.

## Model

| member | source | states |
|---|---|---|
| Findings.StringValue | main.go:142-143 | a present name or severity is passed through, and a nil one becomes "" |
| Findings.Scan | main.go:129-140 | after the attribute loop, the last attribute, when its key is recognised, has set that key's working variable |
| Findings.Record | main.go:141-148 | the record takes name and severity from the finding, `PackageName` from the `package_version` variable and `PackageVersion` from the `package_name` variable (the swap), and the two CVSS2 variables |
| Findings.Carry | main.go:114-148 | no findings leave the working variables as handed in, and a single finding is one attribute scan from them |
| Findings.Capture | main.go:129-140 | one attribute sets exactly the working variable of its key, if the key is one of the four, and leaves every other one; an unrecognised key changes nothing |
| Findings.ScanLastWins | main.go:129-140 | over one attribute list, the last attribute with a recognised key decides that variable; with none, the variable keeps its earlier value |
| Findings.ScanIgnoresUnrecognised | main.go:130-139 | removing every attribute with an unrecognised key leaves the outcome of the attribute loop unchanged |
| Findings.ScanAppend | main.go:129-140 | scanning two attribute lists in turn equals scanning their concatenation |
| Findings.Infos | main.go:127-148 | exactly one record per finding, whatever its attributes |
| Findings.InfoAt | main.go:127-148 | record i is built from finding i and the working variables right after its attributes, which include every earlier finding's attributes |
| Findings.RecordFields | main.go:141-148 | record i has the finding's name and severity (or "" for nil), `PackageName` = current `package_version` value, `PackageVersion` = current `package_name` value, and the two CVSS2 values |
| Findings.CarryIsScan | main.go:114-148 | the working variables after a run of findings equal one scan over all their attributes in order: nothing is reset between findings |
| Findings.CarryAppend | main.go:114-152 | a run split in two: the second part starts with the variables the first part left, as across pages |
| Findings.InfosAppend | main.go:127-152 | the records of two consecutive runs are those of the first run followed by those of the second, built from the state the first left |
| Findings.CarryOver | main.go:114-148 | a finding without an attribute for a recognised key inherits that field from the findings before it |
| Findings.CarryLastWins | main.go:114-148 | over all findings so far, the last attribute with a recognised key wins, on whatever finding or page; a key never seen gives "" |
| Pagination.Follow | main.go:121-159 | with no requests allowed the outcome is undecided; a completed pagination read at least one page and at most one page per request, and a failed one fewer pages than requests |
| Pagination.FollowStep | main.go:121-159 | one request: an error ends the pagination with that error, a page without a token ends it with that page, and a page with a token is followed by the pagination from the next request |
| Pagination.FetchStep | main.go:121-159 | one turn of the page loop from the whole pagination's view: the pages read so far followed by the outcome from the current request |
| Pagination.FetchPage | main.go:127-152 | one more page appends its records, built from the working variables the earlier pages left, and extends those variables by its findings |
| Pagination.AllFindings | main.go:152 | the concatenation of the pages' findings holds exactly as many findings as the pages together |
| Pagination.FollowDone | main.go:121-159 | the pagination ends with pages ps if and only if page i answers the request carrying page i-1's token, every page but the last has a token, and the last has none |
| Pagination.FollowFailed | main.go:121-125 | the pagination fails with error e after pages ps if and only if they were served in order, each with a token, and the next request returned e |
| Pagination.FollowStable | main.go:121-159 | once a bound on the number of requests suffices, every larger bound gives the same outcome |
| Pagination.ReadPage | main.go:127-150 | one page's loop yields that page's records in order and the working variables after all its attributes, starting from the values handed in |
| Pagination.GetECRImageScanFindings | main.go:101-160 | returns an error exactly when some request failed, and then only the wrapped error (no partial records); otherwise the records of every page's findings, in page order, with working variables carried across pages |
| Metrics.LabelsOf | main.go:72-79 | the `package_version` and `package_name` labels both equal the record's `PackageName`; name, severity and the CVSS2 labels are the record's fields |
| Metrics.SameLabels | main.go:72-80 | two records give the same label tuple exactly when they differ at most in `PackageVersion`, which no label shows |
| Metrics.Published | main.go:71-81 | every record's label tuple has a sample after the set loop, and every sample is 1 |
| Metrics.GaugeVec.constructor | main.go:29-36 | a new gauge vector has no samples |
| Metrics.GaugeVec.Reset | main.go:64 | every sample is removed |
| Metrics.GaugeVec.Set | main.go:80 | the sample of the given label tuple is set, every other sample is unchanged |
| Metrics.PublishedSamples | main.go:71-81 | after the set loop the label tuples are exactly those of the records, each with value 1 |
| Metrics.PublishedCount | main.go:71-81 | records with equal label tuples collapse: never more samples than records |
| Metrics.Snapshot | main.go:63-84 | a failed fetch returns the wrapped error and leaves the gauge vector empty; a successful one leaves exactly the samples built from the fetched records, nothing from before |
| Interval.Atoi | main.go:93 | an accepted string is an optional sign followed only by digits, its value fits 64 bits, and a leading '-' gives a value of at most 0; a string of that form never gives a syntax error, and any other string is an error |
| Interval.AtoiShapes | main.go:93 | a sign ("", "+" or "-"), any number of leading zeros and the digits of m parse to the signed value of m when it fits 64 bits, and to a range error otherwise |
| Interval.DigitsShape | main.go:93 | every non-empty digit string is some leading zeros followed by the shortest digits of its value |
| Interval.DecimalTextShape | main.go:93 | every string of the form sign-then-digits is a sign, some zeros and the shortest digits of a magnitude, so `AtoiShapes` fixes `Atoi`'s outcome on all of them |
| Interval.AtoiItoa | main.go:93-98 | parsing the decimal form of n gives n back when n fits 64 bits and a range error otherwise |
| Interval.AtoiOverflowBeforeSyntax | main.go:93 | after an optional sign, digits (leading zeros allowed) whose value overflows an unsigned 64-bit number give a range error even when a non-digit and any further text follow them; smaller digits followed by a non-digit and any text give a syntax error |
| Interval.GetInterval | main.go:86-99 | an empty setting gives 300; otherwise the result succeeds exactly when the setting parses, with the parsed value, and the error names the rejected setting and carries `Atoi`'s error kind |
| Interval.GetIntervalCases | main.go:86-99 | "" gives 300; the decimal form of a 64-bit integer (zero and negatives included) gives that integer, and of any other integer a range error naming the setting; a setting with a non-digit after an optional leading sign is an error naming that setting |
| Scenario.TwoPages | main.go:114-152 | on two pages linked by token "tok1", the fetch reads both pages. CVE-2 has no attributes but carries CVE-1's swapped package values. Two samples with value 1 are published |
| Scenario.TwoPagesFollow | main.go:121-159 | on that upstream the pagination reads page 1, follows "tok1" to page 2 and stops |
| Scenario.TwoPagesRecords | main.go:114-152 | the two records, CVE-2's with CVE-1's swapped package values |
| Scenario.TwoPagesPublished | main.go:71-81 | the two records publish two distinct samples, each 1 |
| Scenario.RefreshOnce | main.go:63-84 | `Snapshot` on that upstream succeeds and leaves exactly those two samples |

## Left out

- AWS session and client creation (main.go:102-106) and the transport of
  `DescribeImageScanFindings` (main.go:122): the upstream is the `Service`
  function of the request, so an upstream whose answers change over time is
  not modelled.
- The unbounded page loop: the fetch takes, as a ghost argument, a number of
  requests within which the upstream ends the pagination. An upstream that
  never returns a page without a token would make the Go loop run forever;
  the model does not describe that run.
- Nil `Key` or `Value` pointers in an attribute, which the Go code
  dereferences and would panic on (main.go:130-138): attribute keys and values
  are plain strings.
- A response whose `ImageScanFindings` is nil (main.go:127-128) and a nil
  `*ecr.ImageScanFinding` in its `Findings` (main.go:129, 142-143): the Go code
  dereferences both and would panic. A page's findings are a plain sequence of
  findings here, so the model returns records where the Go program crashes.
- The Prometheus library beyond the map semantics of `Reset` and
  `With(labels).Set(v)`: `NewGaugeVec`'s metadata, `MustRegister`,
  `promhttp.Handler`, and the gauge's float64 value (only 1 is ever set; it is
  an `int` here).
- `main` (main.go:39-61): the HTTP server on :8080, the ticker goroutine, and
  `log.Fatal` on a configuration or refresh error (I/O, concurrency and
  process control). Concurrent scrapes during a refresh are not modelled.
- `os.Getenv("AWS_API_INTERVAL")`: the setting is passed to `GetInterval` as
  a string.
- `fmt.Printf` of the attributes (main.go:149) and the message texts of the
  wrapped errors. The wrapping structure is kept in `Errors.Error`, including
  whether `strconv.Atoi` reported `ErrSyntax` or `ErrRange` (`ConfigFailed`
  carries it). The `Func` and `Num` fields of `*strconv.NumError` are not
  modelled; `ConfigFailed` names the rejected setting instead.
- Atoi: Go strings are bytes; the model reads a `string` as a sequence of
  characters, and any non-ASCII character is rejected as a non-digit, as
  Go's byte-wise check does.
