/**
  The table cells the client prints for the browser catalogue and for the job
  list. Each record is the JSON object the remote service returns; its fields
  may be missing, `null` or strings. A table is its header and the sequence of
  rows pushed onto it, each row the sequence of values of its cells; how the
  table library lays them out on the terminal is not modelled.
 */
module Display {
  import opened Js

  /** One offering of the remote service: a desktop browser or a device, on an
      operating system (fields `browser`, `browser_version`, `device`, `os`,
      `os_version`). */
  datatype Offering = Offering(
    browser: Value,
    browserVersion: Value,
    device: Value,
    os: Value,
    osVersion: Value)

  /** A running job: its `id` and `status`, and the browser or device it runs. */
  datatype Job = Job(id: Value, status: Value, target: Offering)

  datatype Table = Table(head: seq<string>, rows: seq<seq<Value>>)

  /** The names the module exports; `capitalize` is defined but not among them. */
  const Exports: set<string> := {"displayBrowsers", "displayJobs"}

  const BrowsersHead: seq<string> := ["Browser", "Device", "OS"]
  const JobsHead: seq<string> := ["ID", "Browser/Device", "OS", "Status"]

  /** The browser name, followed by ` (version)` only when the version is truthy.
      Without a version the name is returned as it is, missing or not. */
  function BrowserDisplay(b: Offering): (r: Value)
    ensures !Truthy(b.browserVersion) ==> r == b.browser
    ensures Truthy(b.browserVersion) ==>
      var name, version := ToStr(b.browser), b.browserVersion.s;
      && r.Str?
      && |r.s| == |name| + |version| + 3
      && r.s[..|name|] == name
      && r.s[|name|..|name| + 2] == " ("
      && r.s[|name| + 2..|r.s| - 1] == version
      && r.s[|r.s| - 1] == ')'
  {
    if Truthy(b.browserVersion) then
      Str(ToStr(b.browser) + " (" + b.browserVersion.s + ")")
    else
      b.browser
  }

  /** The browser cell reads exactly as the name does if and only if there is no
      version to show. */
  lemma BrowserDisplayShowsVersion(b: Offering)
    ensures ToStr(BrowserDisplay(b)) == ToStr(b.browser) <==> !Truthy(b.browserVersion)
  {
  }

  /** `os (os_version)`, whatever the two fields hold. */
  function OsDisplay(b: Offering): (r: string)
    ensures
      var os, version := ToStr(b.os), ToStr(b.osVersion);
      && |r| == |os| + |version| + 3
      && r[..|os|] == os
      && r[|os|..|os| + 2] == " ("
      && r[|os| + 2..|r| - 1] == version
      && r[|r| - 1] == ')'
  {
    ToStr(b.os) + " (" + ToStr(b.osVersion) + ")"
  }

  /** The device name when it is truthy, `NA` otherwise; never empty. */
  function DeviceDisplay(b: Offering): (r: string)
    ensures Truthy(b.device) ==> r == b.device.s
    ensures !Truthy(b.device) ==> r == "NA"
    ensures r != ""
  {
    if Truthy(b.device) then b.device.s else "NA"
  }

  /** The first character upper-cased, the rest unchanged. */
  function Capitalize(str: string): (r: string)
    ensures |r| == |str|
    ensures |str| > 0 ==> r[0] == UpperAscii(str[0])
    ensures forall k :: 0 < k < |str| ==> r[k] == str[k]
  {
    ToUpperCase(Substring(str, 0, 1)) + Substring(str, 1, |str|)
  }

  /** Capitalizing twice is capitalizing once. */
  lemma CapitalizeIdempotent(str: string)
    ensures Capitalize(Capitalize(str)) == Capitalize(str)
  {
  }

  /** One row of the browser table: browser, device, OS. The device and OS
      cells are always non-empty strings (`NA` stands in for a missing device);
      only the browser cell can be missing. */
  function BrowserRow(b: Offering): (row: seq<Value>)
    ensures |row| == |BrowsersHead|
    ensures row[0] == BrowserDisplay(b)
    ensures row[1] == Str(DeviceDisplay(b)) && Truthy(row[1])
    ensures row[2] == Str(OsDisplay(b)) && Truthy(row[2])
    ensures !Truthy(b.browserVersion) ==> row[0] == b.browser
  {
    [BrowserDisplay(b), Str(DeviceDisplay(b)), Str(OsDisplay(b))]
  }

  /** One row of the job table: id, browser or device, OS, status. The second
      cell shows the browser when the job has a truthy browser and the device
      otherwise; either way it is never empty. */
  function JobRow(j: Job): (row: seq<Value>)
    ensures |row| == |JobsHead|
    ensures row[0] == j.id && row[3] == j.status
    ensures Truthy(j.target.browser) ==> row[1] == BrowserDisplay(j.target)
    ensures !Truthy(j.target.browser) ==> row[1] == Str(DeviceDisplay(j.target))
    ensures Truthy(row[1])
    ensures row[2] == Str(OsDisplay(j.target))
  {
    [ j.id,
      if Truthy(j.target.browser) then BrowserDisplay(j.target) else Str(DeviceDisplay(j.target)),
      Str(OsDisplay(j.target)),
      j.status ]
  }

  /** The browser table: one row per offering, in the order given. */
  method DisplayBrowsers(browsers: seq<Offering>) returns (t: Table)
    ensures t.head == BrowsersHead
    ensures |t.rows| == |browsers|
    ensures forall k :: 0 <= k < |browsers| ==> t.rows[k] == BrowserRow(browsers[k])
  {
    var rows: seq<seq<Value>> := [];
    var i := 0;
    while i < |browsers|
      invariant 0 <= i <= |browsers|
      invariant |rows| == i
      invariant forall k :: 0 <= k < i ==> rows[k] == BrowserRow(browsers[k])
    {
      rows := rows + [BrowserRow(browsers[i])];
      i := i + 1;
    }
    t := Table(BrowsersHead, rows);
  }

  /** The job table: one row per job, in the order given. */
  method DisplayJobs(jobs: seq<Job>) returns (t: Table)
    ensures t.head == JobsHead
    ensures |t.rows| == |jobs|
    ensures forall k :: 0 <= k < |jobs| ==> t.rows[k] == JobRow(jobs[k])
  {
    var rows: seq<seq<Value>> := [];
    var i := 0;
    while i < |jobs|
      invariant 0 <= i <= |jobs|
      invariant |rows| == i
      invariant forall k :: 0 <= k < i ==> rows[k] == JobRow(jobs[k])
    {
      rows := rows + [JobRow(jobs[i])];
      i := i + 1;
    }
    t := Table(JobsHead, rows);
  }
}
