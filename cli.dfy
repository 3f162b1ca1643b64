/**
  The argument handling of the command-line client: the `browser:version`
  launch spec and the `--os name:version` option, the `--user user:password`
  credentials, the tunnel timeout, the job listing and the status report.
  Every command first builds its service client from the credentials, so a
  malformed `--user` ends any command with exit status 1 before anything is
  sent. The calls to the remote service themselves are not modelled: each
  function here yields what the client would hand to the service or print.
 */
module Cli {
  import opened Js
  import Display

  /** Why a command stops: a malformed `--user` value (the message printed
      before exit status 1), or a call of a name that is not a function (an
      uncaught `TypeError`). */
  datatype Failure = BadUserFormat(message: string) | NotAFunction(name: string)

  datatype Result<T> = Ok(value: T) | Err(failure: Failure)

  const UserFormatMessage: string := "--user option should be in format \"user:password\""

  // ---------------------------------------------------------------- credentials

  /** The options handed to the service client: empty, or a user name and password. */
  datatype Config = Anonymous | Credentials(username: string, password: string)

  /** `config()`: no (or an empty) `--user` means no credentials; otherwise the
      value must hold exactly one `:`, and it is split into user name and password. */
  function ParseConfig(user: Value): (r: Result<Config>)
    ensures !Truthy(user) ==> r == Ok(Anonymous)
    ensures Truthy(user) ==> (r.Err? <==> multiset(user.s)[':'] != 1)
    ensures Truthy(user) && multiset(user.s)[':'] == 1 ==> r.Ok? && r.value.Credentials?
    ensures r.Err? ==> r.failure == BadUserFormat(UserFormatMessage)
    ensures r.Ok? && r.value.Credentials? ==>
      && ':' !in r.value.username
      && ':' !in r.value.password
      && r.value.username + ":" + r.value.password == user.s
  {
    if !Truthy(user) then Ok(Anonymous)
    else
      var parts := Split(user.s, ':');
      if |parts| != 2 then Err(BadUserFormat(UserFormatMessage))
      else
        JoinSplit(user.s, ':');
        assert parts[1..] == [parts[1]];
        Ok(Credentials(parts[0], parts[1]))
  }

  /** Any user name and password without a `:` survive the round trip through
      the `--user` option. */
  lemma {:induction false} CredentialsRoundTrip(username: string, password: string)
    requires ':' !in username && ':' !in password
    ensures ParseConfig(Str(username + ":" + password)) == Ok(Credentials(username, password))
  {
    var parts := [username, password];
    assert Join(parts, ':') == username + ":" + password;
    SplitJoin(parts, ':');
  }

  // ---------------------------------------------------------------- launch

  /** `spec.split(':')[0]`: the text before the first `:`, or all of it. */
  function SpecName(spec: string): (name: string)
    ensures ':' !in name
    ensures ':' !in spec ==> name == spec
    ensures ':' in spec ==> |name| < |spec| && spec[..|name|] == name && spec[|name|] == ':'
  {
    Split(spec, ':')[0]
  }

  /** `spec.split(':')[1]`: missing when there is no `:`; otherwise the text
      between the first `:` and the next one (or the end). Anything after a
      second `:` is dropped. */
  function SpecVersion(spec: string): (version: Value)
    ensures version == Undefined <==> ':' !in spec
    ensures version == Undefined || version.Str?
    ensures version.Str? ==>
      var start := |SpecName(spec)| + 1;
      var end := start + |version.s|;
      && ':' !in version.s
      && end <= |spec|
      && spec[start..end] == version.s
      && (end == |spec| || spec[end] == ':')
  {
    var parts := Split(spec, ':');
    if ':' !in spec then At(parts, 1)
    else
      var i := IndexOf(spec, ':');
      var rest := spec[i + 1..];
      assert parts[1] == SpecName(rest);
      assert spec[i + 1 + |parts[1]|..] == rest[|parts[1]|..];
      At(parts, 1)
  }

  /** A spec whose first `:` follows `name` names `name`, and its version is
      the name part of the rest. */
  lemma SpecAfterColon(name: string, rest: string)
    requires ':' !in name
    ensures SpecName(name + ":" + rest) == name
    ensures SpecVersion(name + ":" + rest) == Str(SpecName(rest))
  {
    var spec := name + ":" + rest;
    IndexOfAfter(name, ':', rest);
    assert spec[..|name|] == name;
    assert spec[|name| + 1..] == rest;
    assert Split(spec, ':') == [name] + Split(rest, ':');
  }

  /** A spec made of a separator-free name and version reads back as that
      name and version. */
  lemma SpecOfNameAndVersion(name: string, version: string)
    requires ':' !in name && ':' !in version
    ensures SpecName(name + ":" + version) == name
    ensures SpecVersion(name + ":" + version) == Str(version)
  {
    SpecAfterColon(name, version);
  }

  /** Whatever follows a second `:` is dropped. */
  lemma SpecIgnoresTail(name: string, version: string, tail: string)
    requires ':' !in name && ':' !in version
    ensures SpecName(name + ":" + version + ":" + tail) == name
    ensures SpecVersion(name + ":" + version + ":" + tail) == Str(version)
  {
    var rest := version + ":" + tail;
    var spec := name + ":" + version + ":" + tail;
    assert spec == name + ":" + rest;
    SpecAfterColon(name, rest);
    SpecAfterColon(version, tail);
  }

  /** What `launch` sends: the fields `browser`, `browser_version`, `os`,
      `os_version` and `url`. No timeout is sent. */
  datatype LaunchRequest = LaunchRequest(
    browser: string,
    browserVersion: Value,
    os: Value,
    osVersion: Value,
    url: string)

  /** `launchBrowser(browserSpec, url)` with the `--os` option: the browser spec
      is split; the OS is split in the same way when `--os` is truthy, and both
      OS fields are missing otherwise; the URL is passed on as it is. */
  function ParseLaunch(browserSpec: string, url: string, osOption: Value): (r: LaunchRequest)
    ensures r.url == url
    ensures r.browser == SpecName(browserSpec) && r.browserVersion == SpecVersion(browserSpec)
    ensures Truthy(osOption) ==> r.os == Str(SpecName(osOption.s)) && r.osVersion == SpecVersion(osOption.s)
    ensures !Truthy(osOption) ==> r.os == Undefined && r.osVersion == Undefined
  {
    var parts := Split(browserSpec, ':');
    var browser, version := parts[0], At(parts, 1);
    if Truthy(osOption) then
      var osParts := Split(osOption.s, ':');
      LaunchRequest(browser, version, Str(osParts[0]), At(osParts, 1), url)
    else
      LaunchRequest(browser, version, Undefined, Undefined, url)
  }

  /** A launch spec and an `--os` value written as `name:version` give back
      their four parts. */
  lemma LaunchOfParts(browser: string, version: string, os: string, osVersion: string, url: string)
    requires ':' !in browser && ':' !in version && ':' !in os && ':' !in osVersion
    ensures ParseLaunch(browser + ":" + version, url, Str(os + ":" + osVersion))
         == LaunchRequest(browser, Str(version), Str(os), Str(osVersion), url)
  {
    SpecOfNameAndVersion(browser, version);
    SpecOfNameAndVersion(os, osVersion);
  }

  /** The `launch` command: credentials first, then the request. */
  function Launch(user: Value, osOption: Value, browserSpec: string, url: string)
    : (r: Result<(Config, LaunchRequest)>)
    ensures r.Err? <==> ParseConfig(user).Err?
    ensures r.Ok? ==> r.value.0 == ParseConfig(user).value
    ensures r.Ok? ==> r.value.1 == ParseLaunch(browserSpec, url, osOption)
  {
    match ParseConfig(user)
    case Err(f) => Err(f)
    case Ok(config) => Ok((config, ParseLaunch(browserSpec, url, osOption)))
  }

  // ---------------------------------------------------------------- tunnel

  /** What `tunnel` sends: host and port, the tunnelling key, whether to use
      the private key, and the timeout in milliseconds. */
  datatype TunnelRequest = TunnelRequest(
    hostAndPort: string,
    key: Value,
    usePrivateKey: bool,
    timeoutMs: int)

  /** The `--timeout` option when it is not given, in seconds. */
  const DefaultTimeoutSeconds: int := 30

  /** An option that may be absent. */
  datatype Option<T> = None | Some(value: T)

  /** Seconds to milliseconds; the seconds are recovered exactly. */
  function TimeoutMs(seconds: int): (ms: int)
    ensures ms % 1000 == 0 && ms / 1000 == seconds
    ensures seconds >= 0 ==> ms >= seconds
  {
    seconds * 1000
  }

  /** The `tunnel` command: credentials first, then the request. The timeout
      is the `--timeout` option in seconds, 30 when it is not given, turned
      into milliseconds. */
  function Tunnel(user: Value, key: Value, usePrivateKey: bool, timeout: Option<int>, hostAndPort: string)
    : (r: Result<(Config, TunnelRequest)>)
    ensures r.Err? <==> ParseConfig(user).Err?
    ensures r.Ok? ==> r.value.0 == ParseConfig(user).value
    ensures r.Ok? ==> r.value.1.hostAndPort == hostAndPort && r.value.1.key == key
    ensures r.Ok? ==> r.value.1.usePrivateKey == usePrivateKey
    ensures r.Ok? && timeout.None? ==> r.value.1.timeoutMs == 30000
    ensures r.Ok? && timeout.Some? ==>
      r.value.1.timeoutMs / 1000 == timeout.value && r.value.1.timeoutMs % 1000 == 0
  {
    var seconds := if timeout.Some? then timeout.value else DefaultTimeoutSeconds;
    match ParseConfig(user)
    case Err(f) => Err(f)
    case Ok(config) => Ok((config, TunnelRequest(hostAndPort, key, usePrivateKey, TimeoutMs(seconds))))
  }

  // ---------------------------------------------------------------- jobs

  const NoJobsMessage: string := "No active jobs."

  /** What `jobs` prints: a message, or the job table. */
  datatype Listing = Message(text: string) | Shown(table: Display.Table)

  /** `listJobs`: the message exactly when there are no jobs, the table otherwise. */
  method ListJobs(jobs: seq<Display.Job>) returns (r: Listing)
    ensures r.Message? <==> |jobs| == 0
    ensures r.Message? ==> r.text == NoJobsMessage
    ensures r.Shown? ==> r.table.head == Display.JobsHead && |r.table.rows| == |jobs|
    ensures r.Shown? ==> forall k :: 0 <= k < |jobs| ==> r.table.rows[k] == Display.JobRow(jobs[k])
  {
    if |jobs| == 0 {
      r := Message(NoJobsMessage);
    } else {
      var t := Display.DisplayJobs(jobs);
      r := Shown(t);
    }
  }

  // ---------------------------------------------------------------- status

  /** A status key made readable: every `_` becomes a space, then the first
      character is capitalized. */
  function StatusLabel(key: string): (title: string)
    ensures |title| == |key|
    ensures '_' !in title
    ensures |key| > 0 ==> title[0] == UpperAscii(if key[0] == '_' then ' ' else key[0])
    ensures forall k :: 0 < k < |key| ==> title[k] == if key[k] == '_' then ' ' else key[k]
  {
    var spaced := ReplaceAll(key, '_', ' ');
    var title := Display.Capitalize(spaced);
    assert forall k :: 0 <= k < |title| ==> title[k] != '_' by {
      forall k | 0 <= k < |title| ensures title[k] != '_' {
        if k == 0 { assert title[0] == UpperAscii(spaced[0]); }
      }
    }
    title
  }

  /** One printed status line, `Label: value`. */
  function StatusLine(key: string, value: Value): (line: string)
    ensures |line| == |key| + 2 + |ToStr(value)|
    ensures line[..|key|] == StatusLabel(key) && line[|key|..|key| + 2] == ": "
    ensures line[|key| + 2..] == ToStr(value)
  {
    StatusLabel(key) + ": " + ToStr(value)
  }

  /** The status report as intended: one line per property of the status
      object, in enumeration order. */
  function StatusReport(status: seq<(string, Value)>): (lines: seq<string>)
    ensures |lines| == |status|
    ensures forall k :: 0 <= k < |status| ==> lines[k] == StatusLine(status[k].0, status[k].1)
  {
    seq(|status|, k requires 0 <= k < |status| => StatusLine(status[k].0, status[k].1))
  }

  /** No reported label holds an underscore. */
  lemma StatusReportHasNoUnderscoreLabels(status: seq<(string, Value)>, k: nat)
    requires k < |status|
    ensures '_' !in StatusReport(status)[k][..|status[k].0|]
  {
  }

  /** The status report as the code is written: the label is built by calling
      `capitalize` on the display module, which does not export it, so the
      first property throws; an empty status prints nothing and does not throw. */
  function StatusReportAsWritten(status: seq<(string, Value)>): (r: Result<seq<string>>)
    ensures status == [] ==> r == Ok([])
    ensures r.Ok? ==> r.value == StatusReport(status)
  {
    if status == [] then Ok([])
    else if "capitalize" in Display.Exports then Ok(StatusReport(status))
    else Err(NotAFunction("display.capitalize"))
  }

  /** Every non-empty status makes the written code throw, where the intended
      report prints one line per property. */
  lemma StatusReportAsWrittenThrows(status: seq<(string, Value)>)
    requires status != []
    ensures StatusReportAsWritten(status) == Err(NotAFunction("display.capitalize"))
    ensures |StatusReport(status)| == |status| > 0
  {
  }
}
