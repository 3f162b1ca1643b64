# browserstack-cli: argument handling and display cells

This project models the part of the `browserstack` command-line client that
it computes by itself, without the remote service:

- the table cells it prints for the browser catalogue (`browsers`) and for the
  job list (`jobs`), built in `lib/display.js`;
- the way `bin/cli.js` takes its arguments apart: the `browser:version`
  launch spec and the `--os name:version` option, the `--user user:password`
  credentials (a malformed value ends the command with exit status 1), the
  tunnel timeout (seconds to milliseconds), the empty/non-empty job listing
  and the labels of the `status` report.

Three modules, one per concern:

- `Js` (`js.dfy`): the JavaScript values the client handles (`undefined`,
  `null`, strings), truthiness, string conversion, and the string built-ins
  it calls: `split` on one character (with `Join` as its inverse), `substring`,
  global `replace` of one character, and `toUpperCase` for ASCII letters.
- `Display` (`display.dfy`): the offering and job records, the four cell
  helpers, and the two table builders. A table is modelled as its header and
  the sequence of rows pushed onto it. Each row is the sequence of cell values.
  The builders are loops that append one row per record.
- `Cli` (`cli.dfy`): `config()`, the launch and tunnel requests, the job
  listing, and the status lines. Exiting the process becomes an `Err` result;
  every command's request is paired with the credentials that `makeBS()`
  parses first.

Record fields that JavaScript might see as missing are `Js.Value`s. Only a
non-empty string is truthy. A missing value used in `+` reads `undefined` (or
`null`), so `osDisplay` of a record without an OS gives
`undefined (undefined)`, exactly as the code would.

The launch request carries no timeout. The `--timeout` option is read only by
`tunnel` (bin/cli.js:123), and the model's `LaunchRequest` has no such field.

## Model

| member | source | states |
|---|---|---|
| `Js.Split` | bin/cli.js:156 | `split(':')` yields one more piece than there are separators, and no piece holds a separator |
| `Js.JoinSplit` | bin/cli.js:156 | joining the pieces of a split with the separator gives back the original string |
| `Js.SplitJoin` | bin/cli.js:156 | splitting a join of separator-free pieces gives back the pieces (the other direction of the round trip) |
| `Js.Substring` | lib/display.js:53 | `substring` clamps both bounds to the length and swaps them when the start is past the end |
| `Js.ReplaceAll` | bin/cli.js:140 | the global replace keeps the length and changes exactly the occurrences of the pattern character |
| `Display.BrowserDisplay` | lib/display.js:36-42 | without a truthy version the result is the name itself; with one it is the name, ` (`, the version and `)` |
| `Display.BrowserDisplayShowsVersion` | lib/display.js:36-42 | the cell reads as the bare name if and only if there is no truthy version |
| `Display.OsDisplay` | lib/display.js:44-46 | always `os (os_version)`; the length is the two lengths plus 3 |
| `Display.DeviceDisplay` | lib/display.js:48-50 | the device when it is truthy, `NA` otherwise; never empty |
| `Display.Capitalize` | lib/display.js:52-54 | same length; first character upper-cased, every later character unchanged; the empty string stays empty |
| `Display.CapitalizeIdempotent` | lib/display.js:52-54 | capitalizing twice is capitalizing once |
| `Display.JobRow` | lib/display.js:26-31 | four cells: id, then the browser cell when the job has a truthy browser and the device cell otherwise (never empty), then the OS cell, then the status |
| `Display.BrowserRow` | lib/display.js:10-14 | three cells in the order browser, device, OS; the device and OS cells are never empty, and without a truthy version the browser cell is the raw name |
| `Display.DisplayBrowsers` | lib/display.js:4-17 | header `Browser, Device, OS`; one row per offering, in input order, each holding the browser, device and OS cells |
| `Display.DisplayJobs` | lib/display.js:20-34 | header `ID, Browser/Device, OS, Status`; one row per job, in input order |
| `Cli.ParseConfig` | bin/cli.js:154-165 | no or empty `--user` gives no credentials; otherwise it is an error, carrying the message printed before exit 1, exactly when the value does not hold exactly one `:`, and credentials when it holds exactly one; credentials hold no `:` and `username:password` rebuilds the value |
| `Cli.CredentialsRoundTrip` | bin/cli.js:156-164 | any colon-free user name and password come back unchanged through `--user username:password` |
| `Cli.SpecName` | bin/cli.js:37 | the browser is the text before the first `:`, or the whole spec; it never holds a `:` |
| `Cli.SpecVersion` | bin/cli.js:38 | the version is missing exactly when there is no `:`; otherwise it is the colon-free text after the first `:`, up to the next `:` or the end |
| `Cli.SpecAfterColon` | bin/cli.js:37-38 | a spec whose first `:` follows a colon-free name yields that name, and its version is the name part of the rest |
| `Cli.SpecOfNameAndVersion` | bin/cli.js:37-38 | `name:version` made of colon-free parts yields that name and version |
| `Cli.SpecIgnoresTail` | bin/cli.js:37-38 | whatever follows a second `:` does not change the name or the version |
| `Cli.ParseLaunch` | bin/cli.js:36-51 | browser and version follow the split rule; with a truthy `--os` the OS name and version follow the same rule, otherwise both are missing; the URL is passed on unchanged |
| `Cli.LaunchOfParts` | bin/cli.js:37-45 | `browser:version` with `--os os:version`, all parts colon-free, gives back the four parts |
| `Cli.Launch` | bin/cli.js:46-51 | the launch fails exactly when the credentials fail; otherwise it carries the parsed credentials and the parsed request |
| `Cli.TimeoutMs` | bin/cli.js:123 | the milliseconds are a multiple of 1000 and divide back to the seconds |
| `Cli.Tunnel` | bin/cli.js:118-124 | fails exactly when the credentials fail; otherwise it passes host and port, key and private flag on unchanged; the timeout is 30000 ms when `--timeout` is not given (the default of 30 seconds declared at bin/cli.js:17), and otherwise the given seconds in milliseconds |
| `Cli.ListJobs` | bin/cli.js:79-87 | prints `No active jobs.` exactly when the list is empty, and the job table of all the jobs otherwise |
| `Cli.StatusLabel` | bin/cli.js:140 | same length as the key, no `_` left, every `_` turned into a space, the first character capitalized |
| `Cli.StatusLine` | bin/cli.js:140 | the label, `: `, then the value as a string |
| `Cli.StatusReport` | bin/cli.js:139-141 | one line per status property, in enumeration order |
| `Cli.StatusReportHasNoUnderscoreLabels` | bin/cli.js:139-141 | no label part of any report line holds an underscore |
| `Cli.StatusReportAsWritten` | bin/cli.js:137-143 | the code as written prints nothing for an empty status, and can only succeed with the intended report |
| `Cli.StatusReportAsWrittenThrows` | bin/cli.js:140 | for every non-empty status the code as written throws, while the intended report has one line per property |

## Findings

| source | as written | input that shows it | evidently intended | confidence | as-written member | corrected member |
|---|---|---|---|---|---|---|
| bin/cli.js:140 | `display.capitalize(...)` is called, but lib/display.js exports only `displayBrowsers` and `displayJobs` (lines 3 and 19), so the call throws a `TypeError` | any status with at least one property, e.g. `{running_sessions: 0}` | print `Running sessions: 0` | high, not executed | `Cli.StatusReportAsWritten` | `Cli.StatusReport` |

The rest of the model uses `Display.Capitalize` as defined, so `Cli.StatusLabel`
is the label the code evidently means.

## Left out

- The remote service client (`setup`, `launch`, `browsers`, `jobs`, `kill`, `killAllJobs`, `tunnel`, `status`): these are network calls into a library that is not part of this model. The model stops at the request the client would send, or at the records it would display.
- The console output of the launch, kill and tunnel commands (`Launched job …`, `Killed job … which ran for …s.`, `Tunnel is running.`, the `Ctrl-C` prompt). This is I/O. The rounding of the kill duration works on floating point.
- `lib/cli_util.js`: `hangOnTillExit` handles signals and stdin, and `exitIfErrorElse` only forwards a service error to `process.exit(1)`.
- Option and command registration, help output, and the table library's layout (`colWidth`, borders, how it prints a missing cell). This is library plumbing; the model gives the cell values.
- The `--attach` behaviour of `launch` (waiting for a signal and then killing the job). This is signal handling.
- Display.Capitalize: upper-cases only the ASCII letters `a`–`z`. JavaScript's full Unicode case mapping of the first character, which can change the length (`ß` becomes `SS`), is not modelled.
- Cli.TimeoutMs: takes the seconds as an integer. JavaScript's coercion of a non-numeric option string to `NaN`, and fractional seconds, are not modelled.
- Cli.StatusReport: the status object is a sequence of key/value pairs in enumeration order. JavaScript lists integer-like keys first, in ascending order; that reordering is not modelled.
- Cli.Tunnel: the private-key flag is a boolean, with `false` standing for the `undefined` of an absent flag.
- Values that are numbers in the service's JSON (job ids, status values) are modelled by their string form.
