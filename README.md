# test-ef: profiling-report benchmark, modelled in Dafny

The repository is a benchmark harness for EF Core under MiniProfiler. An ASP.NET Core
service offers three controller variants: `TestController`, `Test2Controller` and
`Test4Controller`. Each one profiles its requests. A console client (`ScaleTest-Client`)
drives one benchmark run in four phases:

1. ping the service;
2. populate the route-hit table and fetch its ids;
3. send one concurrent "update" request per id;
4. download a CSV report.

The report holds one row per profiler session recorded since the hit-list request.

This project models that core and proves properties of it:

- **Window** (`window.dfy`): the session selection all three report actions share. It lists the
  newest 10000 ids, keeps them while they differ from the checkpoint `LastUpdate`, reverses
  them to oldest first, loads each one and drops the misses.
- **Report** (`report.dfy`): what the three report actions have in common:
  - the C# indexers that throw (`Children[i]`, `CustomTimings["sql"]`, `list[i]`), modelled as `Result`s;
  - a declarative column schema, saying which step and which custom timing each column comes from;
  - `Build`, the text the `foreach`/`output +=` loop produces;
  - `ParseCsv`, which reads that text back as a table of fields.
- **TestController**, **Test2Controller**, **Test4Controller**:
  - `Ping`, `PopulateDatabaseAsync` and `UpdateItemAsync`, with the route-hit table as a sequence and the
    profiler steps they open as a step tree;
  - the static `LastUpdate` as the field of a `Controller` class, written by `GetHitList`
    and read by `GetProfilingDataSinceLastPopulate`;
  - the report loop as a `for` loop proved against `Build`;
  - the positional row extraction (21 columns, or 19), proved equal to the schema's reading of the session.
- **ScaleTestClient** (`scale_test_client.dfy`):
  - each phase's acceptance check over a (success, body) response;
  - the `Task.WhenAll` fan-out as a loop proved against a first-failure function;
  - the run as a whole (`Drive`), with `Main`'s static `_brokerBaseUrl`/`_itemCount` as the fields of a `Program` class.
- **EndToEnd** (`end_to_end.dfy`): the controllers' answers, serialised as the framework writes them, pass
  the client's checks.

Supporting modules:

- `profiling.dfy`: sessions, timing trees and the store.
- `models.dfy`: `RouteHit`, with the lookup and update.
- `http.dfy`: action results and the responses they become.
- `text.dfy`: join, split, and `int.ToString()` with its read-back.
- `wrappers.dfy`: `Option` and `Result`.

The outside world becomes parameters:

- **Server and parsers.** `Env.server` maps each request to a response. `Env.parseIdList` and `Env.parseGuid` stand for
  `JsonConvert.DeserializeObject<List<Guid>>` and `Guid.Parse`.
- **Fresh values.** `newGuid(j)` and `utcNow(j)` stand for `Guid.NewGuid()` and `DateTime.UtcNow` in the j-th pass of the
  populate loop.
- **Current session id.** `currentId` stands for `MiniProfiler.Current.Id`.
- **Update time.** `now` stands for the update's `DateTime.UtcNow`.
- **Coin flip.** Test4's `todo` stands for `NextDouble() > 0.5`.
- **Formatting.** `fmt` renders a report value as text.
- **Guid text.** `showGuid` is a Guid's text form.

The code and the system's design notes disagree in one place, and the model follows the code.
The design notes say a session whose timing tree lacks a step, or has too few "sql" timings,
is skipped and the rest of the report is still produced. In the code, the positional indexers
throw on such a session. The exception escapes the action, so the whole report request fails.
The model therefore returns `InternalServerError` (`Build` gives the first `Fault`).

## Model

| member | source | states |
|---|---|---|
| Profiling.ListIds | Samples.AspNetCore/Controllers/TestController.cs:253 | `ListAsync(10000)` gives the newest min(n, 10000) stored ids, newest first, as a prefix of the store's listing |
| Profiling.Load | Samples.AspNetCore/Controllers/TestController.cs:256 | `Storage.Load` finds a session exactly when the id is stored, and then it is the stored one |
| Models.FindHit | Samples.AspNetCore/Controllers/TestController.cs:229 | `FirstOrDefault(h => h.Id == id)`: for a result, the first position with that id; for None, no hit with that id |
| Models.IdsOf | Samples.AspNetCore/Controllers/TestController.cs:208 | the hit list is the table's ids, one per hit, in table order |
| Models.Touch | Samples.AspNetCore/Controllers/TestController.cs:232-238 | only the first hit with the id gets `UpdateTime = now`; every id, name and other time is unchanged, and the table keeps its length |
| Http.ToResponse | ScaleTest-Client/Program.cs:77-80 | the client sees a success status exactly for an `Ok(...)` result, and then the value's serialised body |
| Window.TakeWhileNot | Samples.AspNetCore/Controllers/TestController.cs:254 | `TakeWhile(g => g != LastUpdate)` is a prefix without the marker, and it stops only at the marker or at the end |
| Window.TakeWhileNotIsPrefixBeforeMarker | Samples.AspNetCore/Controllers/TestController.cs:254 | the kept ids are exactly those before the first occurrence of the marker |
| Window.TakeWhileNotEdges | Samples.AspNetCore/Controllers/TestController.cs:254 | a marker listed first gives the empty window; an absent marker keeps the whole listing |
| Window.Reverse | Samples.AspNetCore/Controllers/TestController.cs:256 | `Reverse()`: same length, and element i is element n-1-i of the input |
| Window.LoadAll | Samples.AspNetCore/Controllers/TestController.cs:256 | `Select(Load).Where(p => p != null)` keeps at most one session per id, each one stored under a listed id |
| Window.LoadAllAppend | Samples.AspNetCore/Controllers/TestController.cs:256 | loading keeps the ids' relative order: it distributes over concatenation |
| Window.LoadAllComplete | Samples.AspNetCore/Controllers/TestController.cs:256 | nothing is dropped exactly when every id is stored, and then session i is id i's session |
| Window.WindowExcludesMarker | Samples.AspNetCore/Controllers/TestController.cs:253-256 | in a store that files sessions under their own ids, no window session is the checkpoint's own session, and every one is among the 10000 newest (Test2Controller.cs:71-74 and Test4Controller.cs:171-174 are the same pipeline) |
| Window.WindowOldestFirst | Samples.AspNetCore/Controllers/TestController.cs:253-256 | when every listed id loads, the window has one session per kept id, oldest first: row i is kept id n-1-i |
| Window.WindowExampleAfterCheckpoint | Samples.AspNetCore/Controllers/TestController.cs:253-256 | for ids [4,3,2,1] with checkpoint 3, the window is session 4 alone |
| Window.WindowExampleNoTraffic | Samples.AspNetCore/Controllers/TestController.cs:253-256 | with the newest id as the checkpoint, the window is empty |
| Window.WindowExampleUnknownCheckpoint | Samples.AspNetCore/Controllers/TestController.cs:253-256 | with an unlisted checkpoint (such as the initial `Guid.Empty`), all four sessions come back, oldest first |
| Report.Child | Samples.AspNetCore/Controllers/TestController.cs:267 | `Children[i]` is the i-th child when it exists; otherwise it is the out-of-range fault |
| Report.Category | Samples.AspNetCore/Controllers/TestController.cs:270 | `CustomTimings["sql"]` is the category's list when present; otherwise it is the missing-key fault |
| Report.Entry | Samples.AspNetCore/Controllers/TestController.cs:278 | `getSql[i]` is entry i when it exists; otherwise it is the out-of-range fault |
| Report.WalkThree | Samples.AspNetCore/Controllers/TestController.cs:267-273 | the schema path [a, b, c] reaches `Root.Children[a].Children[b].Children[c]` exactly when every index is in range |
| Report.WalkAppend | Samples.AspNetCore/Controllers/Test4Controller.cs:185-188 | one more index on a path steps into that child of the step the path reached (`get.Children[k]`) |
| Report.SessionColumnsMatch | Samples.AspNetCore/Controllers/TestController.cs:275 | the Id, Started and TotalMs columns always resolve, to the session's id, start and duration |
| Report.StepColumnsMatch | Samples.AspNetCore/Controllers/TestController.cs:276 | a step's Start/Ms columns resolve exactly when the step exists, and then to its start and duration |
| Report.SqlColumnsMatch | Samples.AspNetCore/Controllers/TestController.cs:278 | the six SQL columns resolve exactly when the step exists with at least three "sql" custom timings, and then to entries 0, 1 and 2 |
| Report.ChildColumnsMatch | Samples.AspNetCore/Controllers/Test4Controller.cs:192 | the six sub-step columns resolve exactly when the step has at least three children, and then to children 0, 1 and 2 |
| Report.BuildOkIff | Samples.AspNetCore/Controllers/TestController.cs:265-282 | a report is produced exactly when every window session's row can be read |
| Report.BuildLines | Samples.AspNetCore/Controllers/TestController.cs:257-282 | a produced report is the header line, then one newline-terminated line per session in window order; an empty window gives the header line alone |
| Report.BuildFirstFault | Samples.AspNetCore/Controllers/TestController.cs:265-273 | a failed report carries the fault of the first session whose row cannot be read, and every earlier session's row reads |
| Report.RowReadsBack | Samples.AspNetCore/Controllers/TestController.cs:275-281 | a row of plain fields is one line, and splitting it at commas gives exactly its formatted fields |
| Report.BuildParses | Samples.AspNetCore/Controllers/TestController.cs:257-284 | read back as CSV, a produced report is the header's names, then exactly one row per session, each as wide as the header and holding that session's values |
| Text.SplitJoin | Samples.AspNetCore/Controllers/TestController.cs:275-281 | comma-joined fields that hold no comma split back into those fields |
| Text.SplitTerminated | Samples.AspNetCore/Controllers/TestController.cs:263 | newline-terminated lines that hold no newline split back into those lines plus a final empty piece |
| Text.DecimalRoundTrip | ScaleTest-Client/Program.cs:97 | `int.ToString()` reads back as the same int |
| Text.DecimalTextInjective | ScaleTest-Client/Program.cs:97 | different counts have different decimal texts |
| TestController.Ping | Samples.AspNetCore/Controllers/TestController.cs:120-124 | `Ping` answers `Ok("pong")` |
| TestController.PopulateDatabase | Samples.AspNetCore/Controllers/TestController.cs:126-164 | invalid model state answers 400 and adds nothing. Otherwise it adds max(0, count - existing) hits, hit j named "name"+(existing+j) with the j-th fresh id and time, all names distinct, and it answers `count` |
| TestController.HitNamesDistinct | Samples.AspNetCore/Controllers/TestController.cs:154 | hits with different loop indices get different names |
| TestController.UpdateItem | Samples.AspNetCore/Controllers/TestController.cs:213-248 | answers the given id whatever the table holds, and touches only a matching hit. Steps "Create Context" and "Get Existing" come under "EF Core Stuff", then "Update" exactly when a hit with the id exists |
| TestController.ExtractRow | Samples.AspNetCore/Controllers/TestController.cs:265-281 | the positional read of one row gives exactly one value per header column |
| TestController.StepPaths | Samples.AspNetCore/Controllers/TestController.cs:267-272 | the schema's paths [1,0,c] reach `Root.Children[1].Children[0].Children[c]` (createContext, get, update) exactly when those indices exist |
| TestController.ExtractRowFollowsSchema | Samples.AspNetCore/Controllers/TestController.cs:265-281 | the positional row exists exactly when every column's step and "sql" entry exists, and then each value is the one its header column names |
| TestController.HeaderIsFixed | Samples.AspNetCore/Controllers/TestController.cs:257-263 | the header's names are the action's 21 literal names, in its order |
| TestController.HeaderPlain | Samples.AspNetCore/Controllers/TestController.cs:257-263 | the header has 21 names, none holding a comma or a newline |
| TestController.ReportParses | Samples.AspNetCore/Controllers/TestController.cs:250-285 | with plain field formatting, a produced report reads back as the 21 header names followed by one 21-field row per window session, oldest first |
| TestController.UpdateSessionRow | Samples.AspNetCore/Controllers/TestController.cs:218-239 | a session recorded by `UpdateItemAsync`, with three "sql" timings per database step, has a report row exactly when the hit existed (otherwise `Children[2]` is out of range) |
| TestController.Controller.constructor | Samples.AspNetCore/Controllers/TestController.cs:111 | the static `LastUpdate` starts as `Guid.Empty` |
| TestController.Controller.GetHitList | Samples.AspNetCore/Controllers/TestController.cs:190-211 | invalid model state answers 400 and keeps the checkpoint. Otherwise the checkpoint becomes the current session's id and the answer is the table's ids |
| TestController.Controller.GetProfilingDataSinceLastPopulate | Samples.AspNetCore/Controllers/TestController.cs:250-285 | the loop's text is `Build` over the window since the checkpoint, answered with `Ok`; a session whose row cannot be read fails the request |
| Test2Controller.UpdateItem | Samples.AspNetCore/Controllers/Test2Controller.cs:44-66 | answers the given id whatever the table holds. It opens "Get Existing", then "Update" under "EF Core Stuff" exactly when the hit exists, and touches only that hit |
| Test2Controller.ExtractRow | Samples.AspNetCore/Controllers/Test2Controller.cs:82-95 | the positional read of one row gives exactly one value per header column |
| Test2Controller.StepPaths | Samples.AspNetCore/Controllers/Test2Controller.cs:84-87 | the schema's paths [1,0,c] reach `get` (c = 0) and `update` (c = 1) exactly when those indices exist |
| Test2Controller.ExtractRowFollowsSchema | Samples.AspNetCore/Controllers/Test2Controller.cs:82-95 | the positional row exists exactly when both steps and their first three "sql" timings exist, and then each value is the one its column names |
| Test2Controller.HeaderIsFixed | Samples.AspNetCore/Controllers/Test2Controller.cs:75-80 | the header is the 19 literal names: TestController's without ContextStart and ContextMs |
| Test2Controller.HeaderPlain | Samples.AspNetCore/Controllers/Test2Controller.cs:75-80 | the header has 19 names, none holding a comma or a newline |
| Test2Controller.ReportParses | Samples.AspNetCore/Controllers/Test2Controller.cs:68-99 | with plain field formatting, a produced report reads back as the 19 names followed by one 19-field row per window session, oldest first |
| Test2Controller.UpdateSessionRow | Samples.AspNetCore/Controllers/Test2Controller.cs:48-63 | a session recorded by `UpdateItemAsync`, with three "sql" timings per step, has a report row exactly when the hit existed |
| Test2Controller.Controller.constructor | Samples.AspNetCore/Controllers/Test2Controller.cs:20 | the static `LastUpdate` starts as `Guid.Empty` |
| Test2Controller.Controller.GetHitList | Samples.AspNetCore/Controllers/Test2Controller.cs:28-42 | invalid model state answers 400 and keeps the checkpoint. Otherwise the checkpoint becomes the current session's id and the answer is the table's ids |
| Test2Controller.Controller.GetProfilingDataSinceLastPopulate | Samples.AspNetCore/Controllers/Test2Controller.cs:68-99 | the loop's text is `Build` over the window since the checkpoint with the 19-column schema; a row that cannot be read fails the request |
| Test4Controller.UpdateItem | Samples.AspNetCore/Controllers/Test4Controller.cs:73-166 | answers the given id. It always opens "Get Existing" and "Update", each with "Open connection", "Execute query" and "Read data". `todo` only picks the executed command: the select, which changes nothing, or the update, which touches the hit |
| Test4Controller.UpdateShapeIgnoresTodo | Samples.AspNetCore/Controllers/Test4Controller.cs:79-162 | the recorded step shape is the same for both coin flips: two steps of three sub-steps each |
| Test4Controller.ExtractRow | Samples.AspNetCore/Controllers/Test4Controller.cs:182-195 | the positional read of one row gives exactly one value per header column |
| Test4Controller.StepPaths | Samples.AspNetCore/Controllers/Test4Controller.cs:184-187 | the schema's paths [1,0,c] reach `get` and `update` exactly when those indices exist |
| Test4Controller.ExtractRowFollowsSchema | Samples.AspNetCore/Controllers/Test4Controller.cs:182-195 | the positional row exists exactly when both steps have at least three children, and then the sub-step columns hold children 0, 1 and 2, not custom timings |
| Test4Controller.HeaderIsFixed | Samples.AspNetCore/Controllers/Test4Controller.cs:175-180 | the header is the same 19 literal names as Test2's |
| Test4Controller.HeaderPlain | Samples.AspNetCore/Controllers/Test4Controller.cs:175-180 | the header has 19 names, none holding a comma or a newline |
| Test4Controller.ReportParses | Samples.AspNetCore/Controllers/Test4Controller.cs:168-199 | with plain field formatting, a produced report reads back as the 19 names followed by one 19-field row per window session, oldest first |
| Test4Controller.UpdateSessionRow | Samples.AspNetCore/Controllers/Test4Controller.cs:79-162 | a session recorded by `UpdateItemAsync` always has a report row, for either coin flip |
| Test4Controller.Controller.constructor | Samples.AspNetCore/Controllers/Test4Controller.cs:20 | the static `LastUpdate` starts as `Guid.Empty` |
| Test4Controller.Controller.GetHitList | Samples.AspNetCore/Controllers/Test4Controller.cs:31-65 | invalid model state answers 400 and keeps the checkpoint. Otherwise the checkpoint becomes the current session's id and the answer is the table's ids |
| Test4Controller.Controller.GetProfilingDataSinceLastPopulate | Samples.AspNetCore/Controllers/Test4Controller.cs:168-199 | the loop's text is `Build` over the window since the checkpoint with the child-step schema; a row that cannot be read fails the request |
| ScaleTestClient.UrlInjective | ScaleTest-Client/Program.cs:65-70 | different populate counts, and different update items, go to different URLs |
| ScaleTestClient.DoPing | ScaleTest-Client/Program.cs:73-88 | passes exactly on a success status with body "pong"; otherwise "Controller not started" |
| ScaleTestClient.CheckPopulate | ScaleTest-Client/Program.cs:93-101 | passes exactly on a success status whose body is `itemCount.ToString()`; otherwise "Database populate failed" |
| ScaleTestClient.CheckIdList | ScaleTest-Client/Program.cs:103-117 | gives exactly the first `itemCount` listed ids, in order, on a success status with at least that many. A non-success status is "Response from server was invalid"; a short list is "Wrong number of items" with its count |
| ScaleTestClient.StripQuotes | ScaleTest-Client/Program.cs:131 | `Replace("\"", "")` leaves no quote and never lengthens the text |
| ScaleTestClient.StripQuotesUnquoted | ScaleTest-Client/Program.cs:131 | a text without quotes is unchanged |
| ScaleTestClient.StripQuotesAppend | ScaleTest-Client/Program.cs:131 | removing quotes distributes over concatenation |
| ScaleTestClient.StripQuotesQuoted | ScaleTest-Client/Program.cs:131 | a quoted, quote-free text strips back to itself |
| ScaleTestClient.CheckEcho | ScaleTest-Client/Program.cs:125-138 | one update passes exactly on a success status whose body, with quotes removed, parses to the item. A non-success status is "Exception in task" with the body; a different Guid is "Invalid response" |
| ScaleTestClient.GetResult | ScaleTest-Client/Program.cs:151-164 | the body is written verbatim exactly on a success status; otherwise nothing happens and nothing fails |
| ScaleTestClient.UpdateRequests | ScaleTest-Client/Program.cs:123-125 | one update request per item, in item order |
| ScaleTestClient.FanOutPassesIff | ScaleTest-Client/Program.cs:123-141 | the fan-out passes exactly when every item's response passes |
| ScaleTestClient.FanOutFirstFailure | ScaleTest-Client/Program.cs:141 | a failed fan-out reports the failure of the first item, in list order, whose response does not pass |
| ScaleTestClient.UpdateItems | ScaleTest-Client/Program.cs:121-142 | every update request is sent, one per item in order, and the outcome is the fan-out's |
| ScaleTestClient.PhasesInOrder | ScaleTest-Client/Program.cs:41-55 | a run's requests start with ping, then populate only after the ping passed, then the hit list only after the populate passed. A failed run writes nothing, and a passing run ends with the report request |
| ScaleTestClient.UpdatesAreTheFirstIds | ScaleTest-Client/Program.cs:45-53 | a run that reaches the updates sends exactly one per each of the first `itemCount` listed ids, in order, and reaches the report exactly when all of them pass |
| ScaleTestClient.CooperativeServerRun | ScaleTest-Client/Program.cs:41-55 | against a server that answers every phase correctly, the run sends ping, populate, hit list, the updates and the report request, passes, and writes the report's body |
| ScaleTestClient.Program.constructor | ScaleTest-Client/Program.cs:16-17 | the defaults are `http://localhost:54580` and 10 items |
| ScaleTestClient.Program.Configure | ScaleTest-Client/Program.cs:22-30 | `args[0]` replaces the URL and `args[1]` the count, each only when present and non-empty; a malformed count fails after the URL was already taken |
| ScaleTestClient.Program.Run | ScaleTest-Client/Program.cs:41-55 | `Main`'s phases, run one after another, do what `Drive` describes for the configured count |
| EndToEnd.PingAccepted | ScaleTest-Client/Program.cs:73-88 | the controller's `Ok("pong")` passes the ping check |
| EndToEnd.PopulateAccepted | ScaleTest-Client/Program.cs:93-101 | the populate answer `Ok(count)` passes for that count and for no other |
| EndToEnd.HitListAccepted | ScaleTest-Client/Program.cs:103-117 | the hit list, read back by a parser that undoes its serialisation, gives the client its first n ids |
| EndToEnd.EchoAccepted | ScaleTest-Client/Program.cs:125-138 | every controller's echoed id passes the client's check, whatever the table held and whichever way Test4's coin fell |

## Left out

- Database access is not modelled: EF Core queries, `SaveChangesAsync`, `SqlConnection`/`SqlCommand`,
  `EnsureCreated` and `SampleContext`. The table is a sequence of `RouteHit`s, and changes to it are what
  the actions return. `Startup.cs` is wiring only and is not part of this model.
- The profiler steps that `PopulateDatabaseAsync` (TestController.cs:133-161) and `GetHitListAsync` open
  are not modelled; only those of `UpdateItemAsync` feed a report row.
- `CleanDatabaseAsync` (TestController.cs:167-188) and the client's `CleanDatabase` (Program.cs:145-148)
  are left out. The client never calls them.
- The `not used` region of TestController.cs (287-596) is not part of this model. Neither is the second
  copy of Test2Controller inside TestController.cs (18-103); Test2Controller.cs is the modelled one.
- MiniProfiler itself is taken as given. The model does not include storage eviction, how `Step` builds
  the timing tree, or how `Current.Id` is chosen. `ListAsync` and `Load` are a list and a map.
- Numbers and timestamps are turned into text by the parameter `fmt`. `DateTime.ToString("yyyy-MM-ddThh:mm:ss.ffffff")`
  (a 12-hour `hh`), the decimal rendering of millisecond values and `Guid.ToString()` are not modelled.
  The CSV read-back assumes `fmt` writes no comma and no newline. A culture with a decimal comma
  would break that.
- `Environment.NewLine` is taken as "\n". On Windows it is "\r\n", and then the read-back would
  need a two-character separator.
- `Task.WhenAll` concurrency is not modelled. The fan-out sends the requests in list order and reports
  the first failure in that order. The real client's order of completion is unordered, and this does
  not change which requests are sent or whether the phase passes.
- The network, `HttpClient`, `Uri` parsing of the base URL, the ten-minute timeout, `ServicePointManager`,
  the logging, the Stopwatch timings, the results file's path and `File.WriteAllTextAsync` are not
  modelled. A run records the body it would write as `written`.
- The server is a function of the request alone. It does not capture a server whose answer depends on
  earlier requests; the controllers' own state changes are modelled separately in their modules.
- `JsonConvert`, `Guid.Parse` and `int.Parse` are parameters, so their parsing rules are not modelled.
- Test4Controller.Controller.GetHitList: returns the table's ids rather than running `GetAllQuery` over
  a `SqlDataReader`, because database reads are not modelled.
