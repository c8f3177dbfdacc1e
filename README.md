# monitor-switch, modelled in Dafny

`monitor-switch` is a small command-line program that switches the input
source of DDC/CI monitors. It builds a display query from optional filters
(backend, id, manufacturer, model, serial) and locates the matching displays
through the `ddc_hi` library. Then it runs one of two subcommands:

- `set INPUT` refreshes each located display in turn and writes one input
  source to it;
- `toggle INPUT1 INPUT2` reads the first display's current source and
  writes the other option to each located display in turn.

A failed refresh, and in `toggle` a failed read or a source that is neither
option, ends the command. A failed write is only a warning. Each display
that completes its pass of the loop is kept in a `DisplaySleep` list
(`sleep.add`). When the list is dropped, each of those displays gets its
communication delay. A display that was refreshed or read but never added
gets none.

This project models the program's logic and proves properties of it. The
library is not modelled. Each of its replies comes from an `Oracle`: tables
keyed by the calls made so far and the call's arguments. So every property
holds whatever the library and the monitors answer.

Every call the program makes is appended to a log, in order: refresh, feature
read, feature write, delay, and warning. Properties about ordering, "exactly
once" and "never" are stated over that log.

Layout, one module per file:

- `common.dfy` (`Common`): the byte and word types, `Option`, `Result`, and
  the program's errors.
- `input_source.dfy` (`InputSources`): the 18-entry Input Select code table,
  decoding a code, and parsing and printing a source name.
- `library.dfy` (`Library`): the library's display records, query tree,
  call log and oracle. `Host` is the program's connection, holding the log
  as a field that its methods extend.
- `queries.dfy` (`Queries`): the filter-to-query construction and the
  `needs_caps` flag.
- `locator.dfy` (`Locator`): `displays`, the enumerate, refresh, filter and
  collect pipeline.
- `input_feature.dfy` (`InputFeature`): `set_input_source` and
  `get_input_source`.
- `teardown.dfy` (`Teardown`): the `DisplaySleep` class and its `Drop`.
- `commands.dfy` (`Commands`): the `set` and `toggle` loops as methods over
  the `Host`. `Execute` is `main` after argument parsing. Each method is
  proved equal to a specification function (`SetLoop`, `ToggleLoop`,
  `Session`).
- `command_properties.dfy` (`CommandProperties`) and
  `session_properties.dfy` (`SessionProperties`): what the loops and a whole
  invocation promise, proved about those functions.

## Model

| member | source | states |
|---|---|---|
| InputSources.Code | src/main.rs:28-47 | every source's code lies in 0x01..0x12 |
| InputSources.Value | src/main.rs:28-47 | the 16-bit value a source is written as (`input_source as u16`) lies in 0x01..0x12 |
| InputSources.FromCode | src/main.rs:26-47 | decoding a 16-bit value succeeds exactly when it lies in 0x01..0x12, and the source it gives has that value as its code |
| InputSources.FromCodeValue | src/main.rs:26-47 | decoding the value of any source gives that source back |
| InputSources.CodeInjective | src/main.rs:28-47 | two sources have the same code exactly when they are the same source |
| InputSources.Name | src/main.rs:26-47 | a printed name is a variant name, at least four letters long and ending in the variant's digit 1, 2 or 3 |
| InputSources.FromName | src/main.rs:26 | a name that parses is the printed form of the source it parses to |
| InputSources.FromNameName | src/main.rs:26 | printing any source and parsing the text gives the source back |
| InputSources.VariantNamesIndexed | src/main.rs:26-47 | there are 18 offered names, pairwise distinct, and the name at index code - 1 is the printed form of the source with that code |
| InputSources.AllSourcesComplete | src/main.rs:28-47 | the table has 18 entries and lists each source at the index one below its code |
| InputSources.AllSourcesDistinct | src/main.rs:28-47 | the table lists no source twice |
| InputSources.FromNameOffered | src/main.rs:113 | a name parses exactly when it is one of the offered names |
| Queries.BuildQuery | src/main.rs:173-199 | the capability-refresh flag is set exactly when a model filter is present; with no filters the query is `Any` |
| Queries.ConstructQuery | src/main.rs:173-197 | the step-by-step reassignment of `query` and `needs_caps` gives the same plan as `BuildQuery` |
| Queries.NarrowMatches | src/main.rs:183-196 | ANDing a condition onto a query matches exactly when both match |
| Queries.BackendsMatch | src/main.rs:179-183 | the OR of the leaves built from the `--backend` values matches exactly when one of the listed backends matches |
| Queries.BuildQueryMatches | src/main.rs:173-197 | the built query matches a display exactly when every present filter matches it (backends ORed), and it matches every display when no filter is present |
| Locator.Displays | src/main.rs:68-86 | `displays` only appends to the log, and a located list is never longer than the enumerated one |
| Locator.DisplaysProbed | src/main.rs:68-86 | `displays` succeeds exactly when every refresh it makes succeeds, and then returns exactly the matching displays of the enumerated list in order, each display that needed a refresh carrying the information its refresh returned |
| Locator.DisplaysWithoutRefresh | src/main.rs:68-86 | when no display needs a refresh, `displays` makes no call and returns exactly the matching displays in enumeration order |
| Locator.DisplaysRefreshes | src/main.rs:72-78 | the calls `displays` makes are a prefix of one refresh per WinApi display (only when the flag is set), in enumeration order, and all of them when it succeeds |
| Locator.DisplaysLocated | src/main.rs:68-86 | a successful result lists only matching displays, with handles in enumeration order, each an enumerated display as it was or one with the handle of an enumerated display that needed a refresh, and drops no matching display that needed no refresh |
| Locator.DisplaysFirstError | src/main.rs:72-86 | a failed result is the error of the last call made, which is the first refresh that failed |
| InputFeature.SetInputSourceStep | src/main.rs:88-96 | `set_input_source` makes at most one call, and succeeds only when the database lists feature 0x60 |
| InputFeature.GetInputSourceStep | src/main.rs:98-105 | `get_input_source` makes at most one call, and succeeds only when the database lists feature 0x60 and one read was made |
| InputFeature.WithoutInputFeature | src/main.rs:88-105 | without feature 0x60 in the database, both operations fail with the feature error and make no call |
| InputFeature.SetInputSourceWrites | src/main.rs:88-93 | with the feature, `set_input_source` makes exactly one call, a write of the source's code to the database's feature code, returns the library's answer, and the value written decodes back to the source |
| InputFeature.GetInputSourceDecodes | src/main.rs:98-102 | `get_input_source` gives a source exactly when the feature is present and the read returned that source's code; a value outside 0x01..0x12 is the invalid-code error |
| InputFeature.SetInputSource | src/main.rs:88-96 | the method's calls and result are those of `SetInputSourceStep` |
| InputFeature.GetInputSource | src/main.rs:98-105 | the method's calls and result are those of `GetInputSourceStep` |
| Teardown.Sleeps | src/main.rs:61-64 | one delay per added display, in the order added |
| Teardown.SleepsOnce | src/main.rs:59-66 | with distinct handles, each added display gets exactly one delay and any other handle none |
| Teardown.DisplaySleep.constructor | src/main.rs:201 | the list starts empty |
| Teardown.DisplaySleep.Add | src/main.rs:53-57 | `add` appends the display at the end |
| Teardown.DisplaySleep.Drop | src/main.rs:59-66 | dropping appends to the log one delay per added display, in order, and nothing else |
| Commands.SetVisit | src/main.rs:211-216 | one pass of the `set` loop body first refreshes that display, and a successful pass keeps that display's handle |
| Commands.SetLoop | src/main.rs:210-217 | the `set` loop only appends to the log and adds at most as many displays as were located |
| Commands.Decide | src/main.rs:233-243 | with a target already decided, the target block makes no call and keeps it; otherwise a decided target is one of the two options |
| Commands.ToggleVisit | src/main.rs:231-252 | one pass of the `toggle` loop body first refreshes that display, and a successful pass keeps that display's handle and an already decided target |
| Commands.ToggleLoop | src/main.rs:229-253 | the `toggle` loop only appends to the log and adds at most as many displays as were located |
| Commands.Perform | src/main.rs:203-256 | a subcommand only appends to the log and adds at most as many displays as are attached |
| Commands.Session | src/main.rs:173-256 | an invocation only appends to the log and adds at most as many displays as are attached |
| Commands.Locate | src/main.rs:210 | locating the displays extends the log and gives the result exactly as the `displays` function says |
| Commands.SetOne | src/main.rs:211-216 | one pass of the `set` loop body makes the calls and gives the result of `SetVisit` |
| Commands.SetEach | src/main.rs:210-217 | the `set` loop leaves the log, the added list and the result as `SetLoop` says |
| Commands.DecideTarget | src/main.rs:233-243 | the target block reads the display only when no target is decided, and gives the other option or an error as `Decide` says |
| Commands.ToggleOne | src/main.rs:231-252 | one pass of the `toggle` loop body makes the calls and gives the result of `ToggleVisit` |
| Commands.ToggleEach | src/main.rs:229-253 | the `toggle` loop, with its write-once target, leaves the log, the added list and the result as `ToggleLoop` says |
| Commands.Dispatch | src/main.rs:203-256 | running a subcommand on an empty list gives the log, added list and result of `Perform` |
| Commands.Execute | src/main.rs:173-258 | the final log is the session's calls followed by one delay per added display, and the exit result is the session's result |
| CommandProperties.WriteStepEvents | src/main.rs:213-215 | a write attempt and its warning make exactly the calls of `WriteCalls`: one write of the source's code to the feature code the display's database lists, followed by a warning about that display exactly when the library rejects it; without the feature, only the warning |
| CommandProperties.WriteCallsEvents | src/main.rs:213-215 | every call of a write attempt is the write of that source's code to that display's feature code, or a warning about that display |
| CommandProperties.DecideEvents | src/main.rs:233-243 | deciding the target makes no call once a target is decided, and otherwise exactly one read of the display's feature code, or none without the feature |
| CommandProperties.SetVisitShape | src/main.rs:211-216 | one pass of `set` fails exactly when the refresh fails, with the refresh as its only call and the refresh's error; otherwise it returns the refreshed display and its calls are the refresh followed by exactly that display's write attempt (`WriteCalls`) |
| CommandProperties.SetLoopWrites | src/main.rs:210-217 | every display `set` adds is sent the source's code at its feature code (or warned about without the feature), every write sends the source to an added display, and every rejected write is followed by a warning about that display |
| CommandProperties.SetLoopAdds | src/main.rs:210-217 | `set` adds the located displays in order; a rejected refresh ends it: that refresh is the last call and its error the result; conversely a failure is a rejected refresh, the last call, of the first display not added, and success means all were added |
| CommandProperties.SetLoopAborts | src/main.rs:210-211 | a rejected refresh, of any display, is the last call of `set` and its error is the result |
| CommandProperties.SetLoopEvents | src/main.rs:210-217 | `set` only refreshes, warns and writes the requested source's code, never reads or sleeps, and writes each added display as `SetLoopWrites` says |
| CommandProperties.SetLoopWarnsAdded | src/main.rs:212-216 | every warning is about a display that is then added |
| CommandProperties.ToggleVisitDecided | src/main.rs:233-250 | once a target is decided, one pass of `toggle` is exactly one pass of `set` with that target |
| CommandProperties.ToggleDecidedIsSet | src/main.rs:230-253 | once a target is decided, the rest of `toggle` is exactly `set` of that target over the remaining displays |
| CommandProperties.ToggleVisitNoSleep | src/main.rs:231-252 | the first pass of `toggle` sleeps no display and passes on the display it visited |
| CommandProperties.ToggleVisitFirst | src/main.rs:231-252 | the first pass of `toggle` ends with the refresh's error when the refresh fails; otherwise it decides the target, ends with the decision's error when that fails, and else makes exactly one write attempt of the decided target on the refreshed display |
| CommandProperties.ToggleLoopAdds | src/main.rs:230-253 | `toggle` adds the located displays in order and succeeds exactly when all were added; a rejected refresh ends it, as the last call, with its error; conversely a failure is either the first display's failed decision with nothing added, or a rejected refresh, the last call, of the first display not added |
| CommandProperties.ToggleLoopStops | src/main.rs:230-231 | a rejected refresh, of any display, is the last call of `toggle` and its error is the result |
| CommandProperties.ToggleKeepsTarget | src/main.rs:245-250 | once the target is decided, `toggle` only refreshes, warns and writes that target, every display it adds is sent that target (or warned about), and every write goes to an added display |
| CommandProperties.ToggleLoopNoSleep | src/main.rs:230-253 | `toggle` sleeps no display before teardown |
| CommandProperties.ToggleAfterDecision | src/main.rs:233-250 | after the first display's decision, `toggle` either stops with the decision's error and nothing added, or from the start sends the decided target to every added display and to no other, making only refreshes, warnings and writes of that target after the decision |
| CommandProperties.ToggleSetsGoal | src/main.rs:233-250 | once the first display decided a target, every later call of `toggle` is a refresh, a warning or a write of that target |
| CommandProperties.ToggleWritesGoal | src/main.rs:233-250 | once the first display decided a target, `toggle` sends it to every added display (or warns), to no other, and warns after every rejected write |
| CommandProperties.DecideFromRead | src/main.rs:233-243 | with no target yet, the decision makes the calls of the read; a failed read is its error, INPUT1 gives INPUT2, INPUT2 (and not INPUT1) gives INPUT1, and any other source the not-a-toggle-option error |
| CommandProperties.ToggleReadsOnce | src/main.rs:229-253 | after the first display's read, `toggle` reads no display again |
| CommandProperties.ToggleReadFails | src/main.rs:233-243 | a failed read of the first display, or a source that is neither option, aborts `toggle` with that error and nothing added |
| CommandProperties.ToggleFirstWritesSecond | src/main.rs:233-250 | when the first display shows INPUT1, every added display is sent INPUT2 (or warned about) and no other display is written |
| CommandProperties.ToggleSecondWritesFirst | src/main.rs:233-250 | when the first display shows INPUT2 and not INPUT1, every added display is sent INPUT1 (or warned about) and no other display is written |
| CommandProperties.ToggleDecidesOnce | src/main.rs:229-253 | the first display is read once and no display after it; current = INPUT1 means every added display is sent INPUT2 and no other written; current = INPUT2 (and not INPUT1) the same with INPUT1; a failed read or any other source aborts with nothing added, the latter with the not-a-toggle-option error |
| SessionProperties.LocatingSleepsNothing | src/main.rs:68-86 | locating makes only refresh calls; when the attached handles are distinct, it gives distinct handles of attached displays, all matching the query |
| SessionProperties.TeardownCount | src/main.rs:59-66 | when the added handles are distinct, delays appended after calls that had none give each added display exactly one delay |
| SessionProperties.SetTeardown | src/main.rs:204-218 | when the attached handles are distinct, after `set`, each added display gets exactly one delay in the final log and every other handle none |
| SessionProperties.ToggleTeardown | src/main.rs:219-254 | when the attached handles are distinct, after `toggle`, each added display gets exactly one delay in the final log and every other handle none |
| SessionProperties.SessionSleepsOnce | src/main.rs:201-258 | on every exit path, each added display gets exactly one delay in the final log and every other handle none; the added handles are distinct handles of attached displays |
| SessionProperties.SessionRejectsUnknownNames | src/main.rs:205-227 | a source name that is not one of the offered names aborts with the parse error, before any library call and with nothing added |
| SessionProperties.SetSessionWrites | src/main.rs:204-218 | `set` of a known name only refreshes, warns and writes that source's code; a failed location aborts with nothing added; otherwise it adds the located displays in order, sends each added display the source (or warns), writes no other display, and warns after every rejected write |
| SessionProperties.AcmeQuery | src/main.rs:188-196 | `--mfg ACME --model U2720Q` forces a refresh and builds a query that matches a display exactly when its manufacturer is ACME and its model U2720Q |
| SessionProperties.AcmeSetHdmi1 | src/main.rs:188-218 | `--mfg ACME --model U2720Q set Hdmi1` locates exactly the enumerated displays, as refreshed, that its query matches (by `AcmeQuery`, the ACME U2720Q ones), adds them in order up to any failure, sends 0x11 to each added display, writes no other display, and writes no value but 0x11 |

## Left out

- Argument parsing with clap is left out, with the help and version output and the `possible_values` checks (src/main.rs:110-171). The model starts from the parsed filter values (`Filters`) and the subcommand with its raw name arguments (`Command`). These are library plumbing.
- Backend names that do not parse make the source panic in `unwrap` (src/main.rs:179-182). The model takes the backends already parsed.
- The `unreachable!` arm (src/main.rs:255) has no counterpart. clap requires one of the two subcommands, and `Command` has exactly two variants.
- `env_logger` and the text of the `info!` and `warn!` messages are left out. A warning is a `Warned(handle)` entry in the call log.
- `ddc_hi` is left out: enumeration, the capability-string parsing, the VCP wire protocol, and the timing inside `sleep`. Its replies are oracle tables, and a call the tables do not list fails with a device error.
- The leaf semantics of `Query::matches` are the library's. They are the oracle's `satisfies` relation.
- `Display::enumerate` returns a plain list, so it cannot fail (src/main.rs:71-72). The enumerated displays are the host's constant `attached` list, and no enumeration error is modelled.
- Process exit codes and the formatting of `failure::Error` are left out. Errors are the `Error` datatype, and the exit status is the `Result` that `Execute` returns.
- Panics and stack unwinding are left out. `Execute` drops the `DisplaySleep` after the subcommand returns on any path, which covers every `?` and `bail!` exit.
- No monitor is modelled. A write does not change what a later read returns. So "toggling twice returns to the first option" is not stated. What is proved is that the decided target is written to every added display and to no other.
- SessionProperties.SessionSleepsOnce: it requires the attached displays to have distinct handles, as do `LocatingSleepsNothing`, `SetTeardown` and `ToggleTeardown` (and `TeardownCount` of the added ones). Each `Display` owns its own handle in the source, and the model's handle stands for that identity.
- `set` does not abort when a display lacks the input feature: `set_input_source` fails, the loop only warns and still adds the display (src/main.rs:213-216). `SetLoopWrites` states it.
- A display whose refresh fails mid-loop gets no teardown delay: `update_capabilities()?` returns before `sleep.add`, so that display is not added (src/main.rs:211, 216, 231, 252). The displays added before it still get theirs. `SetLoopAborts` and `ToggleLoopStops` state that any rejected refresh ends the loop as its last call; `SetLoopAdds` and `ToggleLoopAdds` also state which display failed.
- `toggle` decides its target from the first located display only, as the code does (src/main.rs:233-243). `ToggleDecidesOnce` states this.
- Commands.SetVisit: its own ensures states only the shape of the result (the log grows, the refresh comes first, the handle is kept); `SetVisitShape` states what it computes.
- Commands.SetLoop: its own ensures states only the shape of the result (the log grows, at most the located displays are added); `SetLoopAdds` with `SetLoopWrites` states what it computes.
- Commands.Decide: its own ensures states only the shape of the result (the log grows, a decided target is one of the options); `DecideFromRead` with `DecideEvents` states what it computes.
- Commands.ToggleVisit: its own ensures states only the shape of the result (the log grows, the refresh comes first, the handle and a decided target are kept); `ToggleVisitFirst` with `ToggleVisitDecided` states what it computes.
- Commands.ToggleLoop: its own ensures states only the shape of the result (the log grows, at most the located displays are added); `ToggleLoopAdds` with `ToggleDecidesOnce` states what it computes.
- Commands.Perform: its own ensures states only the shape of the result (the log grows, at most the attached displays are added); `SessionSleepsOnce` with `SetSessionWrites` states what it computes.
- Commands.Session: its own ensures states only the shape of the result (the log grows, at most the attached displays are added); `SessionSleepsOnce` with `SetSessionWrites` states what it computes.
- Locator.Displays: its own ensures states only that the log grows and the result is no longer than the enumeration; `DisplaysProbed` states the result.
- InputFeature.SetInputSourceStep: its own ensures bounds the calls; `SetInputSourceWrites` and `WithoutInputFeature` state the result.
- InputFeature.GetInputSourceStep: its own ensures bounds the calls; `GetInputSourceDecodes` and `WithoutInputFeature` state the result.
- InputSources.Name: its own ensures states only the form of a name; `FromNameName` and `VariantNamesIndexed` tie each name to its source.
