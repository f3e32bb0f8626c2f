# clic — a Dafny model

clic is a minimal command-line flag library written in Go. An application
creates a `CLI` with its name, description and version. The registry starts
with the built-in flags `-h` (help) and `-v` (version). The application then
registers flags that either take no value or take the next argument as their
value. `Parse` walks the process arguments left to right from index 1. It calls
the handler of each registered flag it meets, and it stops at the first unknown
token, or at a value-taking flag that has nothing after it.

This model is in two files:

- `clic.dfy` (module `Clic`) holds the registry as the class `CLI`. Its
  `flags` field is a `map<string, FlagDef>`, updated in place by the
  constructor, `Flag` and `FlagWithValue`. `Parse` is a method with the
  source's index loop. A pure function `Scan`/`Run` specifies what `Parse`
  produces. A second, independent predicate `Explains` describes a correct
  pass: the dispatched events consume a prefix of the arguments exactly, each
  through a registered handler of the right kind, and the outcome describes what
  follows that prefix. `Run` is proved to be the one and only trace that
  `Explains` accepts. The properties in the Model table below follow from
  that as lemmas.
- `scenario.dfy` (module `Scenario`) holds the demo application of `main.go`
  (`-t`, `-n`, `-p`) as client methods. They assert the results of concrete
  argument lists.

Handlers are closures that the model cannot see. A `FlagDef` keeps the name,
the description and whether the flag takes a value. The handler that fires is
identified by the token it is registered under. The effect of `Parse` is a
sequence of `Event`s, each `NoValue(token)` or `WithValue(token, value)`, plus
an `Outcome`: `NoArgs`, `Done`, `UnknownFlag(token)` or `MissingValue(token)`.
`os.Args` is passed to `Parse` as a parameter. The dispatcher's three console
lines are given by `Diagnostic(outcome)`, with the exact text of the source.

The application name, description and version are `const` fields. The source
never writes them after `New`, so every method leaves them unchanged by
construction. `Parse` has no `modifies` clause, so it cannot change the
registry.

## Model

| member | source | states |
|---|---|---|
| `Clic.CLI.constructor` | clic.go:24-53 | the metadata is stored unchanged; the registry has exactly the keys `-h` and `-v`, both without value and with their built-in descriptions; the registry invariant holds |
| `Clic.CLI.Flag` | clic.go:56-63 | the entry for the token is replaced by a no-value definition (`takesValue` false), every other key is unchanged, and the registry invariant is kept |
| `Clic.CLI.FlagWithValue` | clic.go:66-73 | the entry for the token is replaced by a value-taking definition (`takesValue` true), every other key is unchanged, and the registry invariant is kept |
| `Clic.Register` | clic.go:57-72 | inserting adds exactly the token to the keys, files the new definition under it (overwriting any earlier one, built-ins included), and keeps every other entry |
| `Clic.RegisterLastWins` | clic.go:56-73 | registering a token twice is the same as registering only the second definition |
| `Clic.CLI.Parse` | clic.go:96-123 | the loop's events and outcome are exactly those of `Run` on the registry and the arguments; they are a correct pass in the sense of `Explains`; its loop invariant keeps the index in `1..|args|`, and it grows by 1 or 2 per step |
| `Clic.Scan` | clic.go:102-122 | the scan of the remaining arguments never ends in the no-arguments outcome and dispatches at most one event per argument |
| `Clic.Run` | clic.go:96-100 | the pass ends in the no-arguments outcome exactly when there are fewer than two arguments |
| `Clic.ScanAccounts` | clic.go:102-122 | the scan's events consume a prefix of the remaining arguments exactly, each through a registered handler of matching kind; it ends `Done` only when everything is consumed, `UnknownFlag(t)` only at an unregistered `t` right after the prefix, `MissingValue(t)` only when a value-taking `t` is the one argument left |
| `Clic.AccountsUnique` | clic.go:102-122 | any trace with the properties above is the scan itself |
| `Clic.RunExplains` | clic.go:96-122 | `Run` is a correct pass: with fewer than two arguments no event and `NoArgs`; otherwise the properties above over the arguments after the program name |
| `Clic.RunUnique` | clic.go:96-122 | a correct pass over the arguments is `Run`'s, so the events and outcome are determined by the registry and the arguments |
| `Clic.DoneConsumesAll` | clic.go:103-117 | on `Done` the consumed arguments (one per no-value event, two per value event) are exactly the arguments after the program name, `|args| - 1` in number |
| `Clic.EventAt` | clic.go:104-117 | the k-th event is the token at its argument position, registered with a matching kind; a value handler receives the very next argument unmodified; the next event starts right after what this one consumed |
| `Clic.PositionsIncrease` | clic.go:103-117 | events appear in left-to-right argument order: a later event stands after all arguments an earlier one consumed |
| `Clic.ValueNeverDispatched` | clic.go:112-113 | the argument consumed as a value is never the position of any dispatched flag, even if it is a registered token |
| `Clic.LaterArgumentsIgnored` | clic.go:118-121 | once the arguments so far stop at an unknown flag, appending any further arguments changes neither the events nor the outcome: no later handler fires |
| `Clic.Diagnostic` | clic.go:97-121 | the dispatcher's line, without its newline, is `No flag provided. Use -h for help` for no arguments, `Unknown flag: X. Use -h for help` for an unknown `X`, `Error: X requires a value` for a missing value, and empty exactly for `Done`; the offending token is the text between the fixed prefix and suffix |
| `Clic.DiagnosticDetermines` | clic.go:97-121 | the printed diagnostic line determines the outcome, including the offending token |
| `Scenario.DemoFlags` | main.go:8-22 | the demo registry is well formed, has the keys `-h`, `-v`, `-t`, `-n`, `-p`, with `-t` no-value and `-n`, `-p` value-taking |
| `Scenario.NewDemo` | main.go:8-22 | building the demo application yields exactly the demo registry and its metadata |

The client methods of `Scenario` (`FlagThenValue`, `ValueLooksLikeFlag`,
`ValueMissing`, `StopsAtUnknown`, `NoFlags`, `Version`, `Reregister`) assert
the demo's results. For example, `["prog", "-t", "-n", "Ada"]` gives
`[NoValue("-t"), WithValue("-n", "Ada")]` and `Done`. Re-registering `-t` with
a value makes `["prog", "-t", "x"]` dispatch `WithValue("-t", "x")`.

## Left out

- `showHelp` (clic.go:76-93): it prints the registry in Go's map iteration order, which is unspecified, with `fmt` padding. It only reads the registry. The `-h` event stands for its call.
- The bodies of the `-h` and `-v` closures (clic.go:37-39, 47-49) and all user handler effects, including panics. Handlers are foreign callables, and an event records only that the handler of a token fired.
- Console output. The dispatcher's own lines are modelled as `Diagnostic(outcome)`, not printed.
- Process access to `os.Args`: it is a parameter of `Parse`.
- `main` itself (main.go:5-26) prints a greeting and reads the real process arguments. Only its registrations are modelled, in `Scenario`.
