/** A minimal command-line flag library: a registry from flag token to flag
    definition, seeded with `-h` and `-v`, and a left-to-right scanner that
    dispatches each recognised flag (with the following argument as its value
    when the flag takes one) and stops at the first unknown flag or at a
    value-taking flag that has no value after it. */
module Clic {

  /** A registered flag. In clic a flag also holds a handler closure
      (`handler` or `valueHandler`); closures are opaque here: the handler that fires is identified by the
      token under which it is registered, as recorded in an `Event`. */
  datatype FlagDef = FlagDef(name: string, desc: string, takesValue: bool)

  type Registry = map<string, FlagDef>

  /** One handler invocation made by the scanner. */
  datatype Event =
    | NoValue(token: string)                  // no-value handler of `token` called
    | WithValue(token: string, value: string) // value handler of `token` called with `value`

  /** How a parse pass ends. */
  datatype Outcome =
    | NoArgs                       // nothing after the program name
    | Done                         // every argument consumed
    | UnknownFlag(token: string)   // `token` is not registered; the scan stopped there
    | MissingValue(token: string)  // value-taking `token` is the last argument

  /** Everything a parse pass does: the handlers it calls, in order, and how it ends. */
  datatype Trace = Trace(events: seq<Event>, outcome: Outcome)

  const HelpToken: string := "-h"
  const VersionToken: string := "-v"
  const HelpDesc: string := "Show all available flags"
  const VersionDesc: string := "Show version"

  // ---------------------------------------------------------------------------
  // Registry

  /** Insert or overwrite the entry for `name`: the last registration wins. */
  function Register(flags: Registry, name: string, desc: string, takesValue: bool): (r: Registry)
    ensures r.Keys == flags.Keys + {name}
    ensures r[name] == FlagDef(name, desc, takesValue)
    ensures forall k :: k in flags && k != name ==> k in r && r[k] == flags[k]
  {
    flags[name := FlagDef(name, desc, takesValue)]
  }

  /** The two built-in flags are present and every entry is filed under its own name. */
  predicate WellFormed(flags: Registry)
  {
    HelpToken in flags && VersionToken in flags &&
    forall k :: k in flags ==> flags[k].name == k
  }

  /** Registering the same token twice keeps only the second definition. */
  lemma RegisterLastWins(flags: Registry, name: string, d1: string, v1: bool, d2: string, v2: bool)
    ensures Register(Register(flags, name, d1, v1), name, d2, v2) == Register(flags, name, d2, v2)
  {
  }

  class CLI {
    var flags: Registry
    const appName: string
    const appDesc: string
    const appVersion: string

    ghost predicate Valid()
      reads this
    {
      WellFormed(flags)
    }

    /** `New`: store the metadata and seed the registry with `-h` and `-v`. */
    constructor (appName: string, appDesc: string, appVersion: string)
      ensures Valid()
      ensures this.appName == appName && this.appDesc == appDesc && this.appVersion == appVersion
      ensures flags.Keys == {HelpToken, VersionToken}
      ensures flags[HelpToken] == FlagDef(HelpToken, HelpDesc, false)
      ensures flags[VersionToken] == FlagDef(VersionToken, VersionDesc, false)
    {
      this.appName := appName;
      this.appDesc := appDesc;
      this.appVersion := appVersion;
      var m: Registry := map[];
      m := Register(m, HelpToken, HelpDesc, false);
      m := Register(m, VersionToken, VersionDesc, false);
      flags := m;
    }

    /** Register (or replace) a flag that takes no value. */
    method Flag(name: string, desc: string)
      requires Valid()
      modifies this
      ensures Valid()
      ensures flags == Register(old(flags), name, desc, false)
      ensures !flags[name].takesValue
    {
      flags := Register(flags, name, desc, false);
    }

    /** Register (or replace) a flag whose handler receives the next argument. */
    method FlagWithValue(name: string, desc: string)
      requires Valid()
      modifies this
      ensures Valid()
      ensures flags == Register(old(flags), name, desc, true)
      ensures flags[name].takesValue
    {
      flags := Register(flags, name, desc, true);
    }

    /** Scan `args` (whose element 0 is the program name) from index 1 and
        dispatch every recognised flag. The registry is only read. */
    method Parse(args: seq<string>) returns (events: seq<Event>, outcome: Outcome)
      ensures Trace(events, outcome) == Run(flags, args)
      ensures Explains(flags, args, Trace(events, outcome))
    {
      events := [];
      if |args| < 2 {
        outcome := NoArgs;
        RunExplains(flags, args);
        return;
      }
      var i := 1;
      while i < |args|
        invariant 1 <= i <= |args|
        invariant Run(flags, args) == Then(events, Scan(flags, args[i..]))
        decreases |args| - i
      {
        var arg := args[i];
        ScanAt(flags, args, i);
        if arg in flags {
          var flag := flags[arg];
          if flag.takesValue {
            if i + 1 >= |args| {
              outcome := MissingValue(arg);
              RunExplains(flags, args);
              return;
            }
            events := events + [WithValue(arg, args[i + 1])];
            i := i + 2;
          } else {
            events := events + [NoValue(arg)];
            i := i + 1;
          }
        } else {
          outcome := UnknownFlag(arg);
          RunExplains(flags, args);
          return;
        }
      }
      outcome := Done;
      RunExplains(flags, args);
    }
  }

  // ---------------------------------------------------------------------------
  // The scan, as a function of the registry and the arguments

  function Prepend(e: Event, t: Trace): (r: Trace)
  {
    Trace([e] + t.events, t.outcome)
  }

  function Then(done: seq<Event>, t: Trace): (r: Trace)
  {
    Trace(done + t.events, t.outcome)
  }

  /** The scan of the arguments that remain, `rest`. */
  function Scan(flags: Registry, rest: seq<string>): (r: Trace)
    ensures r.outcome != NoArgs
    ensures |r.events| <= |rest|
    decreases |rest|
  {
    if rest == [] then Trace([], Done)
    else if rest[0] !in flags then Trace([], UnknownFlag(rest[0]))
    else if flags[rest[0]].takesValue then
      if |rest| == 1 then Trace([], MissingValue(rest[0]))
      else Prepend(WithValue(rest[0], rest[1]), Scan(flags, rest[2..]))
    else Prepend(NoValue(rest[0]), Scan(flags, rest[1..]))
  }

  /** One step of the scan at argument index `i`. */
  lemma ScanAt(flags: Registry, args: seq<string>, i: nat)
    requires i < |args|
    ensures Scan(flags, args[i..]) ==
      if args[i] !in flags then Trace([], UnknownFlag(args[i]))
      else if flags[args[i]].takesValue then
        if i + 1 == |args| then Trace([], MissingValue(args[i]))
        else Prepend(WithValue(args[i], args[i + 1]), Scan(flags, args[i + 2..]))
      else Prepend(NoValue(args[i]), Scan(flags, args[i + 1..]))
  {
  }

  /** A whole parse pass over the process arguments (element 0 is the program name). */
  function Run(flags: Registry, args: seq<string>): (r: Trace)
    ensures r.outcome == NoArgs <==> |args| < 2
  {
    if |args| < 2 then Trace([], NoArgs) else Scan(flags, args[1..])
  }

  // ---------------------------------------------------------------------------
  // An independent description of a correct pass

  /** The arguments an event consumes. */
  function Tokens(e: Event): (r: seq<string>)
  {
    match e
    case NoValue(t) => [t]
    case WithValue(t, v) => [t, v]
  }

  /** The arguments a sequence of events consumes, in order. */
  function Flatten(evs: seq<Event>): (r: seq<string>)
  {
    if evs == [] then [] else Tokens(evs[0]) + Flatten(evs[1..])
  }

  /** `e` invokes a registered handler of the right kind. */
  predicate Dispatchable(flags: Registry, e: Event)
  {
    e.token in flags && flags[e.token].takesValue == e.WithValue?
  }

  predicate AllDispatchable(flags: Registry, evs: seq<Event>)
  {
    forall k :: 0 <= k < |evs| ==> Dispatchable(flags, evs[k])
  }

  /** `t` accounts for `rest`: its events consume a prefix of `rest` exactly,
      each through a registered handler of the right kind, and its outcome
      describes what follows that prefix. */
  predicate Accounts(flags: Registry, rest: seq<string>, t: Trace)
  {
    var used := Flatten(t.events);
    AllDispatchable(flags, t.events) &&
    |used| <= |rest| && rest[..|used|] == used &&
    match t.outcome
    case NoArgs => false
    case Done => |used| == |rest|
    case UnknownFlag(tok) => |used| < |rest| && rest[|used|] == tok && tok !in flags
    case MissingValue(tok) =>
      |used| + 1 == |rest| && rest[|used|] == tok && tok in flags && flags[tok].takesValue
  }

  /** `t` is a correct account of a pass over `args`. */
  predicate Explains(flags: Registry, args: seq<string>, t: Trace)
  {
    if |args| < 2 then t == Trace([], NoArgs) else Accounts(flags, args[1..], t)
  }

  lemma {:induction false} FlattenAppend(a: seq<Event>, b: seq<Event>)
    ensures Flatten(a + b) == Flatten(a) + Flatten(b)
    decreases |a|
  {
    if a == [] {
      assert a + b == b;
    } else {
      assert (a + b)[0] == a[0];
      assert (a + b)[1..] == a[1..] + b;
      FlattenAppend(a[1..], b);
    }
  }

  /** Accounting for `rest` with a leading event is accounting for the
      event's own arguments and then for the remainder. */
  lemma PrependAccounts(flags: Registry, rest: seq<string>, e: Event, t: Trace)
    ensures Accounts(flags, rest, Prepend(e, t)) <==>
      (Dispatchable(flags, e) && |Tokens(e)| <= |rest| && rest[..|Tokens(e)|] == Tokens(e) &&
       Accounts(flags, rest[|Tokens(e)|..], t))
  {
    var evs := [e] + t.events;
    assert evs[0] == e && evs[1..] == t.events;
    var w := |Tokens(e)|;
    var u := Flatten(t.events);
    assert Flatten(evs) == Tokens(e) + u;
    assert AllDispatchable(flags, evs) <==> Dispatchable(flags, e) && AllDispatchable(flags, t.events) by {
      if AllDispatchable(flags, evs) {
        forall k | 0 <= k < |t.events| ensures Dispatchable(flags, t.events[k]) {
          assert evs[k + 1] == t.events[k];
        }
      }
    }
    if w <= |rest| && rest[..w] == Tokens(e) {
      var r := rest[w..];
      assert |rest| == w + |r|;
      if |u| <= |r| {
        assert rest[..w + |u|] == Tokens(e) + r[..|u|];
        assert rest[..w + |u|] == Tokens(e) + u ==> r[..|u|] == (Tokens(e) + u)[w..] == u;
        if |u| < |r| {
          assert rest[w + |u|] == r[|u|];
        }
      } else {
        assert |Flatten(evs)| > |rest|;
      }
    }
  }

  /** The scan is a correct account of what it scans. */
  lemma {:induction false} ScanAccounts(flags: Registry, rest: seq<string>)
    ensures Accounts(flags, rest, Scan(flags, rest))
    decreases |rest|
  {
    if rest != [] && rest[0] in flags {
      if flags[rest[0]].takesValue {
        if |rest| > 1 {
          var e := WithValue(rest[0], rest[1]);
          assert rest[..2] == Tokens(e);
          ScanAccounts(flags, rest[2..]);
          PrependAccounts(flags, rest, e, Scan(flags, rest[2..]));
        }
      } else {
        var e := NoValue(rest[0]);
        assert rest[..1] == Tokens(e);
        ScanAccounts(flags, rest[1..]);
        PrependAccounts(flags, rest, e, Scan(flags, rest[1..]));
      }
    }
  }

  /** The scan is the only correct account of what it scans. */
  lemma {:induction false} AccountsUnique(flags: Registry, rest: seq<string>, t: Trace)
    requires Accounts(flags, rest, t)
    ensures t == Scan(flags, rest)
    decreases |rest|
  {
    if t.events != [] {
      var e := t.events[0];
      var tail := Trace(t.events[1..], t.outcome);
      assert t == Prepend(e, tail);
      PrependAccounts(flags, rest, e, tail);
      var w := |Tokens(e)|;
      assert rest[0] == rest[..w][0] == e.token;
      AccountsUnique(flags, rest[w..], tail);
      if e.WithValue? {
        assert rest[1] == rest[..w][1] == e.value;
      }
    }
  }

  /** Every pass is correctly accounted for by `Run`. */
  lemma RunExplains(flags: Registry, args: seq<string>)
    ensures Explains(flags, args, Run(flags, args))
  {
    if |args| >= 2 {
      ScanAccounts(flags, args[1..]);
    }
  }

  /** ...and `Run` is the only trace that accounts for it. */
  lemma RunUnique(flags: Registry, args: seq<string>, t: Trace)
    requires Explains(flags, args, t)
    ensures t == Run(flags, args)
  {
    if |args| >= 2 {
      AccountsUnique(flags, args[1..], t);
    }
  }

  // ---------------------------------------------------------------------------
  // Consequences

  /** Argument index at which the `k`-th event's flag token stands. */
  function Position(evs: seq<Event>, k: nat): (p: nat)
    requires k <= |evs|
  {
    1 + |Flatten(evs[..k])|
  }

  /** On normal completion the events consume all arguments after the program
      name: one per no-value flag, two per value-taking flag. */
  lemma DoneConsumesAll(flags: Registry, args: seq<string>)
    requires Run(flags, args).outcome == Done
    ensures Flatten(Run(flags, args).events) == args[1..]
    ensures |Flatten(Run(flags, args).events)| == |args| - 1
  {
    RunExplains(flags, args);
  }

  /** The `k`-th event is the flag standing at its position, dispatched through
      a handler of the registered kind; a value handler receives the argument
      right after its flag; the next event starts right after the arguments
      this one consumed. */
  lemma EventAt(flags: Registry, args: seq<string>, k: nat)
    requires k < |Run(flags, args).events|
    ensures var evs := Run(flags, args).events;
      var p := Position(evs, k);
      p + |Tokens(evs[k])| <= |args| &&
      args[p] == evs[k].token &&
      Dispatchable(flags, evs[k]) &&
      (evs[k].WithValue? ==> args[p + 1] == evs[k].value) &&
      Position(evs, k + 1) == p + |Tokens(evs[k])|
  {
    RunExplains(flags, args);
    var evs := Run(flags, args).events;
    var e := evs[k];
    assert evs == evs[..k] + [e] + evs[k + 1..];
    assert evs[..k + 1] == evs[..k] + [e];
    assert [e][1..] == [];
    assert Flatten([e]) == Tokens(e);
    FlattenAppend(evs[..k], [e]);
    FlattenAppend(evs[..k + 1], evs[k + 1..]);
    var before := Flatten(evs[..k]);
    var all := Flatten(evs);
    assert all == before + Tokens(e) + Flatten(evs[k + 1..]);
    var rest := args[1..];
    assert rest[..|all|] == all;
    assert args[1 + |before|] == rest[|before|] == all[|before|] == Tokens(e)[0];
    if e.WithValue? {
      assert args[2 + |before|] == rest[|before| + 1] == all[|before| + 1] == Tokens(e)[1];
    }
  }

  /** Positions never go back: a later event stands after everything an
      earlier one consumed. */
  lemma {:induction false} PositionsIncrease(flags: Registry, args: seq<string>, j: nat, k: nat)
    requires k < j < |Run(flags, args).events|
    ensures var evs := Run(flags, args).events;
      Position(evs, k) + |Tokens(evs[k])| <= Position(evs, j)
    decreases j - k
  {
    var evs := Run(flags, args).events;
    EventAt(flags, args, k);
    if k + 1 < j {
      EventAt(flags, args, k + 1);
      PositionsIncrease(flags, args, j, k + 1);
    }
  }

  /** The argument consumed as a value is never looked up as a flag, even if
      it is a registered token. */
  lemma ValueNeverDispatched(flags: Registry, args: seq<string>, j: nat, k: nat)
    requires j < |Run(flags, args).events| && k < |Run(flags, args).events|
    requires Run(flags, args).events[k].WithValue?
    ensures var evs := Run(flags, args).events;
      Position(evs, j) != Position(evs, k) + 1
  {
    var evs := Run(flags, args).events;
    if k < j {
      PositionsIncrease(flags, args, j, k);
    } else if j < k {
      PositionsIncrease(flags, args, k, j);
      EventAt(flags, args, j);
    }
  }

  /** Once the arguments so far stop at an unknown flag, nothing that follows
      is looked at: no later handler fires and the outcome is the same. */
  lemma LaterArgumentsIgnored(flags: Registry, args: seq<string>, more: seq<string>)
    requires Run(flags, args).outcome.UnknownFlag?
    ensures Run(flags, args + more) == Run(flags, args)
  {
    var t := Run(flags, args);
    RunExplains(flags, args);
    var rest := args[1..];
    var rest' := (args + more)[1..];
    var u := Flatten(t.events);
    assert rest' == rest + more;
    assert rest'[..|u|] == rest[..|u|];
    assert rest'[|u|] == rest[|u|];
    assert Explains(flags, args + more, t);
    RunUnique(flags, args + more, t);
  }

  // ---------------------------------------------------------------------------
  // Diagnostics

  const NoArgsLine: string := "No flag provided. Use -h for help"
  const UnknownPrefix: string := "Unknown flag: "
  const UnknownSuffix: string := ". Use -h for help"
  const MissingPrefix: string := "Error: "
  const MissingSuffix: string := " requires a value"

  /** The dispatcher's own console line for an outcome (without the newline);
      a completed pass prints nothing of its own (the handlers print). The
      offending token can be read back from the line between its fixed
      prefix and suffix. */
  function Diagnostic(o: Outcome): (r: string)
    ensures r == "" <==> o == Done
    ensures o == NoArgs ==> r == NoArgsLine
    ensures o.UnknownFlag? ==>
      |r| == |UnknownPrefix| + |o.token| + |UnknownSuffix| &&
      r[..|UnknownPrefix|] == UnknownPrefix && r[|r| - |UnknownSuffix|..] == UnknownSuffix &&
      r[|UnknownPrefix|..|r| - |UnknownSuffix|] == o.token
    ensures o.MissingValue? ==>
      |r| == |MissingPrefix| + |o.token| + |MissingSuffix| &&
      r[..|MissingPrefix|] == MissingPrefix && r[|r| - |MissingSuffix|..] == MissingSuffix &&
      r[|MissingPrefix|..|r| - |MissingSuffix|] == o.token
  {
    match o
    case NoArgs => NoArgsLine
    case Done => ""
    case UnknownFlag(t) => UnknownPrefix + t + UnknownSuffix
    case MissingValue(t) => MissingPrefix + t + MissingSuffix
  }

  /** The printed line determines the outcome, including the offending token. */
  lemma DiagnosticDetermines(a: Outcome, b: Outcome)
    requires Diagnostic(a) == Diagnostic(b)
    ensures a == b
  {
    var s := Diagnostic(a);
    match a
    case NoArgs =>
      assert s[0] == 'N';
    case Done =>
    case UnknownFlag(x) =>
      assert s[0] == 'U';
      if b.UnknownFlag? {
        assert x == s[14..|s| - 17] == b.token;
      }
    case MissingValue(x) =>
      assert s[0] == 'E';
      if b.MissingValue? {
        assert x == s[7..|s| - 17] == b.token;
      }
  }
}
