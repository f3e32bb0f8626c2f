/** The demo wiring of the repository: an application "mycli" with a no-value
    flag `-t` and value-taking flags `-n` and `-p`, parsed against several
    argument lists. */
module Scenario {
  import opened Clic

  /** The registry the demo builds: the built-ins plus `-t`, `-n` and `-p`. */
  function DemoFlags(): (r: Registry)
    ensures WellFormed(r)
    ensures r.Keys == {HelpToken, VersionToken, "-t", "-n", "-p"}
    ensures !r["-t"].takesValue && r["-n"].takesValue && r["-p"].takesValue
  {
    map[HelpToken := FlagDef(HelpToken, HelpDesc, false),
        VersionToken := FlagDef(VersionToken, VersionDesc, false),
        "-t" := FlagDef("-t", "Test flag to verify it works", false),
        "-n" := FlagDef("-n", "Set your name", true),
        "-p" := FlagDef("-p", "Set port number", true)]
  }

  method NewDemo() returns (cli: CLI)
    ensures fresh(cli) && cli.Valid() && cli.flags == DemoFlags()
    ensures cli.appName == "mycli" && cli.appDesc == "A simple CLI tool built with clic"
    ensures cli.appVersion == "1.0.0"
  {
    cli := new CLI("mycli", "A simple CLI tool built with clic", "1.0.0");
    cli.Flag("-t", "Test flag to verify it works");
    cli.FlagWithValue("-n", "Set your name");
    cli.FlagWithValue("-p", "Set port number");
  }

  method FlagThenValue()
  {
    var cli := NewDemo();
    var args := ["prog", "-t", "-n", "Ada"];
    assert args[1..][1..] == ["-n", "Ada"] && args[1..][1..][2..] == [];
    assert Scan(cli.flags, ["-n", "Ada"]) == Trace([WithValue("-n", "Ada")], Done);
    var evs, out := cli.Parse(args);
    assert evs == [NoValue("-t"), WithValue("-n", "Ada")] && out == Done;
  }

  /** A registered token in value position is a value, not a flag. */
  method ValueLooksLikeFlag()
  {
    var cli := NewDemo();
    var args := ["prog", "-n", "-t"];
    assert args[1..][2..] == [];
    var evs, out := cli.Parse(args);
    assert evs == [WithValue("-n", "-t")] && out == Done;
  }

  method ValueMissing()
  {
    var cli := NewDemo();
    var evs, out := cli.Parse(["prog", "-n"]);
    assert evs == [] && out == MissingValue("-n");
    assert Diagnostic(out) == "Error: -n requires a value";
  }

  /** Nothing after the unknown flag fires, valid or not. */
  method StopsAtUnknown()
  {
    var cli := NewDemo();
    var args := ["prog", "-t", "-z", "-t"];
    assert args[1..][1..] == ["-z", "-t"];
    assert Scan(cli.flags, ["-z", "-t"]) == Trace([], UnknownFlag("-z"));
    assert "-z" !in cli.flags;
    var evs, out := cli.Parse(args);
    assert evs == [NoValue("-t")] && out == UnknownFlag("-z");
    assert Diagnostic(out) == "Unknown flag: -z. Use -h for help";
  }

  method NoFlags()
  {
    var cli := NewDemo();
    var evs, out := cli.Parse(["prog"]);
    assert evs == [] && out == NoArgs;
    assert Diagnostic(out) == "No flag provided. Use -h for help";
  }

  method Version()
  {
    var cli := NewDemo();
    var args := ["prog", "-v"];
    assert args[1..][1..] == [];
    var evs, out := cli.Parse(args);
    assert evs == [NoValue("-v")] && out == Done;
  }

  /** Re-registering a token replaces its definition: `-t` now takes a value. */
  method Reregister()
  {
    var cli := NewDemo();
    cli.FlagWithValue("-t", "Now takes a value");
    var args := ["prog", "-t", "x"];
    assert args[1..][2..] == [];
    var evs, out := cli.Parse(args);
    assert evs == [WithValue("-t", "x")] && out == Done;
  }
}
