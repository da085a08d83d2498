/** End-to-end uses of the startup manager: constructing, registering, being
    launched by the rule, and unregistering. */
module Scenarios {
  import opened Results
  import opened Text
  import opened Kinds
  import opened Config
  import opened Detection
  import opened Registration
  import opened RunEntry

  /** A session launched by the rule (the image, then the special argument, then the
      extra arguments) is recognised, and the application sees only the extra
      arguments. */
  lemma LaunchByRuleIsRecognised(m: Manager, args: seq<string>)
    requires Valid(m) && |args| >= 2 && args[1] == m.startupArgument
    ensures IsStartedUpIgnoringCase(m, args)
    ensures ApplicationArguments(m, args) == args[2..]
  {
  }

  /** With a lower-case special argument the source as written agrees. */
  lemma {:induction false} LaunchByRuleIsRecognisedAsWritten(m: Manager, args: seq<string>)
    requires Valid(m) && !HasAsciiUpper(m.startupArgument) && |args| >= 2 && args[1] == m.startupArgument
    ensures IsStartedUp(m, args)
    ensures CommandLineArguments(m, args) == Some(args[2..])
  {
    LaunchByRuleIsRecognised(m, args);
    ToLowerPreservesWhitespace(m.startupArgument);
    assert Matches(m, args[1]);
  }

  /** The rule "Demo" for the current user with the default special argument. */
  function Demo(image: string, fs: FileSystem, provider: Provider): Manager {
    Manager(image, fs.directoryName(image), "Demo", false, Local, provider, DefaultStartupArgument)
  }

  /** The constructor builds the "Demo" rule from an existing image. */
  lemma DemoIsConstructed(image: string, fs: FileSystem, provider: Provider)
    requires image != [] && fs.fileExists(image)
    ensures New(Some(image), "Demo", Local, false, provider, DefaultStartupArgument, fs) == Ok(Demo(image, fs, provider))
  {
    var n := "Demo";
    assert forall i :: 0 <= i < |n| ==> !IsWhiteSpace(n[i]);
    NoWhitespace(n);
    DefaultStartupArgumentIsValid();
    CleanInputsAreKept(image, n, Local, false, provider, DefaultStartupArgument, fs);
  }

  /** Registering "Demo" with "--nice" is seen by the next query. */
  lemma DemoRegisterScenario(image: string, fs: FileSystem, provider: Provider, env: Session, s: Stores)
    requires env.isCurrentUser(env.userName)
    ensures var m := Demo(image, fs, provider);
            var o := Register(m, env, s, Some("--nice"));
            && o.Returned? && o.value
            && IsRegistered(m, env, o.stores).value
  {
    RegisterIsSeen(Demo(image, fs, provider), env, s, Some("--nice"));
  }

  /** The launch the "Demo" rule causes, `[image, "--startup", "--nice"]`, is
      recognised and the application sees `["--nice"]`. */
  lemma DemoLaunchScenario(image: string, fs: FileSystem, provider: Provider)
    requires image != [] && fs.fileExists(image)
    ensures var m := Demo(image, fs, provider);
            && IsStartedUp(m, [image, "--startup", "--nice"])
            && CommandLineArguments(m, [image, "--startup", "--nice"]) == Some(["--nice"])
  {
    var m := Demo(image, fs, provider);
    DemoIsConstructed(image, fs, provider);
    DefaultStartupArgumentIsLowerCase();
    var args := [image, "--startup", "--nice"];
    LaunchByRuleIsRecognisedAsWritten(m, args);
    assert args[2..] == ["--nice"];
  }

  /** The same rule, unregistered: the query then answers false, and unregistering
      again still succeeds, as long as no machine-wide value stays readable. */
  lemma DemoUnregisterScenario(m: Manager, env: Session, s: Stores)
    requires m.scope == Local
    requires env.elevated || !env.hklmReadable || m.name !in s.hklm
    ensures var a := Unregister(m, env, s);
            && a.value
            && !IsRegistered(m, env, a.stores).value
            && Unregister(m, env, a.stores).value
  {
    UnregisterIsVerified(m, env, s);
    UnregisterAgainSucceeds(m, env, s);
  }

  /** Without elevation a readable machine-wide value cannot be removed, so
      unregistering reports failure and the rule still counts as registered. */
  lemma MachineValueOutlivesUnelevatedUnregister(m: Manager, env: Session, s: Stores)
    requires !env.elevated && env.hklmReadable && m.name in s.hklm
    ensures var a := Unregister(m, env, s);
            && !a.value
            && IsRegistered(m, env, a.stores).value
            && m.name in a.stores.hklm
  {
    UnregisterIsVerified(m, env, s);
  }

  /** The `Run` value a Registry registration writes reads back as the image, the
      special argument and the extra arguments. */
  lemma RegisteredRunValueReadsBack(m: Manager, env: Session, s: Stores, arguments: Option<string>)
    requires Valid(m) && m.provider == Registry && m.scope == Local && '"' !in m.image
    ensures var o := Register(m, env, s, arguments);
            && o.Returned?
            && m.name in o.stores.hkcu
            && ParseRunValue(o.stores.hkcu[m.name]) == Some(Command(m.image, m.startupArgument, OrEmpty(arguments)))
  {
    assert ' ' !in m.startupArgument;
    RunValueRoundTrip(m.image, m.startupArgument, arguments);
  }
}
