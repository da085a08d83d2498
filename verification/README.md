# StartupHelper's `StartupManager`, modelled in Dafny

`StartupManager` makes a Windows application start when the user logs on. It
does this either through a Task Scheduler task or through a value under the
registry's `Run` key. This project models the decision core of the class as
immutable datatypes and pure functions:

- **Kinds** — the two enumerations, `RegistrationScope` (`Local`, `Global`) and
  `StartupProviders` (`Task`, `Registry`), and the provider chosen from the
  operating system version.
- **Config** — the validating constructor and the constructors that delegate to
  it. It checks the image, the name and the special startup argument, and
  stores trimmed copies. `File.Exists` and `Path.GetDirectoryName` are
  uninterpreted functions in a `FileSystem` value. An `ArgumentException` is an
  `Err` naming the offending parameter.
- **Text** — the string primitives the constructor and the detection use:
  .NET's whitespace set, `Trim`, an ASCII `ToLower`, and the class's own
  `IsAnyWhitespaceIn`.
- **Detection** — `IsStartedUp`, `CommandLineArguments` and `SkipFirstElements`.
  The command line is an explicit `seq<string>` instead of
  `Environment.GetCommandLineArgs()`. A corrected pair
  (`IsStartedUpIgnoringCase`, `ApplicationArguments`) goes with the findings
  below.
- **Registration** — `IsRegistered`, `Unregister` and `Register` as a state
  machine over three maps:
  - the scheduler's root folder, from task name to the task principal's user id;
  - the per-user `Run` key (HKCU);
  - the machine `Run` key (HKLM).

  The session supplies the rest: whether the process is elevated, whether a
  read-only open of the machine key succeeds, the current identity's name, and
  `IsCurrentUser` as an uninterpreted predicate. Each operation returns its
  answer together with the stores it leaves behind.
- **RunEntry** — a reader for the `Run` value that `Register` writes, used to
  prove that the value reads back as what was written.
- **Scenarios** — the library's end-to-end use: construct, register, be
  launched by the rule, unregister.

Opening the machine key for writing succeeds exactly when the process is
elevated. Opening it read-only succeeds when the session's `hklmReadable` flag
says so. `IsRegistered` opens the key writable exactly when elevated, so a
failed open there reads as "no value", which is the source's caught
`SecurityException`. `Register` under the Registry provider with the Global
scope and no elevation raises that exception after `Unregister` has already
run. Its outcome is `Denied` carrying the stores as they were left.

Four behaviours of the code are easy to miss:

- A task found under the rule's name decides `IsRegistered` on its own, even
  when it belongs to another user. The registry is then not consulted.
- Only `IsRegistered` catches `SecurityException`. A failed write to the
  machine key in `Register` propagates to the caller.
- `Unregister` does not always succeed. Two cases report `false` and keep the
  rule visible (`Registration.Unregister`,
  `Scenarios.MachineValueOutlivesUnelevatedUnregister`):
  - a machine value that an unelevated session can read but not delete;
  - a per-user value under the Registry provider with the Global scope.
- The filtered argument list drops at most the first two arguments. A later
  copy of the special argument stays in it.

## Model

| member | source | states |
|---|---|---|
| Kinds.SelectProvider | StartupHelper/StartupManager.cs:145-148 | Windows before version 6 always gets the registry; from version 6 on, the Task Scheduler is chosen when administrator rights are needed or the minor version is at least 2, and the registry otherwise |
| Kinds.AdminNeverSelectsRegistryAlone | StartupHelper/StartupManager.cs:145-148 | needing administrator rights can move the choice from the registry to the Task Scheduler, never the other way |
| Kinds.SelectionIsNotMonotoneInVersion | StartupHelper/StartupManager.cs:145-146 | the minor number is compared on its own: version 6.2 gets the Task Scheduler while 10.0 without administrator rights gets the registry |
| Text.IsAnyWhitespaceIn | StartupHelper/StartupManager.cs:526-534 | the scan answers true exactly when some position of the string holds a whitespace character |
| Text.Trim | StartupHelper/StartupManager.cs:191 | the trimmed string starts and ends with non-whitespace, is empty exactly when the input is all whitespace, and leaves an already trimmed string unchanged |
| Text.TrimKeepsInnerWhitespace | StartupHelper/StartupManager.cs:195 | the trimmed special argument contains whitespace exactly when the raw argument has whitespace between two non-whitespace characters |
| Text.ToLower | StartupHelper/StartupManager.cs:289 | lower-casing keeps the length, maps each character on its own, leaves no upper-case ASCII letter, and is the identity on strings without one |
| Text.ToLowerPreservesWhitespace | StartupHelper/StartupManager.cs:289 | lower-casing neither adds nor removes whitespace, so it keeps a string blank, trimmed or whitespace-free |
| Config.New | StartupHelper/StartupManager.cs:187-206 | the image is checked first, then the name, then the special argument, each failure naming its parameter; on success the manager is valid and stores the image, its directory, the trimmed name and argument, and the scope, provider and admin flag unchanged |
| Config.ConstructionSucceedsIff | StartupHelper/StartupManager.cs:187-199 | construction succeeds exactly when the image exists, the name is not blank, and the special argument is neither blank nor split by inner whitespace |
| Config.CleanInputsAreKept | StartupHelper/StartupManager.cs:200-206 | a name and argument that need no trimming are stored exactly as given |
| Config.NewForOs | StartupHelper/StartupManager.cs:141-150 | the built manager uses the version-selected provider and stores the image, its directory, the trimmed name and argument, the scope and the admin flag; whether and why construction fails does not depend on the provider |
| Config.DefaultStartupArgumentIsValid | StartupHelper/StartupManager.cs:78 | the default special argument `--startup` passes the constructor's argument check and is its own trimmed form |
| Config.DefaultStartupArgumentIsLowerCase | StartupHelper/StartupManager.cs:78 | the default special argument has no upper-case letter, so the source's case-sensitive comparison can detect it |
| Config.NewWithProvider | StartupHelper/StartupManager.cs:106-111 | with the default special argument, construction can fail only on the image or the name, and succeeds exactly when both are acceptable; it reports the missing image exactly when the image is unusable; on success it stores the default argument, the given provider, the image, its directory, the trimmed name, the scope and the admin flag |
| Config.NewDefault | StartupHelper/StartupManager.cs:76-80 | the same for the constructor that also selects the provider from the version: it fails only on the image or the name, reports the missing image exactly when the image is unusable, and on success stores the default argument, the version-selected provider, the image, its directory, the trimmed name, the scope and the admin flag |
| Detection.IsStartedUp | StartupHelper/StartupManager.cs:286-291 | an empty command line is never a startup launch, and a recognised launch implies the stored special argument has no upper-case letter |
| Detection.StartedUpIffMatchInFirstTwo | StartupHelper/StartupManager.cs:286-291 | a launch is recognised exactly when one of the first two arguments, lower-cased and trimmed, equals the stored special argument |
| Detection.OnlyFirstTwoArgumentsMatter | StartupHelper/StartupManager.cs:286-291 | arguments after the second do not affect detection |
| Detection.MatchedArgumentIsLowerCase | StartupHelper/StartupManager.cs:289 | a special argument that some lower-cased, trimmed argument equals holds no upper-case letter |
| Detection.UpperCaseStartupArgumentNeverDetected | StartupHelper/StartupManager.cs:286-291 | a stored special argument with an upper-case letter is never detected, whatever the command line |
| Detection.UpperCaseStartupArgumentIsAccepted | StartupHelper/StartupManager.cs:195-205 | the constructor accepts `--Startup`, stores it unchanged, and the launch the rule causes is then not detected |
| Detection.SkipFirstElements | StartupHelper/StartupManager.cs:518-523 | the copy is `count` elements shorter and holds the remaining elements in order |
| Detection.CommandLineArguments | StartupHelper/StartupManager.cs:297-303 | an empty command line gives no arguments; the source throws exactly when there is one argument and it matches; otherwise the first two are dropped when the second matches and only the first when it does not |
| Detection.SingleStartupArgumentThrows | StartupHelper/StartupManager.cs:300 | a command line made of the lower-case special argument alone makes the source read a second argument that does not exist |
| Detection.SameTokenIgnoringCase | StartupHelper/StartupManager.cs:289 | compared ignoring case, a valid manager recognises its own special argument written in any letter case |
| Detection.CompareIgnoringCase | StartupHelper/StartupManager.cs:289-291 | on the first two arguments, a case-sensitive match implies a case-insensitive one, and the two agree when the special argument is lower-case |
| Detection.IsStartedUpIgnoringCase | StartupHelper/StartupManager.cs:286-291 | the corrected detection is exactly the source's detection with the stored special argument lower-cased as well; so it recognises the special argument in either of the first two positions in any case, recognises everything the source does, and agrees with it for a lower-case argument |
| Detection.ApplicationArguments | StartupHelper/StartupManager.cs:297-303 | the corrected filter never fails and returns a suffix dropping one or two leading arguments; it drops two exactly when the second argument matches the special argument ignoring case; for a special argument without upper-case letters it agrees with the source wherever the source returns |
| Registration.IsRegistered | StartupHelper/StartupManager.cs:308-366 | a found task decides alone from its user id; without a task the Task provider deletes the per-user value and, when elevated, the machine value, counting only a machine value it cannot delete; the Registry provider counts either value it can see and deletes nothing |
| Registration.IsRegisteredIsStable | StartupHelper/StartupManager.cs:308-366 | asking again on the stores a query left gives the same answer and changes nothing |
| Registration.Unregister | StartupHelper/StartupManager.cs:375-406 | removes the name from the tasks only for the Task provider, from the per-user key for the Local scope or the Task provider, and from the machine key only when elevated, touching no other entry; reports success exactly when no visible entry survives; with nothing stored it changes nothing and succeeds |
| Registration.UnregisterIsVerified | StartupHelper/StartupManager.cs:405 | the answer of `Unregister` is the negation of `IsRegistered` on the stores it leaves |
| Registration.UnregisterIsIdempotent | StartupHelper/StartupManager.cs:375-406 | unregistering twice gives the same answer and stores as unregistering once |
| Registration.UnregisterAgainSucceeds | StartupHelper/StartupManager.cs:375-406 | after a successful unregistration a second one succeeds too and changes nothing |
| Registration.Register | StartupHelper/StartupManager.cs:418-483 | after unregistering, adds exactly one entry under the name: a task owned by the current user (Local) or by no user (Global), or the quoted run value in the scope's key; writing the machine key unelevated fails exactly for Registry with the Global scope |
| Registration.RegisterIsVerified | StartupHelper/StartupManager.cs:482 | the answer of `Register` is `IsRegistered` on the stores it leaves |
| Registration.UnregisterUndoesRegister | StartupHelper/StartupManager.cs:418-483 | unregistering after a registration removes exactly the entry it added |
| Registration.RegisterIsIdempotent | StartupHelper/StartupManager.cs:418-483 | registering twice leaves the same stores and answer as registering once |
| Registration.RegisterIsSeen | StartupHelper/StartupManager.cs:418-483 | a registration answers true and is seen by the next query, unless the task it creates names a user the session does not recognise |
| Registration.StaleRunValueRemovedOnSwitchToTask | StartupHelper/StartupManager.cs:331-336 | a per-user run value left by the Registry provider is removed when the same rule is registered as a task |
| RunEntry.RunValueRoundTrip | StartupHelper/StartupManager.cs:478-479 | the run value reads back as the image, the special argument and the extra arguments, given an image without quotes and an argument without spaces |
| Scenarios.LaunchByRuleIsRecognised | StartupHelper/StartupManager.cs:297-303 | a launch with the special argument second is recognised and the application sees only the arguments after it |
| Scenarios.LaunchByRuleIsRecognisedAsWritten | StartupHelper/StartupManager.cs:286-303 | with a lower-case special argument the source's detection and filtering agree with that |
| Scenarios.DemoIsConstructed | StartupHelper/StartupManager.cs:106-111 | the rule "Demo" with the default argument is built from an existing image, for either provider |
| Scenarios.DemoRegisterScenario | StartupHelper/StartupManager.cs:418-483 | registering "Demo" with `--nice` returns true and is seen by the next query |
| Scenarios.DemoLaunchScenario | StartupHelper/StartupManager.cs:286-303 | the launch `[image, "--startup", "--nice"]` is recognised and the application sees `["--nice"]` |
| Scenarios.DemoUnregisterScenario | StartupHelper/StartupManager.cs:375-406 | unregistering a Local rule with no readable machine value succeeds, leaves it unregistered, and succeeds again |
| Scenarios.MachineValueOutlivesUnelevatedUnregister | StartupHelper/StartupManager.cs:345-357 | an unelevated session cannot remove a readable machine value: unregistering reports failure and the rule still counts |
| Scenarios.RegisteredRunValueReadsBack | StartupHelper/StartupManager.cs:472-479 | a Local Registry registration stores a run value that reads back as the image, the special argument and the extra arguments |

## Left out

- The Task Scheduler object details (StartupHelper/StartupManager.cs:427-466): action, trigger, battery, time-limit and run-level settings, the schema-version branch and the group SID translation. A task is only its name and its principal's user id.
- `IsElevated` and `IsCurrentUser`: Windows identity APIs, modelled as the session's `elevated` flag and its uninterpreted `isCurrentUser` predicate.
- `IsFileSystemCaseSensitive` and `FixWorkingDirectory`: temporary-file I/O and the process working directory. The settable `WorkingDirectory` property belongs to them.
- The constructors at StartupHelper/StartupManager.cs:30-55: they read the entry assembly's location and the elevation state. Their delegation target, the four-argument constructor, is modelled.
- `Environment.GetCommandLineArgs`, `Environment.OSVersion` and `File.Exists` are parameters.
- A `null` name or special argument (`NullReferenceException` from `Trim`), a missing `Run` key (the `?.` calls doing nothing), a task with a `null` user id, and scheduler or registry failures other than the unelevated machine-key write.
- Registration.IsRegistered: looks names up in the stores as exact map keys, whereas Windows matches registry value names and task names without regard to case, so a stale value stored as `demo` is found by the source for the rule `Demo` but not by the model. Case-insensitive key matching would need Unicode case folding, which is out of scope.
- Text.ToLower: lower-cases ASCII letters only, because culture-dependent Unicode case mapping is out of scope. Strings are sequences of Unicode scalar values, not UTF-16 code units.
- StartupHelper.Sample/Program.cs: a console demo with no logic of its own.

## Findings

| source | as written | input that shows it | evidently intended | confidence | as-written member | corrected member |
|---|---|---|---|---|---|---|
| StartupHelper/StartupManager.cs:289 | each argument is lower-cased and trimmed, then compared with the special argument, which was only trimmed (line 205) | special argument `--Startup`; command line `[image, "--Startup"]` is not detected | compare both sides ignoring case | not executed; high | Detection.UpperCaseStartupArgumentNeverDetected | Detection.IsStartedUpIgnoringCase |
| StartupHelper/StartupManager.cs:300 | the second argument is read whenever `IsStartedUp` holds | command line `["--startup"]`: the first argument matches and there is no second, so the read is out of range | read the second argument only when it exists | not executed; high | Detection.SingleStartupArgumentThrows | Detection.ApplicationArguments |
