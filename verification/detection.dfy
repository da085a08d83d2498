/**
  Recognising a session started by the startup rule, and the command line the
  application should see. The argument vector is passed in explicitly; as in
  `Environment.GetCommandLineArgs`, its first element is usually the executable.
 */
module Detection {
  import opened Results
  import opened Text
  import opened Config

  /** The source's comparison `arg.ToLower().Trim() == StartupSpecialArgument`. */
  predicate Matches(m: Manager, arg: string) {
    Trim(ToLower(arg)) == m.startupArgument
  }

  /** `IsStartedUp`: the special argument is the first or the second argument. */
  function IsStartedUp(m: Manager, args: seq<string>): (r: bool)
    ensures |args| == 0 ==> !r
    ensures r ==> !HasAsciiUpper(m.startupArgument)
  {
    (|args| > 0 && Matches(m, args[0])) || (|args| > 1 && Matches(m, args[1]))
  }

  /** Started up means: one of the first two arguments, lower-cased and trimmed, is
      the special argument. */
  lemma StartedUpIffMatchInFirstTwo(m: Manager, args: seq<string>)
    ensures IsStartedUp(m, args) <==> exists i :: 0 <= i < |args| && i < 2 && Matches(m, args[i])
  {
    if |args| > 0 && Matches(m, args[0]) {
      assert 0 <= 0 < |args| && 0 < 2 && Matches(m, args[0]);
    } else if |args| > 1 && Matches(m, args[1]) {
      assert 0 <= 1 < |args| && 1 < 2 && Matches(m, args[1]);
    } else {
      forall i | 0 <= i < |args| && i < 2
        ensures !Matches(m, args[i])
      {
        assert i == 0 || i == 1;
      }
    }
  }

  /** Only the first two arguments decide whether the session was started up. */
  lemma OnlyFirstTwoArgumentsMatter(m: Manager, args: seq<string>, rest: seq<string>)
    requires |args| >= 2
    ensures IsStartedUp(m, args + rest) == IsStartedUp(m, args)
  {
    assert (args + rest)[0] == args[0] && (args + rest)[1] == args[1];
  }

  /** A lower-cased, trimmed argument never holds an upper-case letter. */
  lemma {:induction false} MatchedArgumentIsLowerCase(m: Manager, arg: string)
    requires Matches(m, arg)
    ensures !HasAsciiUpper(m.startupArgument)
  {
    var l := ToLower(arg);
    var t := TrimStart(l);
    var r := TrimEnd(t);
    assert r == l[|l| - |t|..][..|r|];
  }

  /** The comparison lower-cases the argument but not the stored special argument,
      so a special argument with an upper-case letter is never recognised, whatever
      the command line. */
  lemma UpperCaseStartupArgumentNeverDetected(m: Manager, args: seq<string>)
    requires HasAsciiUpper(m.startupArgument)
    ensures !IsStartedUp(m, args)
  {
    if |args| > 0 && Matches(m, args[0]) {
      MatchedArgumentIsLowerCase(m, args[0]);
    }
    if |args| > 1 && Matches(m, args[1]) {
      MatchedArgumentIsLowerCase(m, args[1]);
    }
  }

  /** The constructor accepts such an argument, and the command line the rule
      launches with is then not recognised. */
  lemma UpperCaseStartupArgumentIsAccepted(image: string, fs: FileSystem)
    requires image != [] && fs.fileExists(image)
    ensures var r := New(Some(image), "App", Kinds.Local, false, Kinds.Registry, "--Startup", fs);
            && r.Ok?
            && r.value.startupArgument == "--Startup"
            && !IsStartedUp(r.value, [image, "--Startup"])
  {
    var a, n := "--Startup", "App";
    assert forall i :: 0 <= i < |a| ==> !IsWhiteSpace(a[i]);
    assert forall i :: 0 <= i < |n| ==> !IsWhiteSpace(n[i]);
    NoWhitespace(a);
    NoWhitespace(n);
    CleanInputsAreKept(image, n, Kinds.Local, false, Kinds.Registry, a, fs);
    var m := Manager(image, fs.directoryName(image), n, false, Kinds.Local, Kinds.Registry, a);
    assert IsAsciiUpper(a[2]);
    UpperCaseStartupArgumentNeverDetected(m, [image, a]);
  }

  /** `SkipFirstElements`: a copy of the array without its first `count` elements. */
  function SkipFirstElements<T>(a: seq<T>, count: nat): (r: seq<T>)
    requires count <= |a|
    ensures |r| == |a| - count
    ensures forall i :: 0 <= i < |r| ==> r[i] == a[count + i]
  {
    a[count..]
  }

  /** `CommandLineArguments` as written. `None` stands for the
      `IndexOutOfRangeException` raised by reading the second argument when there is
      only one and it is the special argument. */
  function CommandLineArguments(m: Manager, args: seq<string>): (r: Option<seq<string>>)
    ensures r.None? <==> |args| == 1 && Matches(m, args[0])
    ensures |args| == 0 ==> r == Some([])
    ensures |args| > 1 && Matches(m, args[1]) ==> r == Some(args[2..])
    ensures |args| > 0 && r.Some? && !(|args| > 1 && Matches(m, args[1])) ==> r == Some(args[1..])
  {
    if |args| > 0 then
      if IsStartedUp(m, args) then
        if |args| > 1 then
          Some(SkipFirstElements(args, if Matches(m, args[1]) then 2 else 1))
        else
          None
      else
        Some(SkipFirstElements(args, 1))
    else
      Some([])
  }

  /** A command line made only of the special argument makes the source throw. */
  lemma SingleStartupArgumentThrows(m: Manager)
    requires Valid(m) && !HasAsciiUpper(m.startupArgument)
    ensures CommandLineArguments(m, [m.startupArgument]).None?
  {
    ToLowerPreservesWhitespace(m.startupArgument);
  }

  /** The comparison that ignores letter case on both sides: the argument and
      the special argument are both lower-cased before they are compared. */
  predicate MatchesIgnoringCase(m: Manager, arg: string) {
    Trim(ToLower(arg)) == ToLower(m.startupArgument)
  }

  /** A valid manager recognises its own special argument in any letter case. */
  lemma {:induction false} SameTokenIgnoringCase(m: Manager, arg: string)
    requires Valid(m) && ToLower(arg) == ToLower(m.startupArgument)
    ensures MatchesIgnoringCase(m, arg)
  {
    ToLowerPreservesWhitespace(m.startupArgument);
    var l := ToLower(m.startupArgument);
    assert !IsWhiteSpace(l[0]) && !IsWhiteSpace(l[|l| - 1]);
    assert Trimmed(l);
  }

  /** How the two comparisons relate on the first two arguments. */
  lemma CompareIgnoringCase(m: Manager, args: seq<string>)
    ensures forall i :: 0 <= i < |args| && i < 2 && Valid(m) && ToLower(args[i]) == ToLower(m.startupArgument) ==>
              MatchesIgnoringCase(m, args[i])
    ensures forall i :: 0 <= i < |args| && i < 2 && Matches(m, args[i]) ==>
              !HasAsciiUpper(m.startupArgument) && MatchesIgnoringCase(m, args[i])
    ensures !HasAsciiUpper(m.startupArgument) ==>
              forall i :: 0 <= i < |args| && i < 2 ==> (Matches(m, args[i]) <==> MatchesIgnoringCase(m, args[i]))
  {
    forall i | 0 <= i < |args| && i < 2 && Valid(m) && ToLower(args[i]) == ToLower(m.startupArgument) {
      SameTokenIgnoringCase(m, args[i]);
    }
    forall i | 0 <= i < |args| && i < 2 && Matches(m, args[i]) {
      MatchedArgumentIsLowerCase(m, args[i]);
    }
  }

  /** `IsStartedUp` with the case-insensitive comparison. */
  function IsStartedUpIgnoringCase(m: Manager, args: seq<string>): (r: bool)
    ensures Valid(m) && |args| > 1 && ToLower(args[1]) == ToLower(m.startupArgument) ==> r
    ensures Valid(m) && |args| > 0 && ToLower(args[0]) == ToLower(m.startupArgument) ==> r
    ensures IsStartedUp(m, args) ==> r
    ensures !HasAsciiUpper(m.startupArgument) ==> r == IsStartedUp(m, args)
    ensures |args| == 0 ==> !r
    ensures r == IsStartedUp(m.(startupArgument := ToLower(m.startupArgument)), args)
  {
    CompareIgnoringCase(m, args);
    (|args| > 0 && MatchesIgnoringCase(m, args[0])) || (|args| > 1 && MatchesIgnoringCase(m, args[1]))
  }

  /** `CommandLineArguments` with the case-insensitive comparison and the second
      argument read only when it exists. */
  function ApplicationArguments(m: Manager, args: seq<string>): (r: seq<string>)
    ensures |args| == 0 ==> r == []
    ensures |args| > 0 ==> |args| - 2 <= |r| < |args|
    ensures r == args[|args| - |r|..]
    ensures |args| > 0 && !IsStartedUpIgnoringCase(m, args) ==> r == args[1..]
    ensures Valid(m) && |args| > 1 && ToLower(args[1]) == ToLower(m.startupArgument) ==> r == args[2..]
    ensures |args| > 1 && MatchesIgnoringCase(m, args[1]) ==> r == args[2..]
    ensures |args| > 1 && r == args[2..] ==> MatchesIgnoringCase(m, args[1])
    ensures CommandLineArguments(m, args).Some? && !HasAsciiUpper(m.startupArgument) ==>
              r == CommandLineArguments(m, args).value
  {
    CompareIgnoringCase(m, args);
    if |args| > 0 then
      SkipFirstElements(args,
        if IsStartedUpIgnoringCase(m, args) && |args| > 1 && MatchesIgnoringCase(m, args[1]) then 2 else 1)
    else
      []
  }
}
