/** The validated description of one startup rule, built by the `StartupManager`
    constructors. */
module Config {
  import opened Results
  import opened Text
  import opened Kinds

  /** The file system queries the constructor makes: `File.Exists` and
      `Path.GetDirectoryName`, left uninterpreted. */
  datatype FileSystem = FileSystem(fileExists: string -> bool, directoryName: string -> string)

  /** The `ArgumentException`s the constructor raises, by offending parameter. */
  datatype ConfigError = ImageMissing | BadName | BadStartupArgument

  /** A constructed `StartupManager`: the image to launch, its working directory,
      the rule's name, whether it must run elevated, its scope, its provider and the
      special argument that marks an automatic start. */
  datatype Manager = Manager(
    image: string,
    workingDirectory: string,
    name: string,
    needsAdminPrivileges: bool,
    scope: Scope,
    provider: Provider,
    startupArgument: string)

  /** The special argument used when the caller names none. */
  const DefaultStartupArgument: string := "--startup"

  /** What every constructed manager satisfies. */
  predicate Valid(m: Manager) {
    && m.image != []
    && m.name != [] && Trimmed(m.name)
    && m.startupArgument != [] && !IsAnyWhitespaceIn(m.startupArgument)
  }

  predicate ImageUsable(image: Option<string>, fs: FileSystem) {
    image.Some? && image.value != [] && fs.fileExists(image.value)
  }

  /** The canonical constructor: checks the image, then the name, then the special
      argument, and stores the trimmed name and argument. */
  function New(image: Option<string>, name: string, scope: Scope, needsAdmin: bool,
               provider: Provider, startupArgument: string, fs: FileSystem): (r: Result<Manager, ConfigError>)
    ensures r == Err(ImageMissing) <==> !ImageUsable(image, fs)
    ensures r == Err(BadName) <==> ImageUsable(image, fs) && WhitespaceOnly(name)
    ensures r == Err(BadStartupArgument) <==>
              && ImageUsable(image, fs) && !WhitespaceOnly(name)
              && (WhitespaceOnly(startupArgument) || IsAnyWhitespaceIn(Trim(startupArgument)))
    ensures r.Ok? ==> && Valid(r.value)
                      && r.value.image == image.value
                      && r.value.workingDirectory == fs.directoryName(image.value)
                      && r.value.name == Trim(name)
                      && r.value.startupArgument == Trim(startupArgument)
                      && r.value.scope == scope
                      && r.value.provider == provider
                      && r.value.needsAdminPrivileges == needsAdmin
  {
    if image.None? || image.value == [] || !fs.fileExists(image.value) then
      Err(ImageMissing)
    else if Trim(name) == [] then
      Err(BadName)
    else if Trim(startupArgument) == [] || IsAnyWhitespaceIn(Trim(startupArgument)) then
      Err(BadStartupArgument)
    else
      Ok(Manager(image.value, fs.directoryName(image.value), Trim(name), needsAdmin, scope,
                 provider, Trim(startupArgument)))
  }

  /** Construction succeeds exactly when the image exists, the name is not blank,
      and the special argument is not blank and has no whitespace between its
      non-whitespace characters. */
  lemma ConstructionSucceedsIff(image: Option<string>, name: string, scope: Scope, needsAdmin: bool,
                                provider: Provider, startupArgument: string, fs: FileSystem)
    ensures New(image, name, scope, needsAdmin, provider, startupArgument, fs).Ok? <==>
              && ImageUsable(image, fs) && !WhitespaceOnly(name)
              && !WhitespaceOnly(startupArgument) && !HasInnerWhitespace(startupArgument)
  {
    TrimKeepsInnerWhitespace(startupArgument);
  }

  /** The constructor that picks the provider from the operating system version.
      Whether and why it fails does not depend on the provider. */
  function NewForOs(image: Option<string>, name: string, scope: Scope, needsAdmin: bool,
                    startupArgument: string, osMajor: int, osMinor: int, fs: FileSystem): (r: Result<Manager, ConfigError>)
    ensures r.Ok? ==> r.value.provider == SelectProvider(osMajor, osMinor, needsAdmin)
    ensures r.Ok? ==> Valid(r.value) && r.value.name == Trim(name) && r.value.startupArgument == Trim(startupArgument)
    ensures r.Ok? ==> && image == Some(r.value.image)
                      && r.value.workingDirectory == fs.directoryName(r.value.image)
                      && r.value.scope == scope
                      && r.value.needsAdminPrivileges == needsAdmin
    ensures r.Ok? ==> (&& New(image, name, scope, needsAdmin, Task, startupArgument, fs).Ok?
                       && New(image, name, scope, needsAdmin, Registry, startupArgument, fs).Ok?)
    ensures r.Err? ==> (&& r == New(image, name, scope, needsAdmin, Task, startupArgument, fs)
                        && r == New(image, name, scope, needsAdmin, Registry, startupArgument, fs))
  {
    New(image, name, scope, needsAdmin, SelectProvider(osMajor, osMinor, needsAdmin), startupArgument, fs)
  }

  /** Inputs that are already clean are stored exactly as given. */
  lemma CleanInputsAreKept(image: string, name: string, scope: Scope, needsAdmin: bool,
                           provider: Provider, startupArgument: string, fs: FileSystem)
    requires image != [] && fs.fileExists(image)
    requires name != [] && Trimmed(name)
    requires startupArgument != [] && Trimmed(startupArgument) && !IsAnyWhitespaceIn(startupArgument)
    ensures New(Some(image), name, scope, needsAdmin, provider, startupArgument, fs)
            == Ok(Manager(image, fs.directoryName(image), name, needsAdmin, scope, provider, startupArgument))
  {
  }

  /** The default special argument passes the constructor's checks. */
  lemma DefaultStartupArgumentIsValid()
    ensures DefaultStartupArgument != [] && Trimmed(DefaultStartupArgument)
    ensures Trim(DefaultStartupArgument) == DefaultStartupArgument
    ensures !IsAnyWhitespaceIn(DefaultStartupArgument)
    ensures !WhitespaceOnly(DefaultStartupArgument)
  {
    var d := DefaultStartupArgument;
    assert forall i :: 0 <= i < |d| ==> !IsWhiteSpace(d[i]);
    NoWhitespace(d);
  }

  /** The default special argument is already lower-case, so the case-sensitive
      comparison of the detection can recognise it. */
  lemma DefaultStartupArgumentIsLowerCase()
    ensures !HasAsciiUpper(DefaultStartupArgument)
  {
    assert forall i :: 0 <= i < |DefaultStartupArgument| ==> !IsAsciiUpper(DefaultStartupArgument[i]);
  }

  /** The constructor with an explicit provider and the default special argument:
      it can fail only on the image or the name. */
  function NewWithProvider(image: Option<string>, name: string, scope: Scope, provider: Provider,
                           needsAdmin: bool, fs: FileSystem): (r: Result<Manager, ConfigError>)
    ensures r.Err? ==> r.error != BadStartupArgument
    ensures r.Ok? <==> ImageUsable(image, fs) && !WhitespaceOnly(name)
    ensures r.Ok? ==> r.value.startupArgument == DefaultStartupArgument && r.value.provider == provider
    ensures r.Ok? ==> && image == Some(r.value.image)
                      && r.value.workingDirectory == fs.directoryName(r.value.image)
                      && r.value.name == Trim(name)
                      && r.value.scope == scope
                      && r.value.needsAdminPrivileges == needsAdmin
    ensures r.Err? ==> (r.error == ImageMissing <==> !ImageUsable(image, fs))
  {
    DefaultStartupArgumentIsValid();
    New(image, name, scope, needsAdmin, provider, DefaultStartupArgument, fs)
  }

  /** The constructor with the default special argument and the provider picked from
      the operating system version: it can fail only on the image or the name. */
  function NewDefault(image: Option<string>, name: string, scope: Scope, needsAdmin: bool,
                      osMajor: int, osMinor: int, fs: FileSystem): (r: Result<Manager, ConfigError>)
    ensures r.Err? ==> r.error != BadStartupArgument
    ensures r.Ok? <==> ImageUsable(image, fs) && !WhitespaceOnly(name)
    ensures r.Ok? ==> && r.value.startupArgument == DefaultStartupArgument
                      && r.value.provider == SelectProvider(osMajor, osMinor, needsAdmin)
    ensures r.Ok? ==> && image == Some(r.value.image)
                      && r.value.workingDirectory == fs.directoryName(r.value.image)
                      && r.value.name == Trim(name)
                      && r.value.scope == scope
                      && r.value.needsAdminPrivileges == needsAdmin
    ensures r.Err? ==> (r.error == ImageMissing <==> !ImageUsable(image, fs))
  {
    DefaultStartupArgumentIsValid();
    NewForOs(image, name, scope, needsAdmin, DefaultStartupArgument, osMajor, osMinor, fs)
  }
}
