/** The two enumerations of the library and the default choice between providers. */
module Kinds {

  /** `RegistrationScope`: the current user only, or every user of the machine. */
  datatype Scope = Local | Global

  /** `StartupProviders`: the Task Scheduler, or the registry's Run key. */
  datatype Provider = Task | Registry

  /** The provider chosen from the operating system version when the caller does not
      pin one: the Task Scheduler from Windows version 6 onwards when administrator
      rights are needed, and from version 6.2 numbering onwards otherwise. */
  function SelectProvider(major: int, minor: int, needsAdmin: bool): (p: Provider)
    ensures major < 6 ==> p == Registry
    ensures major >= 6 && needsAdmin ==> p == Task
    ensures major >= 6 && minor >= 2 ==> p == Task
    ensures !needsAdmin && minor < 2 ==> p == Registry
  {
    if major >= 6 && (needsAdmin || minor >= 2) then Task else Registry
  }

  /** Needing administrator rights never moves the choice away from the Task Scheduler. */
  lemma AdminNeverSelectsRegistryAlone(major: int, minor: int)
    ensures SelectProvider(major, minor, false) == Task ==> SelectProvider(major, minor, true) == Task
  {
  }

  /** The choice compares the minor number on its own, not the version as a whole:
      version 10.0 without administrator rights gets the registry although 6.2 gets
      the Task Scheduler. */
  lemma SelectionIsNotMonotoneInVersion()
    ensures SelectProvider(6, 2, false) == Task
    ensures SelectProvider(10, 0, false) == Registry
  {
  }
}
