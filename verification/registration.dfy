/**
  Registering, querying and removing the startup rule, over abstract stores: the
  root folder of the Task Scheduler (task name to the principal's user id) and the
  `Run` keys of the current user (HKCU) and of the machine (HKLM).
  Every operation returns its answer together with the stores it leaves behind.
 */
module Registration {
  import opened Results
  import opened Text
  import opened Kinds
  import opened Config

  /** The three stores a rule can live in. */
  datatype Stores = Stores(tasks: map<string, string>, hkcu: map<string, string>, hklm: map<string, string>)

  /** What the process knows about itself: whether it is elevated, whether a
      read-only open of the machine's `Run` key succeeds, the name of the current
      Windows identity, and `IsCurrentUser`, left uninterpreted. */
  datatype Session = Session(elevated: bool, hklmReadable: bool, userName: string, isCurrentUser: string -> bool)

  /** The answer of `IsRegistered` or `Unregister` and the stores afterwards. */
  datatype Answer = Answer(value: bool, stores: Stores)

  /** The outcome of `Register`: it returns a value, or opening the machine's `Run`
      key for writing raises `SecurityException` after the stores were changed. */
  datatype Outcome = Returned(value: bool, stores: Stores) | Denied(stores: Stores)

  /** Whether opening the machine's `Run` key in the given mode succeeds: writing
      needs elevation, reading is governed by the session's flag. */
  predicate HklmOpens(env: Session, writable: bool) {
    if writable then env.elevated else env.hklmReadable
  }

  /** `IsRegistered` opens the machine's key writable exactly when elevated. */
  predicate HklmVisible(env: Session) {
    HklmOpens(env, env.elevated)
  }

  /** A task found under the rule's name counts when it names no user, or when the
      scope is the current user and the task names the current user. */
  predicate TaskCounts(m: Manager, env: Session, userId: string) {
    Trim(userId) == [] || (m.scope == Local && env.isCurrentUser(userId))
  }

  /** The stores with the rule's name removed from the chosen ones. */
  function Without(s: Stores, name: string, fromTasks: bool, fromHkcu: bool, fromHklm: bool): Stores {
    Stores(if fromTasks then s.tasks - {name} else s.tasks,
           if fromHkcu then s.hkcu - {name} else s.hkcu,
           if fromHklm then s.hklm - {name} else s.hklm)
  }

  /** `IsRegistered`. Under the Task provider a task found by name decides on its
      own; otherwise a per-user value is a stale leftover and is deleted, and a
      machine value is deleted when elevated and counted when not. Under the
      Registry provider a value in either key counts and nothing is deleted. */
  function IsRegistered(m: Manager, env: Session, s: Stores): (a: Answer)
    ensures m.provider == Task && m.name in s.tasks ==>
              a == Answer(TaskCounts(m, env, s.tasks[m.name]), s)
    ensures m.provider == Task && m.name !in s.tasks ==>
              && a.stores == Without(s, m.name, false, true, env.elevated)
              && (a.value <==> !env.elevated && env.hklmReadable && m.name in s.hklm)
    ensures m.provider == Registry ==>
              && a.stores == s
              && (a.value <==> m.name in s.hkcu || (HklmVisible(env) && m.name in s.hklm))
  {
    if m.provider == Task && m.name in s.tasks then
      Answer(TaskCounts(m, env, s.tasks[m.name]), s)
    else if m.name in s.hkcu && m.provider == Registry then
      Answer(true, s)
    else
      var s1 := if m.provider == Task then s.(hkcu := s.hkcu - {m.name}) else s;
      if HklmVisible(env) && m.name in s1.hklm then
        if m.provider == Task && env.elevated then
          Answer(false, s1.(hklm := s1.hklm - {m.name}))
        else
          Answer(true, s1)
      else
        Answer(false, s1)
  }

  /** Asking twice gives the same answer, and the second query changes nothing. */
  lemma IsRegisteredIsStable(m: Manager, env: Session, s: Stores)
    ensures var a := IsRegistered(m, env, s);
            IsRegistered(m, env, a.stores) == a
  {
    var a := IsRegistered(m, env, s);
    if m.provider == Task && m.name !in s.tasks {
      assert a.stores.tasks == s.tasks;
      assert m.name !in a.stores.hkcu;
    }
  }

  /** Whether a rule stays visible once `Unregister` has removed what it removes. */
  predicate SurvivesUnregister(m: Manager, env: Session, s: Stores) {
    || (m.provider == Registry && m.scope == Global && m.name in s.hkcu)
    || (!env.elevated && env.hklmReadable && m.name in s.hklm)
  }

  /** `Unregister`: deletes the task under the Task provider, the per-user value
      for the Local scope and the machine value when elevated, then reports that
      the rule is no longer registered. */
  function Unregister(m: Manager, env: Session, s: Stores): (a: Answer)
    ensures a.stores == Without(s, m.name, m.provider == Task, m.scope == Local || m.provider == Task, env.elevated)
    ensures a.value <==> !SurvivesUnregister(m, env, s)
    ensures m.name !in s.tasks && m.name !in s.hkcu && m.name !in s.hklm ==> a == Answer(true, s)
  {
    var s1 := if m.provider == Task then s.(tasks := s.tasks - {m.name}) else s;
    var s2 := if m.scope == Local then s1.(hkcu := s1.hkcu - {m.name}) else s1;
    var s3 := if env.elevated then s2.(hklm := s2.hklm - {m.name}) else s2;
    var q := IsRegistered(m, env, s3);
    Answer(!q.value, q.stores)
  }

  /** The answer of `Unregister` is the negation of `IsRegistered` on the stores it
      leaves, and a query there changes nothing. */
  lemma UnregisterIsVerified(m: Manager, env: Session, s: Stores)
    ensures var a := Unregister(m, env, s);
            IsRegistered(m, env, a.stores) == Answer(!a.value, a.stores)
  {
  }

  /** Unregistering twice is the same as unregistering once. */
  lemma UnregisterIsIdempotent(m: Manager, env: Session, s: Stores)
    ensures var a := Unregister(m, env, s);
            Unregister(m, env, a.stores) == a
  {
  }

  /** The registry value that launches the image with the special argument and the
      caller's extra arguments. */
  function RunValue(image: string, startupArgument: string, arguments: Option<string>): string {
    "\"" + image + "\" " + startupArgument + " " + OrEmpty(arguments)
  }

  /** The user id of the principal of a task this library registers: the current
      identity for the Local scope, a group (no user) for the Global scope. */
  function TaskUserId(m: Manager, env: Session): string {
    if m.scope == Local then env.userName else ""
  }

  /** `Register`: unregisters, then adds one entry under the rule's name (a task, or
      a `Run` value in the scope's key), and reports `IsRegistered`. Writing the
      machine's key without elevation raises `SecurityException`. */
  function Register(m: Manager, env: Session, s: Stores, arguments: Option<string>): (o: Outcome)
    ensures var u := Unregister(m, env, s).stores;
            && (o.Denied? <==> m.provider == Registry && m.scope == Global && !env.elevated)
            && (o.Denied? ==> o.stores == u)
            && (o.Returned? && m.provider == Task ==>
                  o == Returned(TaskCounts(m, env, TaskUserId(m, env)),
                                u.(tasks := u.tasks[m.name := TaskUserId(m, env)])))
            && (o.Returned? && m.provider == Registry && m.scope == Local ==>
                  o == Returned(true, u.(hkcu := u.hkcu[m.name := RunValue(m.image, m.startupArgument, arguments)])))
            && (o.Returned? && m.provider == Registry && m.scope == Global ==>
                  o == Returned(true, u.(hklm := u.hklm[m.name := RunValue(m.image, m.startupArgument, arguments)])))
  {
    var u := Unregister(m, env, s).stores;
    if m.provider == Task then
      var q := IsRegistered(m, env, u.(tasks := u.tasks[m.name := TaskUserId(m, env)]));
      Returned(q.value, q.stores)
    else if m.scope == Local then
      var q := IsRegistered(m, env, u.(hkcu := u.hkcu[m.name := RunValue(m.image, m.startupArgument, arguments)]));
      Returned(q.value, q.stores)
    else if HklmOpens(env, true) then
      var q := IsRegistered(m, env, u.(hklm := u.hklm[m.name := RunValue(m.image, m.startupArgument, arguments)]));
      Returned(q.value, q.stores)
    else
      Denied(u)
  }

  /** The answer of `Register` is `IsRegistered` on the stores it leaves, and a query
      there changes nothing. */
  lemma RegisterIsVerified(m: Manager, env: Session, s: Stores, arguments: Option<string>)
    ensures var o := Register(m, env, s, arguments);
            o.Returned? ==> IsRegistered(m, env, o.stores) == Answer(o.value, o.stores)
  {
  }

  /** Removing a key that was just added to a map without it gives the map back. */
  lemma RemoveAdded(m: map<string, string>, k: string, v: string)
    requires k !in m
    ensures m[k := v] - {k} == m
    ensures m - {k} == m
  {
  }

  /** Unregistering after a successful registration removes exactly the entry it
      added, returning to the stores the registration's own unregistering left. */
  lemma {:induction false} UnregisterUndoesRegister(m: Manager, env: Session, s: Stores, arguments: Option<string>)
    requires Register(m, env, s, arguments).Returned?
    ensures Unregister(m, env, Register(m, env, s, arguments).stores).stores == Unregister(m, env, s).stores
  {
    var u := Unregister(m, env, s).stores;
    assert u == Without(s, m.name, m.provider == Task, m.scope == Local || m.provider == Task, env.elevated);
    var o := Register(m, env, s, arguments);
    var v := RunValue(m.image, m.startupArgument, arguments);
    if m.provider == Task {
      var added := u.(tasks := u.tasks[m.name := TaskUserId(m, env)]);
      assert o.stores == added;
      RemoveAdded(u.tasks, m.name, TaskUserId(m, env));
      RemoveAdded(u.hkcu, m.name, v);
      assert Without(added, m.name, true, true, env.elevated) == u;
    } else if m.scope == Local {
      var added := u.(hkcu := u.hkcu[m.name := v]);
      assert o.stores == added;
      RemoveAdded(u.hkcu, m.name, v);
      assert Without(added, m.name, false, true, env.elevated) == u;
    } else {
      var added := u.(hklm := u.hklm[m.name := v]);
      assert o.stores == added;
      RemoveAdded(u.hklm, m.name, v);
      assert Without(added, m.name, false, false, env.elevated) == u;
    }
  }

  /** Registering twice leaves the same stores and answer as registering once. */
  lemma RegisterIsIdempotent(m: Manager, env: Session, s: Stores, arguments: Option<string>)
    ensures var o := Register(m, env, s, arguments);
            o.Returned? ==> Register(m, env, o.stores, arguments) == o
  {
    if Register(m, env, s, arguments).Returned? {
      UnregisterUndoesRegister(m, env, s, arguments);
    }
  }

  /** A registration is seen by the next query, unless the task it creates names a
      user that the session does not recognise as the current one. */
  lemma RegisterIsSeen(m: Manager, env: Session, s: Stores, arguments: Option<string>)
    requires m.provider == Registry || m.scope == Global || env.isCurrentUser(env.userName)
    ensures var o := Register(m, env, s, arguments);
            o.Returned? ==> o.value && IsRegistered(m, env, o.stores).value
  {
    if m.provider == Task && m.scope == Global {
      assert TaskUserId(m, env) == [];
      assert WhitespaceOnly([]);
    }
    RegisterIsVerified(m, env, s, arguments);
  }

  /** After a successful `Unregister`, unregistering again also succeeds and
      changes nothing. */
  lemma UnregisterAgainSucceeds(m: Manager, env: Session, s: Stores)
    requires Unregister(m, env, s).value
    ensures var a := Unregister(m, env, s);
            Unregister(m, env, a.stores) == Answer(true, a.stores)
  {
    UnregisterIsIdempotent(m, env, s);
  }

  /** A per-user `Run` value left by the Registry provider is removed when the same
      rule is registered under the Task provider, whatever the scope. */
  lemma StaleRunValueRemovedOnSwitchToTask(m: Manager, env: Session, s: Stores, arguments: Option<string>)
    requires m.provider == Registry
    ensures var r := Register(m, env, s, arguments);
            var t := Register(m.(provider := Task), env, r.stores, arguments);
            && (r.Returned? && m.scope == Local ==> m.name in r.stores.hkcu)
            && t.Returned?
            && m.name !in t.stores.hkcu
            && m.name in t.stores.tasks
  {
  }
}
