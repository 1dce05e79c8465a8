/**
 * `load_environment_variables` and the base-URL normalisation of
 * `EdFiApiClient.__init__` (poc/before/load_students.py).
 */
module Configuration {
  import opened Wrappers

  /** The process environment, as name to value. */
  type Environment = map<string, string>

  /** The variables that must be set, in the order they are checked. */
  const RequiredVars: seq<string> := ["EDFI_BASE_URL", "EDFI_CLIENT_ID", "EDFI_CLIENT_SECRET", "EDFI_SCHOOL_ID"]

  /** `os.getenv(name)` is truthy: the variable is set and not empty. */
  predicate IsSet(env: Environment, name: string)
  {
    name in env && env[name] != ""
  }

  /** The names among `names` that are absent or empty, in the order of `names`. */
  function MissingVars(names: seq<string>, env: Environment): seq<string>
  {
    if names == [] then []
    else
      var last := names[|names| - 1];
      MissingVars(names[..|names| - 1], env) + (if IsSet(env, last) then [] else [last])
  }

  /** The names among `names` that are set, mapped to their values. */
  function PresentVars(names: seq<string>, env: Environment): map<string, string>
  {
    if names == [] then map[]
    else
      var last := names[|names| - 1];
      var earlier := PresentVars(names[..|names| - 1], env);
      if IsSet(env, last) then earlier[last := env[last]] else earlier
  }

  /** A name is reported missing exactly when it is one of `names` and is absent or empty. */
  lemma {:induction false} MissingVarsMembers(names: seq<string>, env: Environment)
    ensures forall x :: x in MissingVars(names, env) <==> x in names && !IsSet(env, x)
  {
    if names != [] {
      var init := names[..|names| - 1];
      MissingVarsMembers(init, env);
      assert names == init + [names[|names| - 1]];
    }
  }

  /** The missing names of `a + b` are those of `a` followed by those of `b`: their order is that of `names`. */
  lemma {:induction false} MissingVarsAppend(a: seq<string>, b: seq<string>, env: Environment)
    ensures MissingVars(a + b, env) == MissingVars(a, env) + MissingVars(b, env)
    decreases |b|
  {
    if b == [] {
      assert a + b == a;
    } else {
      var init := b[..|b| - 1];
      assert (a + b)[..|a + b| - 1] == a + init;
      assert (a + b)[|a + b| - 1] == b[|b| - 1];
      MissingVarsAppend(a, init, env);
    }
  }

  /** The collected variables are exactly the set names, each with its value. */
  lemma {:induction false} PresentVarsContents(names: seq<string>, env: Environment)
    ensures forall x :: x in PresentVars(names, env) <==> x in names && IsSet(env, x)
    ensures forall x :: x in PresentVars(names, env) ==> x in env && PresentVars(names, env)[x] == env[x]
  {
    if names != [] {
      var init := names[..|names| - 1];
      PresentVarsContents(init, env);
      assert names == init + [names[|names| - 1]];
    }
  }

  /** Why configuration fails: `sys.exit(1)` after listing the missing names, or a bad timeout. */
  datatype ConfigError = MissingVariables(names: seq<string>) | InvalidTimeout(text: string)

  /** The validated settings: the four required variables and the timeout in seconds. */
  datatype Settings = Settings(vars: map<string, string>, timeout: int)

  /** `os.getenv('EDFI_TIMEOUT', '30')`: the default applies only when the variable is absent. */
  function TimeoutText(env: Environment): string
  {
    if "EDFI_TIMEOUT" in env then env["EDFI_TIMEOUT"] else "30"
  }

  /**
   * `load_environment_variables`: check each required variable in turn,
   * collecting the missing ones and the values of the others; exit if any is
   * missing, else add the timeout converted by `toInt` (`None` for `ValueError`).
   */
  method LoadEnvironment(env: Environment, toInt: string -> Option<int>) returns (r: Result<Settings, ConfigError>)
    ensures r.Success? <==> MissingVars(RequiredVars, env) == [] && toInt(TimeoutText(env)).Some?
    ensures r.Failure? && r.error.MissingVariables? <==> MissingVars(RequiredVars, env) != []
    ensures r.Failure? && r.error.MissingVariables? ==> r.error.names == MissingVars(RequiredVars, env)
    ensures MissingVars(RequiredVars, env) == [] && toInt(TimeoutText(env)).None? ==>
              r == Failure(InvalidTimeout(TimeoutText(env)))
    ensures r.Success? ==>
      && r.value.vars == PresentVars(RequiredVars, env)
      && r.value.timeout == toInt(TimeoutText(env)).value
      && forall x :: x in r.value.vars <==> x in RequiredVars
  {
    var envVars: map<string, string> := map[];
    var missing: seq<string> := [];
    var i := 0;
    while i < |RequiredVars|
      invariant 0 <= i <= |RequiredVars|
      invariant missing == MissingVars(RequiredVars[..i], env)
      invariant envVars == PresentVars(RequiredVars[..i], env)
    {
      var name := RequiredVars[i];
      assert RequiredVars[..i + 1][..i] == RequiredVars[..i];
      if name !in env || env[name] == "" {
        missing := missing + [name];
      } else {
        envVars := envVars[name := env[name]];
      }
      i := i + 1;
    }
    assert RequiredVars[..i] == RequiredVars;
    if missing != [] {
      return Failure(MissingVariables(missing));
    }
    match toInt(TimeoutText(env))
    case None =>
      return Failure(InvalidTimeout(TimeoutText(env)));
    case Some(timeout) =>
      MissingVarsMembers(RequiredVars, env);
      PresentVarsContents(RequiredVars, env);
      return Success(Settings(envVars, timeout));
  }

  /** `s.rstrip('/')`: `s` without its trailing run of slashes. */
  function RStripSlash(s: string): (r: string)
    ensures r <= s
    ensures r == [] || r[|r| - 1] != '/'
    ensures forall i :: |r| <= i < |s| ==> s[i] == '/'
  {
    if s != [] && s[|s| - 1] == '/' then RStripSlash(s[..|s| - 1]) else s
  }

  /** Stripping twice strips nothing more. */
  lemma RStripSlashIdempotent(s: string)
    ensures RStripSlash(RStripSlash(s)) == RStripSlash(s)
  {
  }

  /**
   * The three properties of `RStripSlash` determine it: any prefix of `s`
   * that does not end in a slash and leaves only slashes behind is its result.
   */
  lemma RStripSlashUnique(s: string, t: string)
    requires t <= s
    requires t == [] || t[|t| - 1] != '/'
    requires forall i :: |t| <= i < |s| ==> s[i] == '/'
    ensures t == RStripSlash(s)
  {
    var r := RStripSlash(s);
    if |t| < |r| {
      assert false;
    } else if |r| < |t| {
      assert false;
    }
  }

  /** The fields of `EdFiApiClient` that its constructor sets from its arguments. */
  datatype ApiClient = ApiClient(baseUrl: string, clientId: string, clientSecret: string, schoolId: string, timeout: int)

  /** `EdFiApiClient.__init__`: the base URL is kept without trailing slashes, the rest as given. */
  function NewApiClient(baseUrl: string, clientId: string, clientSecret: string, schoolId: string, timeout: int): (c: ApiClient)
    ensures c.baseUrl <= baseUrl && (c.baseUrl == [] || c.baseUrl[|c.baseUrl| - 1] != '/')
    ensures forall i :: |c.baseUrl| <= i < |baseUrl| ==> baseUrl[i] == '/'
    ensures c.clientId == clientId && c.clientSecret == clientSecret && c.schoolId == schoolId && c.timeout == timeout
  {
    ApiClient(RStripSlash(baseUrl), clientId, clientSecret, schoolId, timeout)
  }
}
