/** The module-level lookup every handler performs at load time: walk the
    `env_account_mapping` dictionary in insertion order and take the first
    environment whose account id is the caller's. The caller's account id
    (from STS `get_caller_identity`) is a parameter. */
module Accounts {
  import opened Outcomes
  import opened Strings

  /** `(environment, account id)` pairs, in the dictionary's insertion order. */
  type Mapping = seq<(string, string)>

  /** The loop's `if` condition; `skipFullLoad` adds the `-full-load` test that
      only the config-table populator makes. */
  predicate Eligible(entry: (string, string), account: string, skipFullLoad: bool) {
    entry.1 == account && !(skipFullLoad && EndsWith(entry.0, "-full-load"))
  }

  /** The environment the loop settles on when it starts at index `from`, or
      `None` when it runs to the end. */
  function FirstEnvFrom(m: Mapping, account: string, skipFullLoad: bool, from: nat): (r: Option<string>)
    ensures r.None? <==> forall i :: from <= i < |m| ==> !Eligible(m[i], account, skipFullLoad)
    ensures r.Some? ==>
      exists i :: from <= i < |m| && Eligible(m[i], account, skipFullLoad) && m[i].0 == r.value &&
        forall j :: from <= j < i ==> !Eligible(m[j], account, skipFullLoad)
    decreases |m| - from
  {
    if from >= |m| then None
    else if Eligible(m[from], account, skipFullLoad) then Some(m[from].0)
    else FirstEnvFrom(m, account, skipFullLoad, from + 1)
  }

  /** The environment of the first eligible entry, or `None` when there is none. */
  function FirstEnv(m: Mapping, account: string, skipFullLoad: bool): (r: Option<string>)
    ensures r.None? <==> forall i :: 0 <= i < |m| ==> !Eligible(m[i], account, skipFullLoad)
    ensures r.Some? ==>
      exists i :: 0 <= i < |m| && Eligible(m[i], account, skipFullLoad) && m[i].0 == r.value &&
        forall j :: 0 <= j < i ==> !Eligible(m[j], account, skipFullLoad)
  {
    FirstEnvFrom(m, account, skipFullLoad, 0)
  }

  /** The `for env, account in env_account_mapping.items(): ... break` loop. */
  method LookupEnv(m: Mapping, account: string, skipFullLoad: bool) returns (env: Option<string>)
    ensures env == FirstEnv(m, account, skipFullLoad)
  {
    env := None;
    var i := 0;
    while i < |m|
      invariant 0 <= i <= |m|
      invariant FirstEnv(m, account, skipFullLoad) == FirstEnvFrom(m, account, skipFullLoad, i)
    {
      if Eligible(m[i], account, skipFullLoad) {
        env := Some(m[i].0);
        return;
      }
      i := i + 1;
    }
  }
}
