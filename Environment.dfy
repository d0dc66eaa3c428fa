/** Branch-prefixed environment variables (`resolve_envvars` in entrypoint.py).
    The process environment is an explicit map; the loop runs over a snapshot
    of its keys taken before the first write, as iterating `os.environ` does. */
module Environment {
  import opened PyBuiltins

  type Env = map<string, string>

  /** `name.upper().replace('-', '_')`: case and separator are ignored. */
  function Normalize(name: string): (r: string)
    ensures |r| == |name|
  {
    Replace(Upper(name), '-', '_')
  }

  /** The test at entrypoint.py:53. */
  predicate Matches(key: string, prefix: string) {
    StartsWith(Normalize(key), Normalize(prefix))
  }

  /** `key[len(prefix)+1:]`: the prefix and one separator dropped; "" when
      the key is no longer than that. */
  function StrippedName(key: string, prefix: string): string {
    SliceFrom(key, |prefix| + 1)
  }

  /** One iteration of the loop: a matching key's current value is copied
      to its stripped name. */
  function Step(env: Env, key: string, prefix: string): (r: Env)
    requires key in env
    ensures r.Keys == env.Keys + (if Matches(key, prefix) then {StrippedName(key, prefix)} else {})
  {
    if Matches(key, prefix) then env[StrippedName(key, prefix) := env[key]] else env
  }

  predicate AllIn(keys: seq<string>, env: Env) {
    forall i :: 0 <= i < |keys| ==> keys[i] in env
  }

  /** The environment after the loop has run over `keys` in order. */
  function Resolve(env: Env, keys: seq<string>, prefix: string): Env
    requires AllIn(keys, env)
    decreases |keys|
  {
    if keys == [] then env
    else Resolve(Step(env, keys[0], prefix), keys[1..], prefix)
  }

  /** The names the loop writes: the stripped name of every matching key. */
  function Targets(keys: seq<string>, prefix: string): set<string> {
    set i | 0 <= i < |keys| && Matches(keys[i], prefix) :: StrippedName(keys[i], prefix)
  }

  /** `resolve_envvars(envvar_prefix)` over the snapshot `keys` of `environ`. */
  method ResolveEnvvars(environ: Env, keys: seq<string>, envvarPrefix: string) returns (resolved: Env)
    requires AllIn(keys, environ)
    ensures resolved == Resolve(environ, keys, envvarPrefix)
  {
    resolved := environ;
    var i := 0;
    while i < |keys|
      invariant 0 <= i <= |keys|
      invariant AllIn(keys[i..], resolved)
      invariant Resolve(resolved, keys[i..], envvarPrefix) == Resolve(environ, keys, envvarPrefix)
    {
      var key := keys[i];
      assert keys[i..][0] == key && keys[i..][1..] == keys[i + 1..];
      if StartsWith(Replace(Upper(key), '-', '_'), Replace(Upper(envvarPrefix), '-', '_')) {
        var strippedEnvvarKey := SliceFrom(key, |envvarPrefix| + 1);
        resolved := resolved[strippedEnvvarKey := resolved[key]];
      }
      i := i + 1;
    }
  }

  /** No variable is removed, and the only names added are the stripped names. */
  lemma {:induction false} ResolveKeys(env: Env, keys: seq<string>, prefix: string)
    requires AllIn(keys, env)
    ensures Resolve(env, keys, prefix).Keys == env.Keys + Targets(keys, prefix)
    decreases |keys|
  {
    if keys != [] {
      var next := Step(env, keys[0], prefix);
      ResolveKeys(next, keys[1..], prefix);
      TargetsCons(keys, prefix);
    }
  }

  lemma TargetsCons(keys: seq<string>, prefix: string)
    requires keys != []
    ensures Targets(keys, prefix) ==
      (if Matches(keys[0], prefix) then {StrippedName(keys[0], prefix)} else {}) + Targets(keys[1..], prefix)
  {
    var tail := keys[1..];
    forall n | n in Targets(keys, prefix)
      ensures n in (if Matches(keys[0], prefix) then {StrippedName(keys[0], prefix)} else {}) + Targets(tail, prefix)
    {
      var i :| 0 <= i < |keys| && Matches(keys[i], prefix) && StrippedName(keys[i], prefix) == n;
      if i > 0 {
        assert tail[i - 1] == keys[i];
      }
    }
    forall n | n in Targets(tail, prefix) ensures n in Targets(keys, prefix) {
      var j :| 0 <= j < |tail| && Matches(tail[j], prefix) && StrippedName(tail[j], prefix) == n;
      assert keys[j + 1] == tail[j];
    }
  }

  /** A variable no matching key writes to keeps the value it had. */
  lemma {:induction false} ResolveUntouched(env: Env, keys: seq<string>, prefix: string, name: string)
    requires AllIn(keys, env)
    requires name in env && name !in Targets(keys, prefix)
    ensures name in Resolve(env, keys, prefix) && Resolve(env, keys, prefix)[name] == env[name]
    decreases |keys|
  {
    if keys != [] {
      TargetsCons(keys, prefix);
      ResolveUntouched(Step(env, keys[0], prefix), keys[1..], prefix, name);
    }
  }

  /** When exactly one matching key `source` writes to `name` and nothing
      writes to `source` itself, `name` ends up with `source`'s original value. */
  lemma {:induction false} ResolveSingleWriter(env: Env, keys: seq<string>, prefix: string, source: string)
    requires AllIn(keys, env)
    requires source in keys && Matches(source, prefix)
    requires forall i ::
      (0 <= i < |keys| && Matches(keys[i], prefix) && StrippedName(keys[i], prefix) == StrippedName(source, prefix))
      ==> keys[i] == source
    requires source !in Targets(keys, prefix)
    ensures StrippedName(source, prefix) in Resolve(env, keys, prefix)
    ensures Resolve(env, keys, prefix)[StrippedName(source, prefix)] == env[source]
    decreases |keys|
  {
    var name := StrippedName(source, prefix);
    var next := Step(env, keys[0], prefix);
    var tail := keys[1..];
    TargetsCons(keys, prefix);
    assert next[source] == env[source];
    forall i | 0 <= i < |tail| && Matches(tail[i], prefix) && StrippedName(tail[i], prefix) == name
      ensures tail[i] == source
    {
      assert keys[i + 1] == tail[i];
    }
    if source in tail {
      ResolveSingleWriter(next, tail, prefix, source);
    } else {
      assert keys[0] == source;
      assert name in next && next[name] == env[source];
      ResolveUntouched(next, tail, prefix, name);
    }
  }
}
