/**
 * Filling the environment from several sources: `bootstrap_env` of libs/env.py with its
 * `_apply_env_map`, on top of the defaults template.
 *
 * Which sources exist and are enabled is decided before; dotenv files arrive parsed. The
 * variables that test contexts set by default are left out.
 */
module EnvBootstrap {
  import opened Common
  import opened EnvTemplate

  type Vars = map<string, string>

  /** Names that already have a value that is not blank; a blank one may still be filled. */
  function LockedNames(env: Vars): set<string> {
    set name | name in env && Strip(env[name]) != ""
  }

  function Value<K, V>(env: map<K, V>, name: K): Option<V> {
    if name in env then Some(env[name]) else None
  }

  /** The value a variable ends with when sources are applied in order. */
  function Final<K, V>(env: map<K, V>, locked: set<K>, sources: seq<map<K, V>>, name: K): Option<V> {
    if sources != [] && name in sources[|sources| - 1] && name !in locked then Some(sources[|sources| - 1][name])
    else if sources != [] then Final(env, locked, sources[..|sources| - 1], name)
    else if name in env then Some(env[name])
    else None
  }

  /** `env` with the values applied that are neither locked nor still to do. */
  function Merged<K, V>(env: map<K, V>, values: map<K, V>, locked: set<K>, todo: set<K>): map<K, V> {
    env + (values - (locked + todo))
  }

  /** How many names were free to set, and how many were held back. */
  function Counts<K>(names: set<K>, locked: set<K>): (nat, nat) {
    (|names - locked|, |names * locked|)
  }

  lemma CountOneMore<K>(names: set<K>, locked: set<K>, name: K)
    requires name !in names
    ensures var (free, held) := Counts(names, locked);
            Counts(names + {name}, locked) == if name in locked then (free, held + 1) else (free + 1, held)
  {
    if name in locked {
      assert (names + {name}) - locked == names - locked;
      assert (names + {name}) * locked == names * locked + {name};
    } else {
      assert (names + {name}) - locked == (names - locked) + {name};
      assert (names + {name}) * locked == names * locked;
    }
  }

  lemma ApplyOneMore<K, V>(env: map<K, V>, values: map<K, V>, locked: set<K>, todo: set<K>, name: K)
    requires name in todo && todo <= values.Keys
    ensures Merged(env, values, locked, todo - {name}) ==
            var updated := Merged(env, values, locked, todo);
            if name in locked then updated else updated[name := values[name]]
  {
  }

  lemma NothingApplied<K, V>(env: map<K, V>, values: map<K, V>, locked: set<K>)
    ensures Merged(env, values, locked, values.Keys) == env
    ensures Counts({}, locked) == (0, 0)
  {
    assert values - (locked + values.Keys) == map[];
    assert {} - locked == {} && {} * locked == {};
  }

  lemma MergedSpelledOut<K, V>(env: map<K, V>, values: map<K, V>, locked: set<K>)
    ensures var updated := Merged(env, values, locked, {});
            && (forall name | name in values && name !in locked ::
                  name in updated && updated[name] == values[name])
            && (forall name | name in env && (name in locked || name !in values) ::
                  name in updated && updated[name] == env[name])
            && updated.Keys == env.Keys + (values.Keys - locked)
    ensures Counts(values.Keys, locked) == (|values.Keys - locked|, |values.Keys * locked|)
  {
  }

  /** Set every variable that is not locked; the counts are of names set and names held back. */
  method ApplyEnvMap<K(==), V>(env: map<K, V>, values: map<K, V>, locked: set<K>)
      returns (updated: map<K, V>, applied: nat, skipped: nat)
    ensures updated == Merged(env, values, locked, {})
    ensures applied == |values.Keys - locked| && skipped == |values.Keys * locked|
    ensures forall name | name in values && name !in locked :: name in updated && updated[name] == values[name]
    ensures forall name | name in env && (name in locked || name !in values) ::
              name in updated && updated[name] == env[name]
    ensures updated.Keys == env.Keys + (values.Keys - locked)
  {
    hide Merged, Counts;
    NothingApplied(env, values, locked);
    updated := env;
    applied, skipped := 0, 0;
    var todo := values.Keys;
    ghost var done: set<K> := {};
    while todo != {}
      invariant todo <= values.Keys && done == values.Keys - todo
      invariant updated == Merged(env, values, locked, todo)
      invariant (applied, skipped) == Counts(done, locked)
      decreases todo
    {
      var name :| name in todo;
      CountOneMore(done, locked, name);
      ApplyOneMore(env, values, locked, todo, name);
      todo := todo - {name};
      done := done + {name};
      if name in locked {
        skipped := skipped + 1;
        continue;
      }
      updated := updated[name := values[name]];
      applied := applied + 1;
    }
    assert done == values.Keys;
    MergedSpelledOut(env, values, locked);
  }

  lemma {:induction false} FinalOfMore<K, V>(
    env: map<K, V>, mid: map<K, V>, locked: set<K>, sources: seq<map<K, V>>, next: map<K, V>, after: map<K, V>, name: K)
    requires Value(mid, name) == Final(env, locked, sources, name)
    requires after == Merged(mid, next, locked, {})
    ensures Value(after, name) == Final(env, locked, sources + [next], name)
  {
    assert (sources + [next])[..|sources|] == sources;
  }

  /** The loop over the dotenv files. */
  method ApplySources<K(==, !new), V>(env: map<K, V>, sources: seq<map<K, V>>, locked: set<K>)
      returns (final: map<K, V>)
    ensures forall name: K :: Value(final, name) == Final(env, locked, sources, name)
  {
    final := env;
    for i := 0 to |sources|
      invariant forall name: K :: Value(final, name) == Final(env, locked, sources[..i], name)
    {
      var mid := final;
      var applied, skipped;
      final, applied, skipped := ApplyEnvMap(mid, sources[i], locked);
      assert sources[..i + 1] == sources[..i] + [sources[i]];
      forall name: K ensures Value(final, name) == Final(env, locked, sources[..i + 1], name) {
        FinalOfMore(env, mid, locked, sources[..i], sources[i], final, name);
      }
    }
    assert sources[..|sources|] == sources;
  }

  /** A variable with a value: some character of it is not white space. */
  predicate HasValue(env: Vars, name: string) {
    name in env && exists i | 0 <= i < |env[name]| :: !IsSpace(env[name][i])
  }

  lemma {:induction false} LockedMeansHasValue(env: Vars, name: string)
    ensures name in LockedNames(env) <==> HasValue(env, name)
  {
    if name in env {
      StripIsBlankIff(env[name]);
    }
  }

  predicate NamedByNone<K, V>(sources: seq<map<K, V>>, name: K) {
    forall i | 0 <= i < |sources| :: name !in sources[i]
  }

  /** Source `i` is the last one that names the variable. */
  predicate NamedLastBy<K, V>(sources: seq<map<K, V>>, name: K, i: nat) {
    i < |sources| && name in sources[i] && forall j | i < j < |sources| :: name !in sources[j]
  }

  lemma {:induction false} LastSourceDecides<K, V>(
    env: map<K, V>, locked: set<K>, sources: seq<map<K, V>>, name: K)
    ensures name in locked ==> Final(env, locked, sources, name) == Value(env, name)
    ensures name !in locked ==>
              forall i: nat | NamedLastBy(sources, name, i) ::
                Final(env, locked, sources, name) == Some(sources[i][name])
    ensures NamedByNone(sources, name) ==> Final(env, locked, sources, name) == Value(env, name)
    decreases |sources|
  {
    if sources != [] {
      var front := sources[..|sources| - 1];
      LastSourceDecides(env, locked, front, name);
      forall i: nat | NamedLastBy(sources, name, i) && i < |front| ensures NamedLastBy(front, name, i) {}
    }
  }

  /**
   * What a deployment can rely on: a variable with a value keeps it; any other takes the value
   * of the last source that names it, or stays as it was.
   */
  lemma {:induction false} Precedence(env: Vars, sources: seq<Vars>, name: string)
    ensures HasValue(env, name) ==> Final(env, LockedNames(env), sources, name) == Some(env[name])
    ensures !HasValue(env, name) ==>
              forall i: nat | NamedLastBy(sources, name, i) ::
                Final(env, LockedNames(env), sources, name) == Some(sources[i][name])
    ensures NamedByNone(sources, name) ==>
              Final(env, LockedNames(env), sources, name) == Value(env, name)
  {
    hide HasValue, LockedNames, Final;
    LockedMeansHasValue(env, name);
    LockedIsThere(env, name);
    LastSourceDecides(env, LockedNames(env), sources, name);
  }

  lemma LockedIsThere(env: Vars, name: string)
    ensures HasValue(env, name) ==> name in env
  {
  }

  /** The defaults template first, then the dotenv files in order; the locked names are fixed
      before anything is applied. A variable with a value keeps it; any other takes the value of
      the last source that names it, or stays as it was. */
  method Bootstrap(env: Vars, defaultsText: Option<string>, dotenvs: seq<Vars>) returns (final: Vars)
    ensures var sources :=
              (if defaultsText.Some? then [Store(map[], Assignments(defaultsText.value))] else []) + dotenvs;
            && (forall name :: Value(final, name) == Final(env, LockedNames(env), sources, name))
            && (forall name | !HasValue(env, name) ::
                  forall i: nat | NamedLastBy(sources, name, i) ::
                    name in final && final[name] == sources[i][name])
            && (forall name | NamedByNone(sources, name) ::
                  (name in final <==> name in env) && (name in env ==> final[name] == env[name]))
    ensures forall name | HasValue(env, name) :: name in final && final[name] == env[name]
  {
    hide LockedNames, Final;
    var locked := LockedNames(env);
    var sources := dotenvs;
    if defaultsText.Some? {
      var defaults := ExtractEnvDefaults(defaultsText.value);
      sources := [defaults] + dotenvs;
    } else {
      assert [] + dotenvs == dotenvs;
    }
    final := ApplySources(env, sources, locked);
    forall name
      ensures HasValue(env, name) ==> Value(final, name) == Some(env[name])
      ensures !HasValue(env, name) ==>
                forall i: nat | NamedLastBy(sources, name, i) :: Value(final, name) == Some(sources[i][name])
      ensures NamedByNone(sources, name) ==> Value(final, name) == Value(env, name)
    {
      Precedence(env, sources, name);
    }
  }

  /**
   * End to end: a defaults file written as placeholders fills each unlocked name with its last
   * default, unless a dotenv file names it too.
   */
  lemma {:induction false} RenderedDefaultsArrive(
    env: Vars, pieces: seq<Piece>, tail: string, dotenvs: seq<Vars>, k: nat)
    requires forall p | p in pieces ::
               && GoodPiece(p) && p.Defaulted?
               && Trimmed(p.name) && Trimmed(p.value) && p.value != ""
    requires NoOpen(tail) && k < |pieces|
    requires forall j | k < j < |pieces| :: pieces[j].name != pieces[k].name
    requires !HasValue(env, pieces[k].name)
    requires forall i | 0 <= i < |dotenvs| :: pieces[k].name !in dotenvs[i]
    ensures Final(env, LockedNames(env), [Store(map[], Assignments(Render(pieces, tail)))] + dotenvs, pieces[k].name)
            == Some(pieces[k].value)
  {
    hide Assignments, Render, Store, GoodPiece, Trimmed, NoOpen, LockedNames, Final, HasValue;
    var name := pieces[k].name;
    var defaults := Store(map[], Assignments(Render(pieces, tail)));
    RoundTrip(pieces, tail);
    PairsInOrder(pieces);
    StoreIsLastWins(Pairs(pieces), name, pieces[k].value);
    assert Pairs(pieces)[k] == (name, pieces[k].value);
    var sources := [defaults] + dotenvs;
    assert sources[0] == defaults;
    assert forall j | 0 < j < |sources| :: sources[j] == dotenvs[j - 1];
    assert NamedLastBy(sources, name, 0);
    Precedence(env, sources, name);
  }

  lemma {:induction false} PairsInOrder(pieces: seq<Piece>)
    requires forall p | p in pieces :: p.Defaulted?
    ensures |Pairs(pieces)| == |pieces|
    ensures forall i | 0 <= i < |pieces| :: Pairs(pieces)[i] == (pieces[i].name, pieces[i].value)
    decreases |pieces|
  {
    if pieces != [] {
      PairsInOrder(pieces[1..]);
    }
  }
}
