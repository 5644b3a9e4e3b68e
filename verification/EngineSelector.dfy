/**
 * Database engine selection: `get_engine` of db/session.py, with its engine cache, its sticky
 * fallback and its failure branches, called again and again under environments that may change.
 *
 * A `Call` holds what one call finds in the environment and how the engine factory answers.
 * Pool settings travel as one opaque value in the cache key; table creation, logs and metrics
 * are left out.
 */
module EngineSelector {
  import opened Common

  // ----- URLs -------------------------------------------------------------------------------

  predicate StartsWith(s: string, prefix: string) {
    |prefix| <= |s| && s[..|prefix|] == prefix
  }

  predicate Contains(s: string, part: string) {
    exists i | 0 <= i <= |s| :: StartsWith(s[i..], part)
  }

  const SQLITE := "sqlite"

  predicate IsSqlite(url: string) {
    StartsWith(Lower(Strip(url)), SQLITE)
  }

  function WithConnectTimeout(url: string): string {
    if IsSqlite(url) || Contains(url, "connect_timeout") then url
    else url + (if Contains(url, "?") then "&" else "?") + "connect_timeout=2"
  }

  /** The text before any white space decides whether a URL names SQLite. */
  predicate SqliteAhead(s: string) {
    |s| >= 6 && Lower(s[..6]) == SQLITE
  }

  lemma LowerIsPointwise(s: string, n: nat)
    requires n <= |s|
    ensures Lower(s)[..n] == Lower(s[..n])
  {
  }

  lemma SqliteHasNoSpace(s: string)
    requires SqliteAhead(s)
    ensures forall i | 0 <= i < 6 :: !IsSpace(s[i])
  {
    var low := Lower(s[..6]);
    forall i | 0 <= i < 6 ensures !IsSpace(s[i]) {
      assert low[i] == LowerChar(s[i]) && low[i] == SQLITE[i];
      assert !IsSpace(SQLITE[i]);
    }
  }

  /** Trailing white space lies after the six letters. */
  lemma SqliteIsNotTrimmed(s: string, j: nat)
    requires j <= |s| && AllSpace(s[j..]) && SqliteAhead(s)
    ensures j >= 6
  {
    if j < 6 {
      assert s[j..][0] == s[j];
      assert IsSpace(s[j]);
    }
    SqliteHasNoSpace(s);
  }

  lemma {:induction false} IsSqliteIffAhead(url: string)
    ensures IsSqlite(url) <==> SqliteAhead(StripLeft(url))
  {
    hide IsSpace, Lower, LowerChar;
    var left := StripLeft(url);
    var j := StripRightDrops(left);
    assert Strip(url) == left[..j];
    if SqliteAhead(left) {
      SqliteIsNotTrimmed(left, j);
    }
    if j >= 6 {
      assert left[..j][..6] == left[..6];
      LowerIsPointwise(left[..j], 6);
    }
  }

  lemma {:induction false} StripLeftAppend(s: string, t: string)
    requires t != "" && !IsSpace(t[0])
    ensures StripLeft(s + t) == if StripLeft(s) == "" then t else StripLeft(s) + t
    decreases |s|
  {
    if s == "" {
      assert s + t == t;
    } else if IsSpace(s[0]) {
      assert (s + t)[1..] == s[1..] + t;
      StripLeftAppend(s[1..], t);
    }
  }

  /** Appending a query string never changes which database a URL names. */
  lemma {:induction false} TimeoutKeepsKind(url: string)
    ensures IsSqlite(WithConnectTimeout(url)) <==> IsSqlite(url)
  {
    var timed := WithConnectTimeout(url);
    if timed != url {
      var sep := if Contains(url, "?") then "&" else "?";
      var suffix := sep + "connect_timeout=2";
      assert timed == url + suffix;
      IsSqliteIffAhead(url);
      IsSqliteIffAhead(timed);
      StripLeftAppend(url, suffix);
      QueryIsNotSqlite(StripLeft(url), suffix);
      assert "" + suffix == suffix;
    }
  }

  lemma {:induction false} QueryIsNotSqlite(left: string, suffix: string)
    requires suffix != "" && (suffix[0] == '?' || suffix[0] == '&') && !SqliteAhead(left)
    ensures !SqliteAhead(left + suffix)
  {
    var s := left + suffix;
    if |left| >= 6 {
      assert s[..6] == left[..6];
    } else if |s| >= 6 {
      assert s[..6][|left|] == suffix[0];
      assert Lower(s[..6])[|left|] == suffix[0];
      assert forall i | 0 <= i < 6 :: SQLITE[i] != suffix[0];
    }
  }

  lemma ContainsCharacter(url: string, c: char)
    ensures Contains(url, [c]) <==> c in url
  {
    if c in url {
      var i :| 0 <= i < |url| && url[i] == c;
      assert StartsWith(url[i..], [c]);
    }
    if Contains(url, [c]) {
      var i :| 0 <= i <= |url| && StartsWith(url[i..], [c]);
      assert url[i..][..1] == [c];
      assert url[i] == c;
    }
  }

  lemma ContainsMiddle(a: string, part: string, b: string)
    ensures Contains(a + part + b, part)
  {
    var s := a + part + b;
    assert s[|a|..] == part + b;
    assert StartsWith(s[|a|..], part);
  }

  lemma TimeoutParameter()
    ensures "connect_timeout=2" == "connect_timeout" + "=2"
  {
  }

  /**
   * The timeout is a query parameter of a URL that has none yet: behind a `?` where that is the
   * first parameter, else behind a `&`.
   */
  lemma {:induction false} TimeoutIsAppended(url: string)
    ensures IsSqlite(url) || Contains(url, "connect_timeout") ==> WithConnectTimeout(url) == url
    ensures !IsSqlite(url) && !Contains(url, "connect_timeout") ==>
              WithConnectTimeout(url) == url + (if '?' in url then "&" else "?") + "connect_timeout=2"
  {
    hide IsSqlite, Contains;
    ContainsCharacter(url, '?');
  }

  /** Appending it twice is appending it once. */
  lemma {:induction false} TimeoutIsAddedOnce(url: string)
    ensures !IsSqlite(url) ==> Contains(WithConnectTimeout(url), "connect_timeout")
    ensures WithConnectTimeout(WithConnectTimeout(url)) == WithConnectTimeout(url)
  {
    hide IsSqlite, Contains;
    TimeoutParameter();
    var sep := if Contains(url, "?") then "&" else "?";
    assert url + sep + ("connect_timeout" + "=2") == (url + sep) + "connect_timeout" + "=2";
    ContainsMiddle(url + sep, "connect_timeout", "=2");
  }

  // ----- One call ---------------------------------------------------------------------------

  /** Pool size, echo, schema and the like. */
  type Options = nat

  /** An engine, the URL it was built for, and the configured URL behind that. */
  datatype Engine = Engine(url: string, configured: string, options: Options, fallback: bool, serial: nat)

  datatype Key = Key(url: string, options: Options)

  datatype FactoryAnswer = Builds | NoPsycopg | NoOtherModule | OtherFailure

  datatype Call = Call(
    production: bool, testEnv: bool, allowSqliteFlag: bool, onReplit: bool, hasDatabaseUrl: bool,
    url: string, placeholder: bool, options: Options, sqlmodelInstalled: bool,
    factory: FactoryAnswer, fallbackUrl: string, fallbackBuilds: bool, serial: nat)

  datatype State = State(cache: Option<Engine>, key: Option<Key>, sticky: Option<Engine>)

  const FRESH := State(None, None, None)

  /** None is a raised error. */
  type Answer = Option<Engine>

  predicate AllowsSqlite(c: Call) {
    c.allowSqliteFlag || c.testEnv || (!c.production && c.onReplit && !c.hasDatabaseUrl)
  }

  /** The configuration is refused before any engine is looked at. */
  predicate Refused(c: Call) {
    if c.production then c.placeholder || IsSqlite(c.url) else IsSqlite(c.url) && !AllowsSqlite(c)
  }

  function FallbackEngine(c: Call): Answer {
    if c.fallbackBuilds then Some(Engine(c.fallbackUrl, c.url, c.options, true, c.serial)) else None
  }

  function KeyOf(c: Call): Key {
    Key(if IsSqlite(c.url) then c.url else WithConnectTimeout(c.url), c.options)
  }

  predicate CacheHit(s: State, c: Call) {
    s.cache.Some? && s.key == Some(KeyOf(c))
  }

  /** A failed connection falls back to SQLite only outside production, and when allowed. */
  predicate FallsBack(c: Call) {
    (c.factory.NoPsycopg? || c.factory.OtherFailure?) && !IsSqlite(c.url) && !c.production && AllowsSqlite(c)
  }

  predicate NeedsSqlmodel(c: Call) {
    !c.sqlmodelInstalled && !(IsSqlite(c.url) && !c.production && AllowsSqlite(c))
  }

  function Step(s: State, c: Call): (State, Answer) {
    if s.sticky.Some? then (s, s.sticky)
    else if Refused(c) then (s, None)
    else if !c.production && c.placeholder && !IsSqlite(c.url) then (s, FallbackEngine(c))
    else if NeedsSqlmodel(c) then (s, None)
    else if CacheHit(s, c) then (s, s.cache)
    else if c.factory.Builds? then
      var e := Engine(KeyOf(c).url, c.url, c.options, false, c.serial);
      (State(Some(e), Some(KeyOf(c)), s.sticky), Some(e))
    else if FallsBack(c) && c.fallbackBuilds then
      (State(None, None, if c.onReplit then FallbackEngine(c) else s.sticky), FallbackEngine(c))
    else (s, None)
  }

  // ----- What a call may get ----------------------------------------------------------------------

  /** SQLite must be asked for, or the process be a test, or run on Replit without a database URL. */
  predicate MayUseSqlite(c: Call) {
    !c.production && (c.allowSqliteFlag || c.testEnv || (c.onReplit && !c.hasDatabaseUrl))
  }

  /** A configured SQLite database is served if and only if that is permitted, sqlmodel or not. */
  lemma {:induction false} SqliteNeedsPermission(s: State, c: Call)
    requires s.sticky.None? && IsSqlite(c.url)
    ensures Step(s, c).1.Some? <==> MayUseSqlite(c) && (CacheHit(s, c) || c.factory.Builds?)
    ensures Step(s, c).1.Some? && !CacheHit(s, c) ==>
              Step(s, c).1.value == Engine(c.url, c.url, c.options, false, c.serial)
  {
    hide WithConnectTimeout;
  }

  /**
   * A configured server that cannot be reached: SQLite stands in if and only if that is
   * permitted and it can be opened; on Replit it then stays. A missing module other than the
   * driver never falls back.
   */
  lemma {:induction false} UnreachableServer(s: State, c: Call)
    requires s.sticky.None? && !IsSqlite(c.url) && !c.placeholder && c.sqlmodelInstalled
    requires !CacheHit(s, c) && !c.factory.Builds?
    ensures var (after, answer) := Step(s, c);
            && (answer.Some? <==> MayUseSqlite(c) && c.fallbackBuilds && !c.factory.NoOtherModule?)
            && (answer.Some? ==>
                  && answer.value == Engine(c.fallbackUrl, c.url, c.options, true, c.serial)
                  && after == State(None, None, if c.onReplit then answer else None))
            && (answer.None? ==> after == s)
  {
    hide IsSqlite, WithConnectTimeout;
  }

  /** A reachable server is given an engine with the timeout, which becomes the cached one. */
  lemma {:induction false} ReachableServer(s: State, c: Call)
    requires s.sticky.None? && !IsSqlite(c.url) && !c.placeholder && c.sqlmodelInstalled
    requires !CacheHit(s, c) && c.factory.Builds?
    ensures var (after, answer) := Step(s, c);
            && answer == Some(Engine(WithConnectTimeout(c.url), c.url, c.options, false, c.serial))
            && after == State(answer, Some(Key(WithConnectTimeout(c.url), c.options)), None)
  {
    hide IsSqlite, WithConnectTimeout;
  }

  /** A placeholder URL is refused in production and answered with SQLite elsewhere; without
      sqlmodel no server is contacted. */
  lemma {:induction false} PlaceholderOrNoSqlmodel(s: State, c: Call)
    requires s.sticky.None? && !IsSqlite(c.url) && (c.placeholder || !c.sqlmodelInstalled)
    ensures Step(s, c).0 == s
    ensures Step(s, c).1.Some? <==> !c.production && c.placeholder && c.fallbackBuilds
    ensures Step(s, c).1.Some? ==> Step(s, c).1.value.fallback && Step(s, c).1.value.url == c.fallbackUrl
  {
    hide IsSqlite, WithConnectTimeout;
  }

  // ----- Runs -------------------------------------------------------------------------------

  function Run(s: State, calls: seq<Call>): State
    decreases |calls|
  {
    if calls == [] then s else Run(Step(s, calls[0]).0, calls[1..])
  }

  /** Placeholder detection depends on the URL alone. */
  predicate SameDetector(calls: seq<Call>, placeholder: string -> bool) {
    forall c | c in calls :: c.placeholder == placeholder(c.url)
  }

  /** What every call keeps: the cached engine is the one built for the cached key. */
  predicate Inv(s: State, placeholder: string -> bool) {
    && (s.cache.Some? <==> s.key.Some?)
    && (s.cache.Some? ==>
          var e := s.cache.value;
          && !e.fallback
          && s.key == Some(Key(e.url, e.options))
          && (IsSqlite(e.url) <==> IsSqlite(e.configured))
          && (!IsSqlite(e.configured) ==> !placeholder(e.configured)))
    && (s.sticky.Some? ==> s.sticky.value.fallback)
  }

  lemma {:induction false} StepKeepsInv(s: State, c: Call, placeholder: string -> bool)
    requires Inv(s, placeholder) && c.placeholder == placeholder(c.url)
    ensures Inv(Step(s, c).0, placeholder)
  {
    hide IsSqlite, WithConnectTimeout;
    TimeoutKeepsKind(c.url);
  }

  lemma {:induction false} RunKeepsInv(s: State, calls: seq<Call>, placeholder: string -> bool)
    requires Inv(s, placeholder) && SameDetector(calls, placeholder)
    ensures Inv(Run(s, calls), placeholder)
    decreases |calls|
  {
    hide Step;
    if calls != [] {
      StepKeepsInv(s, calls[0], placeholder);
      RunKeepsInv(Step(s, calls[0]).0, calls[1..], placeholder);
    }
  }

  /** An engine that production must never use. */
  predicate Forbidden(e: Engine, placeholder: string -> bool) {
    e.fallback || IsSqlite(e.url) || placeholder(e.configured)
  }

  /** After any history of environments, production gets a forbidden engine exactly when an
      earlier call left a sticky fallback behind. */
  lemma {:induction false} ProductionForbiddenIffSticky(calls: seq<Call>, c: Call, placeholder: string -> bool)
    requires SameDetector(calls, placeholder) && c.placeholder == placeholder(c.url) && c.production
    ensures var s := Run(FRESH, calls);
            var answer := Step(s, c).1;
            (answer.Some? && Forbidden(answer.value, placeholder)) <==> s.sticky.Some?
  {
    hide IsSqlite, WithConnectTimeout;
    RunKeepsInv(FRESH, calls, placeholder);
    TimeoutKeepsKind(c.url);
  }

  /** The call that leaves a sticky fallback: outside production, on Replit, after a failed
      connection to a real database that the cache could not serve. */
  predicate LeavesSticky(s: State, c: Call) {
    && s.sticky.None? && !Refused(c) && !c.placeholder && !NeedsSqlmodel(c) && !CacheHit(s, c)
    && FallsBack(c) && c.fallbackBuilds && c.onReplit
  }

  lemma {:induction false} StickyComesFromReplit(s: State, calls: seq<Call>)
    ensures Run(s, calls).sticky.Some? <==>
            s.sticky.Some? || exists i | 0 <= i < |calls| :: LeavesSticky(Run(s, calls[..i]), calls[i])
    decreases |calls|
  {
    hide LeavesSticky;
    if calls != [] {
      var next := Step(s, calls[0]).0;
      StickyStep(s, calls[0]);
      StickyComesFromReplit(next, calls[1..]);
      assert calls[..0] == [];
      assert Run(s, calls[..0]) == s;
      forall i | 0 <= i < |calls[1..]| ensures Run(next, calls[1..][..i]) == Run(s, calls[..i + 1]) {
        assert calls[..i + 1][1..] == calls[1..][..i];
      }
      if i :| 0 <= i < |calls[1..]| && LeavesSticky(Run(next, calls[1..][..i]), calls[1..][i]) {
        assert LeavesSticky(Run(s, calls[..i + 1]), calls[i + 1]);
      }
      if i :| 0 < i < |calls| && LeavesSticky(Run(s, calls[..i]), calls[i]) {
        assert LeavesSticky(Run(next, calls[1..][..i - 1]), calls[1..][i - 1]);
      }
    }
  }

  lemma StickyStep(s: State, c: Call)
    ensures Step(s, c).0.sticky.Some? <==> s.sticky.Some? || LeavesSticky(s, c)
  {
    hide IsSqlite, WithConnectTimeout;
  }

  const POSTGRES := "postgresql://db/broker"
  const LOCAL := "sqlite:///broker.db"

  lemma PostgresIsNotSqlite()
    ensures !IsSqlite(POSTGRES)
  {
    assert !IsSpace(POSTGRES[0]);
    assert StripLeft(POSTGRES) == POSTGRES;
    assert Lower(POSTGRES[..6])[0] != SQLITE[0];
    IsSqliteIffAhead(POSTGRES);
  }

  /** Such a history: a Replit call outside production falls back after a failed connection, and
      the next call, in production with the same database, is given that SQLite engine. */
  lemma {:induction false} ReplitFallbackReachesProduction() returns (earlier: Call, c: Call)
    ensures c.production && !c.placeholder && !earlier.placeholder && !IsSqlite(c.url)
    ensures LeavesSticky(FRESH, earlier)
    ensures var answer := Step(Run(FRESH, [earlier]), c).1;
            answer.Some? && answer.value.fallback && answer.value.url == earlier.fallbackUrl != c.url
  {
    hide IsSqlite, WithConnectTimeout;
    PostgresIsNotSqlite();
    earlier := Call(false, false, true, true, true, POSTGRES, false, 0, true, OtherFailure, LOCAL, true, 0);
    c := Call(true, false, true, true, true, POSTGRES, false, 0, true, Builds, LOCAL, true, 1);
    assert [earlier][1..] == [];
    assert POSTGRES[0] != LOCAL[0];
  }

  /** A process that is always in production never gets a SQLite or placeholder engine. */
  lemma {:induction false} AlwaysProductionIsSafe(calls: seq<Call>, c: Call, placeholder: string -> bool)
    requires SameDetector(calls, placeholder) && c.placeholder == placeholder(c.url)
    requires c.production && forall d | d in calls :: d.production
    ensures var answer := Step(Run(FRESH, calls), c).1;
            answer.Some? ==> !Forbidden(answer.value, placeholder)
  {
    hide Step;
    StickyComesFromReplit(FRESH, calls);
    ProductionForbiddenIffSticky(calls, c, placeholder);
  }

  /** A working engine is built once: the same call again returns the same engine. */
  lemma {:induction false} EngineIsReused(s: State, c: Call, again: Call)
    requires s.sticky.None? && Step(s, c).1.Some? && !Step(s, c).1.value.fallback
    requires again == c.(factory := again.factory, serial := again.serial, fallbackBuilds := again.fallbackBuilds)
    ensures Step(Step(s, c).0, again) == Step(s, c)
  {
    hide IsSqlite, WithConnectTimeout;
  }

  // ----- The module's globals ---------------------------------------------------------------------

  class Session {
    var engineCache: Option<Engine>
    var engineCacheKey: Option<Key>
    var stickyFallbackEngine: Option<Engine>

    ghost function Snapshot(): State
      reads this
    {
      State(engineCache, engineCacheKey, stickyFallbackEngine)
    }

    constructor ()
      ensures Snapshot() == FRESH
    {
      engineCache, engineCacheKey, stickyFallbackEngine := None, None, None;
    }

    method GetEngine(c: Call) returns (answer: Answer)
      modifies this
      ensures (Snapshot(), answer) == old(Step(Snapshot(), c))
    {
      hide IsSqlite, WithConnectTimeout;
      if stickyFallbackEngine.Some? {
        return stickyFallbackEngine;
      }
      var isSqlite := IsSqlite(c.url);
      var allowSqlite := c.allowSqliteFlag;
      if c.testEnv {
        allowSqlite := true;
      }
      if !c.production && !allowSqlite && c.onReplit && !c.hasDatabaseUrl {
        allowSqlite := true;
      }
      if c.production {
        if c.placeholder || isSqlite {
          return None;
        }
      } else {
        if isSqlite && !allowSqlite {
          return None;
        }
        if c.placeholder && !isSqlite {
          return FallbackEngine(c);
        }
      }
      var url := if isSqlite then c.url else WithConnectTimeout(c.url);
      if !c.sqlmodelInstalled && !(isSqlite && !c.production && allowSqlite) {
        return None;
      }
      var key := Key(url, c.options);
      if engineCache.Some? && engineCacheKey == Some(key) {
        return engineCache;
      }
      match c.factory {
        case Builds =>
          engineCache := Some(Engine(url, c.url, c.options, false, c.serial));
          engineCacheKey := Some(key);
          answer := engineCache;
        case NoOtherModule =>
          answer := None;
        case _ =>
          if isSqlite || c.production || !allowSqlite {
            return None;
          }
          answer := FallbackEngine(c);
          if answer.None? {
            return;
          }
          if !c.production && c.onReplit {
            stickyFallbackEngine := answer;
          }
          engineCache, engineCacheKey := None, None;
      }
    }
  }
}
