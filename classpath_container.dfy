/**
  The Bazel classpath container of one Java project: `getClasspathEntries` with
  its 30-second cache, the static `clean()` that empties every container's
  cache, and `isValid`. Each call is atomic; the clock, the import flag, the
  Bazel query and the workspace are given to it.
 */
module ClasspathContainer {
  import opened ClasspathTypes
  import opened ClasspathAssembly

  /** How long a computed classpath may be reused, in milliseconds. */
  const ClasspathCacheTimeoutMs: int := 30000

  /** Why `getAspectPackageInfos` failed: an I/O error, an interrupt, or Bazel not being configured. */
  datatype QueryError = IOFailure | Interrupted | ToolNotConfigured

  /** What `getAspectPackageInfos` answers: the package infos in the map's iteration order, or an error. */
  datatype QueryAnswer = Answered(infos: seq<PackageInfo>) | QueryFailed(error: QueryError)

  /** What `getClasspathEntries` hands back: entries, or the IllegalStateException of its sanity check. */
  datatype Response = Entries(entries: seq<ClasspathEntry>) | NoWorkspaceRoot

  /** The two cache fields: `cachedEntries` (null is `None`) and `cachePutTimeMillis`. */
  datatype Cache = Cache(entries: Option<seq<ClasspathEntry>>, putTime: int)

  /**
    Everything one call produces: the response, whether Bazel was queried, the
    project's references and flush request afterwards, and the cache afterwards.
   */
  datatype Outcome = Outcome(
    response: Response,
    queried: bool,
    references: seq<Project>,
    flushRequested: bool,
    cache: Cache)

  /** A stored classpath at most the timeout old. */
  predicate IsFresh(cache: Cache, now: int) {
    cache.entries.Some? && now - cache.putTime <= ClasspathCacheTimeoutMs
  }

  /** A stored classpath older than the timeout. */
  predicate IsExpired(cache: Cache, now: int) {
    cache.entries.Some? && now - cache.putTime > ClasspathCacheTimeoutMs
  }

  /** The cache once the expiry check has run: an expired classpath is dropped, its put time kept. */
  function AfterExpiryCheck(cache: Cache, now: int): (c: Cache)
    ensures c.putTime == cache.putTime
    ensures c.entries.None? <==> cache.entries.None? || IsExpired(cache, now)
    ensures c.entries.Some? ==> c == cache
  {
    if IsExpired(cache, now) then cache.(entries := None) else cache
  }

  /**
    One call of `getClasspathEntries` as a function of the cache before it:
    `now` is the clock read by the expiry check, `finishedAt` the clock read when
    the result is stored.
   */
  function GetClasspathEntriesSpec(
    cache: Cache, current: Project, isWorkspaceProject: bool, hasWorkspaceRoot: bool,
    now: int, importInProgress: bool, env: Environment, query: QueryAnswer,
    refs: seq<Project>, finishedAt: int): (o: Outcome)
    ensures o.response.Entries? <==> hasWorkspaceRoot
    ensures o.queried <==> hasWorkspaceRoot && !isWorkspaceProject && (importInProgress || !IsFresh(cache, now))
    ensures !o.queried ==> o.references == refs && !o.flushRequested
    ensures o.cache != cache ==> IsExpired(cache, now) || (o.queried && o.cache.putTime == finishedAt)
    ensures o.cache.entries.Some? && o.cache.entries != cache.entries ==> o.response == Entries(o.cache.entries.value)
  {
    if !hasWorkspaceRoot then Outcome(NoWorkspaceRoot, false, refs, false, cache)
    else if IsFresh(cache, now) && !importInProgress then
      Outcome(Entries(cache.entries.value), false, refs, false, cache)
    else
      var checked := AfterExpiryCheck(cache, now);
      if isWorkspaceProject then Outcome(Entries([]), false, refs, false, checked)
      else
        match query
        case QueryFailed(_) => Outcome(Entries([]), true, refs, false, checked)
        case Answered(infos) =>
          var a := Assemble(LookupsOf(env), current, refs, infos);
          Outcome(Entries(a.entries), true, a.references, a.flushRequested, Cache(Some(a.entries), finishedAt))
  }

  /** The static list of every container created, which `clean()` walks. */
  class Registry {
    var instances: seq<BazelClasspathContainer>

    constructor ()
      ensures instances == []
    {
      instances := [];
    }

    /** `clean()`: every registered container forgets its classpath and its put time. */
    method Clean()
      modifies instances
      ensures instances == old(instances)
      ensures forall i :: 0 <= i < |instances| ==> instances[i].cachedEntries.None? && instances[i].cachePutTimeMillis == 0
    {
      for k := 0 to |instances|
        invariant forall i :: 0 <= i < k ==> instances[i].cachedEntries.None? && instances[i].cachePutTimeMillis == 0
      {
        instances[k].cachedEntries := None;
        instances[k].cachePutTimeMillis := 0;
      }
    }
  }

  class BazelClasspathContainer {
    /** The Eclipse project this container computes the classpath of. */
    const project: Project
    /** Whether the project is the artificial one holding the Bazel workspace's own files. */
    const isWorkspaceProject: bool

    var cachedEntries: Option<seq<ClasspathEntry>>
    var cachePutTimeMillis: int

    function CacheState(): Cache
      reads this
    {
      Cache(cachedEntries, cachePutTimeMillis)
    }

    /**
      A new container starts with an empty cache and registers itself.
      `workspaceProjectBaseName` is the name prefix of the Bazel workspace project.
     */
    constructor (project: Project, workspaceProjectBaseName: string, registry: Registry)
      modifies registry
      ensures this.project == project
      ensures isWorkspaceProject <==> workspaceProjectBaseName <= project.name
      ensures CacheState() == Cache(None, 0)
      ensures registry.instances == old(registry.instances) + [this]
    {
      this.project := project;
      this.isWorkspaceProject := workspaceProjectBaseName <= project.name;
      cachedEntries := None;
      cachePutTimeMillis := 0;
      new;
      registry.instances := registry.instances + [this];
    }

    /**
      `getClasspathEntries`: a fresh cached classpath is handed back unless an
      import is in progress; otherwise Bazel is queried and the classpath
      assembled, and a successful pass is cached.
     */
    method GetClasspathEntries(
      hasWorkspaceRoot: bool, now: int, importInProgress: bool, env: Environment,
      query: QueryAnswer, refs: seq<Project>, finishedAt: int)
      returns (response: Response, queried: bool, references: seq<Project>, flushRequested: bool)
      modifies this
      ensures Outcome(response, queried, references, flushRequested, CacheState())
           == GetClasspathEntriesSpec(old(CacheState()), project, isWorkspaceProject, hasWorkspaceRoot,
                                      now, importInProgress, env, query, refs, finishedAt)
    {
      queried, references, flushRequested := false, refs, false;
      if !hasWorkspaceRoot {
        response := NoWorkspaceRoot;
        return;
      }
      if cachedEntries.Some? {
        if now - cachePutTimeMillis > ClasspathCacheTimeoutMs {
          cachedEntries := None;
        } else if !importInProgress {
          response := Entries(cachedEntries.value);
          return;
        }
      }
      if isWorkspaceProject {
        response := Entries([]);
        return;
      }
      queried := true;
      match query
      case QueryFailed(_) =>
        response := Entries([]);
      case Answered(infos) =>
        var entries;
        entries, references, flushRequested := AssembleClasspath(env, project, refs, infos);
        cachePutTimeMillis := finishedAt;
        cachedEntries := Some(entries);
        response := Entries(entries);
    }

    /**
      `isValid`: false without a Bazel workspace root or command runner; true for
      the workspace project; otherwise true iff the build reports no problem.
     */
    function IsValid(hasWorkspaceRoot: bool, runnerAvailable: bool, buildProblems: seq<string>): (valid: bool)
      ensures valid ==> hasWorkspaceRoot && runnerAvailable
      ensures hasWorkspaceRoot && runnerAvailable && isWorkspaceProject ==> valid
      ensures !isWorkspaceProject ==> (valid <==> hasWorkspaceRoot && runnerAvailable && buildProblems == [])
    {
      if !hasWorkspaceRoot then false
      else if !runnerAvailable then false
      else if isWorkspaceProject then true
      else |buildProblems| == 0
    }
  }

  // ---------------------------------------------------------------------------
  // Lemmas about one call

  /** A fresh cached classpath outside an import is handed back as it is; Bazel is not queried and nothing changes. */
  lemma CacheHit(cache: Cache, current: Project, isWorkspaceProject: bool, now: int, env: Environment,
                 query: QueryAnswer, refs: seq<Project>, finishedAt: int)
    requires IsFresh(cache, now)
    ensures var o := GetClasspathEntriesSpec(cache, current, isWorkspaceProject, true, now, false, env, query, refs, finishedAt);
            o.response == Entries(cache.entries.value) && !o.queried && o.cache == cache && o.references == refs && !o.flushRequested
  {
  }

  /** During an import the classpath is computed again, even though the cache is fresh. */
  lemma ImportRecomputes(cache: Cache, current: Project, now: int, env: Environment,
                         query: QueryAnswer, refs: seq<Project>, finishedAt: int)
    requires IsFresh(cache, now)
    ensures GetClasspathEntriesSpec(cache, current, false, true, now, true, env, query, refs, finishedAt).queried
  {
  }

  /**
    Expiry is strict: a classpath exactly the timeout old is still a hit, one a
    millisecond older is dropped before the query is made.
   */
  lemma ExpiryBoundary(entries: seq<ClasspathEntry>, putTime: int, current: Project, env: Environment,
                       query: QueryAnswer, refs: seq<Project>, finishedAt: int)
    ensures var o := GetClasspathEntriesSpec(Cache(Some(entries), putTime), current, false, true,
                                             putTime + ClasspathCacheTimeoutMs, false, env, query, refs, finishedAt);
            o.response == Entries(entries) && !o.queried
    ensures var o := GetClasspathEntriesSpec(Cache(Some(entries), putTime), current, false, true,
                                             putTime + ClasspathCacheTimeoutMs + 1, false, env, query, refs, finishedAt);
            o.queried && (query.QueryFailed? ==> o.cache == Cache(None, putTime))
  {
  }

  /** A successful pass returns the assembled classpath and stores it with the time the pass finished. */
  lemma SuccessfulPassIsCached(cache: Cache, current: Project, now: int, importInProgress: bool, env: Environment,
                               infos: seq<PackageInfo>, refs: seq<Project>, finishedAt: int)
    requires !IsFresh(cache, now) || importInProgress
    ensures var o := GetClasspathEntriesSpec(cache, current, false, true, now, importInProgress, env, Answered(infos), refs, finishedAt);
            var a := Assemble(LookupsOf(env), current, refs, infos);
            o.queried && o.response == Entries(a.entries) && o.cache == Cache(Some(a.entries), finishedAt)
            && o.references == a.references && o.flushRequested == a.flushRequested
  {
  }

  /**
    A failed query hands back an empty classpath and writes neither cache field:
    a fresh classpath (during an import) survives, an expired one is gone.
   */
  lemma FailedPassIsNotCached(cache: Cache, current: Project, now: int, importInProgress: bool, env: Environment,
                              error: QueryError, refs: seq<Project>, finishedAt: int)
    requires !IsFresh(cache, now) || importInProgress
    ensures var o := GetClasspathEntriesSpec(cache, current, false, true, now, importInProgress, env, QueryFailed(error), refs, finishedAt);
            o.response == Entries([]) && o.queried && o.references == refs && !o.flushRequested
            && o.cache.putTime == cache.putTime
            && (IsFresh(cache, now) ==> o.cache == cache)
            && (IsExpired(cache, now) ==> o.cache.entries.None?)
  {
  }

  /**
    Two calls in a row: after a pass that stored its classpath, a call within the
    timeout and outside an import hands back the same classpath without a query.
   */
  lemma SecondCallWithinTimeoutHits(cache: Cache, current: Project, now: int, importInProgress: bool, env: Environment,
                                    infos: seq<PackageInfo>, refs: seq<Project>, finishedAt: int,
                                    later: int, query2: QueryAnswer, refs2: seq<Project>, finishedAt2: int)
    requires !IsFresh(cache, now) || importInProgress
    requires later - finishedAt <= ClasspathCacheTimeoutMs
    ensures var first := GetClasspathEntriesSpec(cache, current, false, true, now, importInProgress, env, Answered(infos), refs, finishedAt);
            var second := GetClasspathEntriesSpec(first.cache, current, false, true, later, false, env, query2, refs2, finishedAt2);
            second.response == first.response && !second.queried && second.cache == first.cache
  {
  }

  /** After `clean()` the next call of a Bazel project always queries Bazel. */
  lemma CleanForcesRecompute(current: Project, now: int, importInProgress: bool, env: Environment,
                             query: QueryAnswer, refs: seq<Project>, finishedAt: int)
    ensures GetClasspathEntriesSpec(Cache(None, 0), current, false, true, now, importInProgress, env, query, refs, finishedAt).queried
  {
  }

  /**
    The workspace project never queries Bazel and never caches anything, import
    or not; its cache starts empty and so stays empty (`WorkspaceProjectNeverCaches`).
   */
  lemma WorkspaceProjectIsEmpty(cache: Cache, current: Project, now: int, importInProgress: bool, env: Environment,
                                query: QueryAnswer, refs: seq<Project>, finishedAt: int)
    requires cache.entries.None?
    ensures var o := GetClasspathEntriesSpec(cache, current, true, true, now, importInProgress, env, query, refs, finishedAt);
            o.response == Entries([]) && !o.queried && o.cache == cache
  {
  }

  /** The inputs of one call of `getClasspathEntries`. */
  datatype Call = Call(
    hasWorkspaceRoot: bool, now: int, importInProgress: bool, env: Environment,
    query: QueryAnswer, refs: seq<Project>, finishedAt: int)

  /** The cache after a run of calls on one container. */
  function CacheAfter(cache: Cache, current: Project, isWorkspaceProject: bool, calls: seq<Call>): Cache
    decreases |calls|
  {
    if |calls| == 0 then cache
    else
      var c := calls[|calls| - 1];
      GetClasspathEntriesSpec(CacheAfter(cache, current, isWorkspaceProject, calls[..|calls| - 1]),
                              current, isWorkspaceProject, c.hasWorkspaceRoot, c.now, c.importInProgress,
                              c.env, c.query, c.refs, c.finishedAt).cache
  }

  /** From a new container's cache, the workspace project's cache stays empty whatever calls are made. */
  lemma {:induction false} WorkspaceProjectNeverCaches(current: Project, calls: seq<Call>)
    ensures CacheAfter(Cache(None, 0), current, true, calls) == Cache(None, 0)
    decreases |calls|
  {
    if |calls| > 0 {
      WorkspaceProjectNeverCaches(current, calls[..|calls| - 1]);
    }
  }
}
