/**
  Which workspace project owns a dependency's sources
  (`getSourceProjectForSourcePaths`, `getSourceProjectForSourcePath` and
  `matchPatterns`). A project owns a source path when one of its source entries,
  backed by a workspace member, contains the path component-wise, no exclusion
  pattern matches it, and either there are no inclusion patterns or one of them
  matches.
 */
module SourceOwnership {
  import opened JavaPaths
  import opened ClasspathTypes

  const Quote: char := '"'

  /** `s.replace("\"", "")`: every quote character removed, the rest kept in order. */
  function RemoveQuotes(s: string): (r: string)
    ensures Quote !in r
    ensures |r| == |s| - multiset(s)[Quote]
    ensures Quote !in s ==> r == s
    ensures multiset(r) == multiset(s)[Quote := 0]
  {
    if |s| == 0 then ""
    else
      assert s == [s[0]] + s[1..];
      if s[0] == Quote then RemoveQuotes(s[1..]) else [s[0]] + RemoveQuotes(s[1..])
  }

  /** The absolute path a source path reported by Bazel stands for: a separator, then the path without quotes. */
  function NormalizedSourcePath(sourcePath: string): (p: JPath)
    ensures p.absolute
    ensures p.names == Segments(RemoveQuotes(sourcePath))
  {
    var text := [Separator] + RemoveQuotes(sourcePath);
    assert text[1..] == RemoveQuotes(sourcePath);
    Parse(text)
  }

  /** Whether some pattern of `patterns`, scanned in order, matches `path`. */
  function AnyPatternMatches(path: JPath, patterns: seq<string>, globMatches: (string, JPath) -> bool): (r: bool)
    ensures r <==> exists i :: 0 <= i < |patterns| && globMatches(patterns[i], path)
  {
    if |patterns| == 0 then false
    else if globMatches(patterns[0], path) then true
    else
      assert forall i :: 1 <= i < |patterns| ==> patterns[i] == patterns[1..][i - 1];
      AnyPatternMatches(path, patterns[1..], globMatches)
  }

  /** `matchPatterns`: null patterns match nothing; otherwise some pattern must match. */
  function MatchPatterns(path: JPath, patterns: Option<seq<string>>, globMatches: (string, JPath) -> bool): (r: bool)
    ensures patterns.None? ==> !r
    ensures r <==> patterns.Some? && exists i :: 0 <= i < |patterns.value| && globMatches(patterns.value[i], path)
  {
    match patterns
    case None => false
    case Some(ps) => AnyPatternMatches(path, ps, globMatches)
  }

  /** Whether an inclusion filter admits the path: null, empty, or some pattern matches. */
  predicate Included(path: JPath, inclusions: Option<seq<string>>, globMatches: (string, JPath) -> bool) {
    inclusions.None? || |inclusions.value| == 0 || MatchPatterns(path, inclusions, globMatches)
  }

  /** Whether one raw entry of a project claims the path. */
  predicate EntryOwns(e: RawEntry, path: JPath, globMatches: (string, JPath) -> bool) {
    && e.kind == SourceKind
    && e.memberExists
    && |e.path| > 0
    && StartsWith(path, Parse(e.path))
    && !MatchPatterns(path, e.exclusions, globMatches)
    && Included(path, e.inclusions, globMatches)
  }

  /** Reference definition: a project owns the path when its raw classpath is present and some entry claims it. */
  predicate ProjectOwns(p: Project, path: JPath, globMatches: (string, JPath) -> bool) {
    p.rawClasspath.Some? &&
    exists i :: 0 <= i < |p.rawClasspath.value| && EntryOwns(p.rawClasspath.value[i], path, globMatches)
  }

  /** The inner loop over one project's raw entries, returning at the first entry that claims the path. */
  function AnyEntryOwns(entries: seq<RawEntry>, path: JPath, globMatches: (string, JPath) -> bool): (r: bool)
    ensures r <==> exists i :: 0 <= i < |entries| && EntryOwns(entries[i], path, globMatches)
  {
    if |entries| == 0 then false
    else if EntryOwns(entries[0], path, globMatches) then true
    else
      assert forall i :: 1 <= i < |entries| ==> entries[i] == entries[1..][i - 1];
      AnyEntryOwns(entries[1..], path, globMatches)
  }

  /** The outer loop over the projects: a project with a null raw classpath is skipped. */
  function FirstOwningProject(projects: seq<Project>, path: JPath, globMatches: (string, JPath) -> bool): (r: Option<Project>)
    ensures r.None? <==> forall i :: 0 <= i < |projects| ==> !ProjectOwns(projects[i], path, globMatches)
    ensures r.Some? ==> exists i :: 0 <= i < |projects| && projects[i] == r.value && ProjectOwns(projects[i], path, globMatches)
                                    && forall j :: 0 <= j < i ==> !ProjectOwns(projects[j], path, globMatches)
  {
    if |projects| == 0 then None
    else
      var p := projects[0];
      if p.rawClasspath.Some? && AnyEntryOwns(p.rawClasspath.value, path, globMatches) then Some(p)
      else
        var r := FirstOwningProject(projects[1..], path, globMatches);
        OwnerAfterNonOwner(projects, path, globMatches, r);
        r
  }

  /** Moving the search one project on, past a project that does not own the path. */
  lemma OwnerAfterNonOwner(projects: seq<Project>, path: JPath, globMatches: (string, JPath) -> bool, r: Option<Project>)
    requires |projects| > 0 && !ProjectOwns(projects[0], path, globMatches)
    requires r.None? <==> forall i :: 0 <= i < |projects[1..]| ==> !ProjectOwns(projects[1..][i], path, globMatches)
    requires r.Some? ==> exists i :: 0 <= i < |projects[1..]| && projects[1..][i] == r.value
                                    && ProjectOwns(projects[1..][i], path, globMatches)
                                    && forall j :: 0 <= j < i ==> !ProjectOwns(projects[1..][j], path, globMatches)
    ensures r.None? <==> forall i :: 0 <= i < |projects| ==> !ProjectOwns(projects[i], path, globMatches)
    ensures r.Some? ==> exists i :: 0 <= i < |projects| && projects[i] == r.value && ProjectOwns(projects[i], path, globMatches)
                                    && forall j :: 0 <= j < i ==> !ProjectOwns(projects[j], path, globMatches)
  {
    var tail := projects[1..];
    assert forall i :: 1 <= i < |projects| ==> projects[i] == tail[i - 1];
    if r.Some? {
      var k :| 0 <= k < |tail| && tail[k] == r.value && ProjectOwns(tail[k], path, globMatches)
               && forall j :: 0 <= j < k ==> !ProjectOwns(tail[j], path, globMatches);
      assert projects[k + 1] == r.value;
    }
  }

  /** `getSourceProjectForSourcePath`: the first workspace project owning the normalised source path. */
  function SourceOwner(env: Environment, sourcePath: string): (r: Option<Project>)
    ensures r.None? <==> forall i :: 0 <= i < |env.workspace| ==>
                           !ProjectOwns(env.workspace[i], NormalizedSourcePath(sourcePath), env.globMatches)
    ensures r.Some? ==> r.value in env.workspace && ProjectOwns(r.value, NormalizedSourcePath(sourcePath), env.globMatches)
  {
    FirstOwningProject(env.workspace, NormalizedSourcePath(sourcePath), env.globMatches)
  }

  /** `getSourceProjectForSourcePaths`: the owner found for the first source path, in order, that has one. */
  function SourcesOwner(env: Environment, sources: seq<string>): (r: Option<Project>)
    ensures r.Some? ==> r.value in env.workspace
  {
    if |sources| == 0 then None
    else if SourceOwner(env, sources[0]).Some? then SourceOwner(env, sources[0])
    else SourcesOwner(env, sources[1..])
  }

  // ---------------------------------------------------------------------------
  // Lemmas

  /**
    The first source path that has an owner decides: there is no owner iff no
    source path has one, and otherwise the owner is that of some source path
    all of whose predecessors have none.
   */
  lemma {:induction false} SourcesOwnerIsFirst(env: Environment, sources: seq<string>)
    ensures SourcesOwner(env, sources).None? <==> NoOwnerBefore(env, sources, |sources|)
    ensures SourcesOwner(env, sources).Some? ==>
              exists k :: 0 <= k < |sources| && SourceOwner(env, sources[k]) == SourcesOwner(env, sources)
                                             && NoOwnerBefore(env, sources, k)
  {
    if |sources| > 0 {
      if SourceOwner(env, sources[0]).Some? {
        assert NoOwnerBefore(env, sources, 0);
      } else {
        var rest := sources[1..];
        var r := SourcesOwner(env, rest);
        SourcesOwnerIsFirst(env, rest);
        ShiftNoOwner(env, sources, |rest|);
        if r.Some? {
          var k :| 0 <= k < |rest| && SourceOwner(env, rest[k]) == r && NoOwnerBefore(env, rest, k);
          ShiftNoOwner(env, sources, k);
          assert sources[k + 1] == rest[k];
        }
      }
    }
  }

  /** No source path before index `k` has an owner. */
  predicate NoOwnerBefore(env: Environment, sources: seq<string>, k: nat)
    requires k <= |sources|
  {
    forall j :: 0 <= j < k ==> SourceOwner(env, sources[j]).None?
  }

  lemma ShiftNoOwner(env: Environment, sources: seq<string>, k: nat)
    requires 0 < |sources| && k < |sources|
    requires SourceOwner(env, sources[0]).None?
    ensures NoOwnerBefore(env, sources[1..], k) <==> NoOwnerBefore(env, sources, k + 1)
  {
    assert forall j :: 1 <= j < k + 1 ==> sources[j] == sources[1..][j - 1];
  }

  /** Splitting the source list: the owner is the first part's owner if it has one, else the second part's. */
  lemma {:induction false} SourcesOwnerAppend(env: Environment, first: seq<string>, second: seq<string>)
    ensures SourcesOwner(env, first + second)
         == if SourcesOwner(env, first).Some? then SourcesOwner(env, first) else SourcesOwner(env, second)
  {
    if |first| > 0 {
      assert (first + second)[0] == first[0];
      assert (first + second)[1..] == first[1..] + second;
      SourcesOwnerAppend(env, first[1..], second);
    } else {
      assert first + second == second;
    }
  }

  /** Removing quotes works piecewise: the characters other than quotes keep their order. */
  lemma {:induction false} RemoveQuotesAppend(a: string, b: string)
    ensures RemoveQuotes(a + b) == RemoveQuotes(a) + RemoveQuotes(b)
  {
    if |a| > 0 {
      var ab := a + b;
      assert ab[0] == a[0];
      assert ab[1..] == a[1..] + b;
      RemoveQuotesAppend(a[1..], b);
      if a[0] != Quote {
        calc {
          RemoveQuotes(ab);
          [a[0]] + RemoveQuotes(a[1..] + b);
          [a[0]] + (RemoveQuotes(a[1..]) + RemoveQuotes(b));
          ([a[0]] + RemoveQuotes(a[1..])) + RemoveQuotes(b);
        }
      }
    } else {
      assert a + b == b;
    }
  }

  /**
    An entry whose exclusion patterns match the path never claims it, whatever its
    root and inclusion patterns.
   */
  lemma ExclusionWins(e: RawEntry, path: JPath, globMatches: (string, JPath) -> bool, i: nat)
    requires e.exclusions.Some? && i < |e.exclusions.value| && globMatches(e.exclusions.value[i], path)
    ensures !EntryOwns(e, path, globMatches)
  {
  }

  /**
    A project ahead of the owner in workspace order that does not own the path is
    passed over: the owner is then decided by the remaining projects.
   */
  lemma {:induction false} SkipNonOwners(projects: seq<Project>, k: nat, path: JPath, globMatches: (string, JPath) -> bool)
    requires k <= |projects|
    requires forall j :: 0 <= j < k ==> !ProjectOwns(projects[j], path, globMatches)
    ensures FirstOwningProject(projects, path, globMatches) == FirstOwningProject(projects[k..], path, globMatches)
  {
    if k > 0 {
      assert !ProjectOwns(projects[0], path, globMatches);
      assert !(projects[0].rawClasspath.Some? && AnyEntryOwns(projects[0].rawClasspath.value, path, globMatches));
      assert FirstOwningProject(projects, path, globMatches) == FirstOwningProject(projects[1..], path, globMatches);
      assert projects[1..][k - 1..] == projects[k..];
      assert forall j :: 0 <= j < k - 1 ==> projects[1..][j] == projects[j + 1];
      SkipNonOwners(projects[1..], k - 1, path, globMatches);
    }
  }
}
