/**
  One computing pass of `getClasspathEntries`: for each package info Bazel
  reports, find the workspace project that owns its sources. With no owner, the
  library entries of its generated jars and then of its jars are appended (a
  null jar asks for the aspect cache to be flushed instead). An owner that is
  the current project is skipped. Any other owner gets one project entry,
  deduplicated by full path, and a project reference from the current project
  (`addProjectReference`), deduplicated by name.
 */
module ClasspathAssembly {
  import opened JavaPaths
  import opened ClasspathTypes
  import opened SourceOwnership
  import opened JarResolution

  /**
    The two lookups the loop makes for each package info, fixed for one pass:
    the owner of a list of source paths, and the library entry of a jar pair.
   */
  datatype Lookups = Lookups(
    owner: seq<string> -> Option<Project>,
    libraryEntry: JarPair -> Option<ClasspathEntry>)

  /** The lookups of the container: `getSourceProjectForSourcePaths` and `jarsToClasspathEntry` in one environment. */
  function LookupsOf(env: Environment): (l: Lookups)
    ensures forall sources :: l.owner(sources) == SourcesOwner(env, sources)
    ensures forall pair :: l.libraryEntry(pair) == JarsToClasspathEntry(env, pair)
  {
    Lookups(sources => SourcesOwner(env, sources), pair => JarsToClasspathEntry(env, pair))
  }

  /** What `jarsToClasspathEntry` promises: a library entry exactly for a pair with a declared jar. */
  ghost predicate ValidLookups(l: Lookups) {
    forall pair :: (l.libraryEntry(pair).Some? <==> pair.jar.Some?)
                   && (l.libraryEntry(pair).Some? ==> l.libraryEntry(pair).value.LibraryEntry?)
  }

  lemma LookupsOfValid(env: Environment)
    ensures ValidLookups(LookupsOf(env))
  {
  }

  // ---------------------------------------------------------------------------
  // Library entries of one jar loop

  /** Whether some pair in `pairs` has a null primary jar. */
  predicate HasNullJar(pairs: seq<JarPair>) {
    exists i :: 0 <= i < |pairs| && pairs[i].jar.None?
  }

  lemma HasNullJarExtend(pairs: seq<JarPair>, i: nat)
    requires i < |pairs|
    ensures HasNullJar(pairs[..i + 1]) <==> HasNullJar(pairs[..i]) || pairs[i].jar.None?
  {
    assert pairs[..i + 1] == pairs[..i] + [pairs[i]];
  }

  /** The library entries one loop over jar pairs appends, in iteration order. */
  function LibraryEntries(lookups: Lookups, pairs: seq<JarPair>): (r: seq<ClasspathEntry>)
    ensures |r| <= |pairs|
    ensures ValidLookups(lookups) ==> forall i :: 0 <= i < |r| ==> r[i].LibraryEntry?
    ensures ValidLookups(lookups) ==> (|r| == |pairs| <==> !HasNullJar(pairs))
    decreases |pairs|
  {
    if |pairs| == 0 then []
    else
      var init := pairs[..|pairs| - 1];
      assert forall i :: 0 <= i < |init| ==> init[i] == pairs[i];
      var last := lookups.libraryEntry(pairs[|pairs| - 1]);
      LibraryEntries(lookups, init) + (if last.Some? then [last.value] else [])
  }

  /** One iteration of the jar loop keeps its invariant. */
  lemma JarLoopStep(lookups: Lookups, entries: seq<ClasspathEntry>, pairs: seq<JarPair>, i: nat,
                    result: seq<ClasspathEntry>, flush: bool, e: Option<ClasspathEntry>)
    requires i < |pairs|
    requires result == entries + LibraryEntries(lookups, pairs[..i])
    requires flush == HasNullJar(pairs[..i])
    requires e == lookups.libraryEntry(pairs[i])
    requires e.None? <==> pairs[i].jar.None?
    ensures (if e.Some? then result + [e.value] else result) == entries + LibraryEntries(lookups, pairs[..i + 1])
    ensures (flush || e.None?) == HasNullJar(pairs[..i + 1])
  {
    assert pairs[..i + 1][..i] == pairs[..i];
    HasNullJarExtend(pairs, i);
  }

  /**
    One of the two inner loops of the computing pass: a library entry per declared
    jar, a flush request per null jar. The entry of a pair is what
    `jarsToClasspathEntry` gives, passed in as `lookups.libraryEntry` (the caller
    passes `LookupsOf(env)`).
   */
  method AppendLibraryEntries(lookups: Lookups, entries: seq<ClasspathEntry>, pairs: seq<JarPair>)
    returns (result: seq<ClasspathEntry>, flush: bool)
    requires ValidLookups(lookups)
    ensures result == entries + LibraryEntries(lookups, pairs)
    ensures flush == HasNullJar(pairs)
  {
    result, flush := entries, false;
    for i := 0 to |pairs|
      invariant result == entries + LibraryEntries(lookups, pairs[..i])
      invariant flush == HasNullJar(pairs[..i])
    {
      var cpEntry := lookups.libraryEntry(pairs[i]);
      JarLoopStep(lookups, entries, pairs, i, result, flush, cpEntry);
      if cpEntry.Some? {
        result := result + [cpEntry.value];
      } else {
        flush := true;
      }
    }
    assert pairs[..|pairs|] == pairs;
  }

  // ---------------------------------------------------------------------------
  // Project references

  /** Whether some project in `refs` carries the name. */
  predicate HasReferenceNamed(refs: seq<Project>, name: string) {
    exists i :: 0 <= i < |refs| && refs[i].name == name
  }

  /** No two references carry the same name. */
  predicate UniqueNames(refs: seq<Project>) {
    forall i, j :: 0 <= i < j < |refs| ==> refs[i].name != refs[j].name
  }

  /** The reference list after `addProjectReference(this, that)`. */
  function WithReference(refs: seq<Project>, that: Project): (r: seq<Project>)
    ensures HasReferenceNamed(r, that.name)
    ensures refs <= r && |r| <= |refs| + 1
  {
    if HasReferenceNamed(refs, that.name) then refs
    else
      assert (refs + [that])[|refs|] == that;
      refs + [that]
  }

  /** `addProjectReference`: scan for a reference of that name; only if there is none, append the project. */
  method AddProjectReference(existing: seq<Project>, that: Project) returns (updated: seq<Project>)
    ensures HasReferenceNamed(existing, that.name) ==> updated == existing
    ensures !HasReferenceNamed(existing, that.name) ==> updated == existing + [that]
  {
    var hasRef := false;
    var i := 0;
    while i < |existing|
      invariant 0 <= i <= |existing|
      invariant hasRef <==> exists j :: 0 <= j < i && existing[j].name == that.name
      invariant hasRef ==> i < |existing|
    {
      if existing[i].name == that.name {
        hasRef := true;
        break;
      }
      i := i + 1;
    }
    if !hasRef {
      updated := existing + [that];
    } else {
      updated := existing;
    }
  }

  /** Adding the same reference twice is the same as adding it once. */
  lemma WithReferenceIdempotent(refs: seq<Project>, that: Project)
    ensures WithReference(WithReference(refs, that), that) == WithReference(refs, that)
  {
  }

  /** The reference list never holds two projects of the same name if it did not before. */
  lemma WithReferenceKeepsNamesUnique(refs: seq<Project>, that: Project)
    requires UniqueNames(refs)
    ensures UniqueNames(WithReference(refs, that))
  {
  }

  // ---------------------------------------------------------------------------
  // The computing pass as a function

  /** The pass's state: the entries so far, `projectsAddedToClasspath`, the references, whether a flush was asked for. */
  datatype Assembly = Assembly(
    entries: seq<ClasspathEntry>,
    added: set<string>,
    references: seq<Project>,
    flushRequested: bool)

  /** No project entry occurs twice. */
  predicate DistinctProjectEntries(entries: seq<ClasspathEntry>) {
    forall i, j :: 0 <= i < j < |entries| && entries[i].ProjectEntry? ==> entries[i] != entries[j]
  }

  /**
    The pass's invariant: `added` is exactly the set of paths of the project
    entries, no project entry occurs twice, and the current project is never one.
   */
  ghost predicate Consistent(current: Project, a: Assembly) {
    && (forall q :: q in a.added <==> ProjectEntry(q) in a.entries)
    && DistinctProjectEntries(a.entries)
    && current.fullPath !in a.added
  }

  /** The state of a pass that has not looked at any package info yet. */
  function Initial(refs: seq<Project>): (a: Assembly)
    ensures a.entries == [] && a.added == {} && a.references == refs && !a.flushRequested
  {
    Assembly([], {}, refs, false)
  }

  /** The project a package info refers the current project to, if the owner of its sources is another project. */
  function ForeignOwner(lookups: Lookups, current: Project, info: PackageInfo): (r: Option<Project>)
    ensures r.Some? ==> r.value.fullPath != current.fullPath && lookups.owner(info.sources) == r
    ensures r.None? ==> lookups.owner(info.sources).None? || lookups.owner(info.sources).value.fullPath == current.fullPath
  {
    var owner := lookups.owner(info.sources);
    if owner.Some? && owner.value.fullPath != current.fullPath then owner else None
  }

  /**
    What the loop body does for one package info: it only ever appends entries,
    adds paths, extends the references and raises the flush request; the
    references change only for a foreign owner.
   */
  function UnitStep(lookups: Lookups, current: Project, a: Assembly, info: PackageInfo): (r: Assembly)
    ensures a.entries <= r.entries && a.added <= r.added && a.references <= r.references
    ensures a.flushRequested ==> r.flushRequested
    ensures ForeignOwner(lookups, current, info).None? ==> r.references == a.references && r.added == a.added
    ensures ForeignOwner(lookups, current, info).Some? ==>
              r.references == WithReference(a.references, ForeignOwner(lookups, current, info).value)
  {
    match lookups.owner(info.sources)
    case None =>
      a.(entries := a.entries + LibraryEntries(lookups, info.generatedJars) + LibraryEntries(lookups, info.jars),
         flushRequested := a.flushRequested || HasNullJar(info.generatedJars) || HasNullJar(info.jars))
    case Some(other) =>
      if other.fullPath == current.fullPath then a
      else
        a.(entries := if other.fullPath in a.added then a.entries else a.entries + [ProjectEntry(other.fullPath)],
           added := a.added + {other.fullPath},
           references := WithReference(a.references, other))
  }

  /** The loop over the package infos, from a given state. */
  function AssembleFrom(lookups: Lookups, current: Project, start: Assembly, infos: seq<PackageInfo>): (a: Assembly)
    ensures ValidLookups(lookups) && Consistent(current, start) ==> Consistent(current, a)
    ensures start.references <= a.references
    decreases |infos|
  {
    if |infos| == 0 then start
    else
      var before := AssembleFrom(lookups, current, start, infos[..|infos| - 1]);
      var info := infos[|infos| - 1];
      StepKeepsConsistent(lookups, current, before, info);
      UnitStep(lookups, current, before, info)
  }

  /** The whole computing pass, starting from no entries and the project's current references. */
  function Assemble(lookups: Lookups, current: Project, refs: seq<Project>, infos: seq<PackageInfo>): (a: Assembly)
    ensures ValidLookups(lookups) ==> Consistent(current, a)
    ensures refs <= a.references
  {
    AssembleFrom(lookups, current, Initial(refs), infos)
  }

  lemma StepKeepsConsistent(lookups: Lookups, current: Project, a: Assembly, info: PackageInfo)
    ensures ValidLookups(lookups) && Consistent(current, a) ==> Consistent(current, UnitStep(lookups, current, a, info))
    ensures a.references <= UnitStep(lookups, current, a, info).references
  {
    var b := UnitStep(lookups, current, a, info);
    if ValidLookups(lookups) && Consistent(current, a) {
      match lookups.owner(info.sources)
      case None =>
        var libs := LibraryEntries(lookups, info.generatedJars) + LibraryEntries(lookups, info.jars);
        assert b.entries == a.entries + libs;
        assert forall i :: 0 <= i < |libs| ==> libs[i].LibraryEntry?;
        forall q ensures q in b.added <==> ProjectEntry(q) in b.entries {
          assert ProjectEntry(q) !in libs;
        }
      case Some(other) =>
        if other.fullPath != current.fullPath && other.fullPath !in a.added {
          assert ProjectEntry(other.fullPath) !in a.entries;
        }
    }
  }

  // ---------------------------------------------------------------------------
  // The computing pass as a loop

  /**
    The loop of `getClasspathEntries` once the package infos are known: the
    entries, the current project's references afterwards, and whether the aspect
    cache was asked to flush.
   */
  method AssembleClasspath(env: Environment, current: Project, refs: seq<Project>, infos: seq<PackageInfo>)
    returns (entries: seq<ClasspathEntry>, references: seq<Project>, flushRequested: bool)
    ensures entries == Assemble(LookupsOf(env), current, refs, infos).entries
    ensures references == Assemble(LookupsOf(env), current, refs, infos).references
    ensures flushRequested == Assemble(LookupsOf(env), current, refs, infos).flushRequested
  {
    var lookups := LookupsOf(env);
    LookupsOfValid(env);
    entries, references, flushRequested := [], refs, false;
    var added: set<string> := {};
    for i := 0 to |infos|
      invariant Assembly(entries, added, references, flushRequested)
                == AssembleFrom(lookups, current, Initial(refs), infos[..i])
    {
      assert infos[..i + 1][..i] == infos[..i];
      var info := infos[i];
      var otherProject := SourcesOwner(env, info.sources);
      if otherProject.None? {
        var flushGenerated, flushJars;
        entries, flushGenerated := AppendLibraryEntries(lookups, entries, info.generatedJars);
        entries, flushJars := AppendLibraryEntries(lookups, entries, info.jars);
        flushRequested := flushRequested || flushGenerated || flushJars;
      } else if current.fullPath == otherProject.value.fullPath {
        // the owner is the project this container is for: nothing to do
      } else {
        var projectFullPath := otherProject.value.fullPath;
        if projectFullPath !in added {
          entries := entries + [ProjectEntry(projectFullPath)];
        }
        added := added + {projectFullPath};
        references := AddProjectReference(references, otherProject.value);
      }
    }
    assert infos[..|infos|] == infos;
  }

  // ---------------------------------------------------------------------------
  // Lemmas about the computing pass

  /** The pass over two runs of package infos is the pass over the first continued over the second. */
  lemma {:induction false} AssembleFromAppend(lookups: Lookups, current: Project, start: Assembly,
                                              first: seq<PackageInfo>, second: seq<PackageInfo>)
    ensures AssembleFrom(lookups, current, start, first + second)
         == AssembleFrom(lookups, current, AssembleFrom(lookups, current, start, first), second)
    decreases |second|
  {
    if |second| == 0 {
      assert first + second == first;
    } else {
      var all := first + second;
      assert all[..|all| - 1] == first + second[..|second| - 1];
      assert all[|all| - 1] == second[|second| - 1];
      AssembleFromAppend(lookups, current, start, first, second[..|second| - 1]);
    }
  }

  /** A package info owned by the current project adds no entry and no reference: leaving it out changes nothing. */
  lemma SelfOwnedUnitIgnored(lookups: Lookups, current: Project, refs: seq<Project>,
                             before: seq<PackageInfo>, info: PackageInfo, after: seq<PackageInfo>)
    requires lookups.owner(info.sources).Some?
    requires lookups.owner(info.sources).value.fullPath == current.fullPath
    ensures Assemble(lookups, current, refs, before + [info] + after) == Assemble(lookups, current, refs, before + after)
  {
    var start := Initial(refs);
    AssembleFromAppend(lookups, current, start, before + [info], after);
    AssembleFromAppend(lookups, current, start, before, [info]);
    assert AssembleFrom(lookups, current, start, [info]) == UnitStep(lookups, current, start, info);
    assert ([info])[..0] == [];
    AssembleFromAppend(lookups, current, start, before, after);
  }

  /**
    Project entries are exactly the foreign owners: the result holds a project
    entry for a path iff some package info's sources are owned by another project
    with that full path.
   */
  lemma {:induction false} ProjectEntryIffForeignOwner(lookups: Lookups, current: Project, refs: seq<Project>,
                                                       infos: seq<PackageInfo>, q: string)
    requires ValidLookups(lookups)
    ensures ProjectEntry(q) in Assemble(lookups, current, refs, infos).entries
        <==> exists k :: 0 <= k < |infos| && ForeignOwner(lookups, current, infos[k]).Some?
                                          && ForeignOwner(lookups, current, infos[k]).value.fullPath == q
    decreases |infos|
  {
    if |infos| > 0 {
      var init := infos[..|infos| - 1];
      var info := infos[|infos| - 1];
      ProjectEntryIffForeignOwner(lookups, current, refs, init, q);
      var before := Assemble(lookups, current, refs, init);
      assert Assemble(lookups, current, refs, infos) == UnitStep(lookups, current, before, info);
      assert forall k :: 0 <= k < |init| ==> init[k] == infos[k];
      if lookups.owner(info.sources).None? {
        var libs := LibraryEntries(lookups, info.generatedJars) + LibraryEntries(lookups, info.jars);
        assert forall i :: 0 <= i < |libs| ==> libs[i].LibraryEntry?;
        assert ProjectEntry(q) !in libs;
      }
      if ForeignOwner(lookups, current, info).Some? && ForeignOwner(lookups, current, info).value.fullPath == q {
        assert ProjectEntry(q) in UnitStep(lookups, current, before, info).entries;
      }
    }
  }

  /** A flush is asked for iff some package info without an owner declares a null jar. */
  lemma {:induction false} FlushIffNullJar(lookups: Lookups, current: Project, refs: seq<Project>, infos: seq<PackageInfo>)
    ensures Assemble(lookups, current, refs, infos).flushRequested
        <==> exists k :: 0 <= k < |infos| && lookups.owner(infos[k].sources).None?
                                          && (HasNullJar(infos[k].generatedJars) || HasNullJar(infos[k].jars))
    decreases |infos|
  {
    if |infos| > 0 {
      var init := infos[..|infos| - 1];
      FlushIffNullJar(lookups, current, refs, init);
      assert forall k :: 0 <= k < |init| ==> init[k] == infos[k];
    }
  }

  /**
    After the pass, the current project references every foreign owner by name,
    and the references it had keep their order at the front.
   */
  lemma {:induction false} ForeignOwnersReferenced(lookups: Lookups, current: Project, refs: seq<Project>,
                                                   infos: seq<PackageInfo>, k: nat)
    requires k < |infos| && ForeignOwner(lookups, current, infos[k]).Some?
    ensures HasReferenceNamed(Assemble(lookups, current, refs, infos).references, ForeignOwner(lookups, current, infos[k]).value.name)
    decreases |infos|
  {
    var init := infos[..|infos| - 1];
    var before := Assemble(lookups, current, refs, init);
    var after := Assemble(lookups, current, refs, infos);
    assert after == UnitStep(lookups, current, before, infos[|infos| - 1]);
    var name := ForeignOwner(lookups, current, infos[k]).value.name;
    if k < |infos| - 1 {
      assert init[k] == infos[k];
      ForeignOwnersReferenced(lookups, current, refs, init, k);
      var i :| 0 <= i < |before.references| && before.references[i].name == name;
      assert after.references[i] == before.references[i];
    }
  }

  /** Conversely, every reference after the pass was there before or is a foreign owner of some package info. */
  lemma {:induction false} ReferencesOnlyForeignOwners(lookups: Lookups, current: Project, refs: seq<Project>,
                                                       infos: seq<PackageInfo>, r: Project)
    requires r in Assemble(lookups, current, refs, infos).references
    ensures r in refs || exists k :: 0 <= k < |infos| && ForeignOwner(lookups, current, infos[k]) == Some(r)
    decreases |infos|
  {
    if |infos| > 0 {
      var init := infos[..|infos| - 1];
      var info := infos[|infos| - 1];
      var before := Assemble(lookups, current, refs, init);
      assert Assemble(lookups, current, refs, infos) == UnitStep(lookups, current, before, info);
      if r in before.references {
        ReferencesOnlyForeignOwners(lookups, current, refs, init, r);
        assert forall k :: 0 <= k < |init| ==> init[k] == infos[k];
      } else {
        assert ForeignOwner(lookups, current, info) == Some(r);
      }
    }
  }

  /** A reference list without duplicate names stays so across the pass. */
  lemma {:induction false} ReferencesStayUnique(lookups: Lookups, current: Project, refs: seq<Project>, infos: seq<PackageInfo>)
    requires UniqueNames(refs)
    ensures UniqueNames(Assemble(lookups, current, refs, infos).references)
    decreases |infos|
  {
    if |infos| > 0 {
      var init := infos[..|infos| - 1];
      ReferencesStayUnique(lookups, current, refs, init);
      var before := Assemble(lookups, current, refs, init);
      match lookups.owner(infos[|infos| - 1].sources)
      case None =>
      case Some(other) =>
        WithReferenceKeepsNamesUnique(before.references, other);
    }
  }

  // ---------------------------------------------------------------------------
  // Library entries of the result

  /** The library entries of a classpath, in order. */
  function Libraries(entries: seq<ClasspathEntry>): (r: seq<ClasspathEntry>)
    ensures forall i :: 0 <= i < |r| ==> r[i].LibraryEntry?
    ensures |r| <= |entries|
    decreases |entries|
  {
    if |entries| == 0 then []
    else
      var last := entries[|entries| - 1];
      Libraries(entries[..|entries| - 1]) + (if last.LibraryEntry? then [last] else [])
  }

  /** The library entries the pass must produce: for each package info without an owner, its generated jars' then its jars'. */
  function ExpectedLibraries(lookups: Lookups, infos: seq<PackageInfo>): seq<ClasspathEntry>
    decreases |infos|
  {
    if |infos| == 0 then []
    else
      var info := infos[|infos| - 1];
      ExpectedLibraries(lookups, infos[..|infos| - 1])
        + (if lookups.owner(info.sources).None?
           then LibraryEntries(lookups, info.generatedJars) + LibraryEntries(lookups, info.jars)
           else [])
  }

  lemma {:induction false} LibrariesAppend(a: seq<ClasspathEntry>, b: seq<ClasspathEntry>)
    ensures Libraries(a + b) == Libraries(a) + Libraries(b)
    decreases |b|
  {
    if |b| > 0 {
      assert (a + b)[..|a + b| - 1] == a + b[..|b| - 1];
      assert (a + b)[|a + b| - 1] == b[|b| - 1];
      LibrariesAppend(a, b[..|b| - 1]);
    } else {
      assert a + b == a;
    }
  }

  lemma {:induction false} LibrariesOfLibraries(entries: seq<ClasspathEntry>)
    requires forall i :: 0 <= i < |entries| ==> entries[i].LibraryEntry?
    ensures Libraries(entries) == entries
    decreases |entries|
  {
    if |entries| > 0 {
      var init := entries[..|entries| - 1];
      LibrariesOfLibraries(init);
      assert init + [entries[|entries| - 1]] == entries;
    }
  }

  lemma LibrariesOfStep(lookups: Lookups, current: Project, a: Assembly, info: PackageInfo)
    requires ValidLookups(lookups)
    ensures Libraries(UnitStep(lookups, current, a, info).entries)
         == Libraries(a.entries) + (if lookups.owner(info.sources).None?
                                    then LibraryEntries(lookups, info.generatedJars) + LibraryEntries(lookups, info.jars)
                                    else [])
  {
    var b := UnitStep(lookups, current, a, info);
    match lookups.owner(info.sources)
    case None =>
      var libs := LibraryEntries(lookups, info.generatedJars) + LibraryEntries(lookups, info.jars);
      assert b.entries == a.entries + libs;
      LibrariesAppend(a.entries, libs);
      LibrariesOfLibraries(libs);
    case Some(other) =>
      if b.entries != a.entries {
        assert b.entries == a.entries + [ProjectEntry(other.fullPath)];
        LibrariesAppend(a.entries, [ProjectEntry(other.fullPath)]);
        assert Libraries([ProjectEntry(other.fullPath)]) == [];
      }
  }

  /**
    The library entries of the result are, in order, those of the package infos
    without an owner: generated jars before jars, one entry per declared jar.
   */
  lemma {:induction false} LibrariesOfAssemble(lookups: Lookups, current: Project, refs: seq<Project>, infos: seq<PackageInfo>)
    requires ValidLookups(lookups)
    ensures Libraries(Assemble(lookups, current, refs, infos).entries) == ExpectedLibraries(lookups, infos)
    decreases |infos|
  {
    if |infos| > 0 {
      var init := infos[..|infos| - 1];
      var info := infos[|infos| - 1];
      LibrariesOfAssemble(lookups, current, refs, init);
      var before := Assemble(lookups, current, refs, init);
      assert Assemble(lookups, current, refs, infos) == UnitStep(lookups, current, before, info);
      LibrariesOfStep(lookups, current, before, info);
    }
  }
}
