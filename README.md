# Bazel classpath container, modelled in Dafny

This project models the classpath container of the Bazel Eclipse/JDT language
server plug-in (`BazelClasspathContainer`). For one Java project the container
decides which classpath JDT gets:

- a **cache** of the last computed classpath, reused for 30 000 ms unless a
  bulk import is in progress, dropped when older, written only by a pass that
  succeeded, and emptied for every container by `clean()`;
- the **assembly loop** over the package infos that Bazel's aspect reports: a
  target whose sources no workspace project owns contributes one library
  entry per declared jar (generated jars first); a target owned by the current
  project contributes nothing; a target owned by another project contributes
  one project entry (deduplicated by full path) and a project reference
  (deduplicated by name);
- the **source-ownership rule**: the first source path, in order, that some
  workspace project owns decides; a project owns a path when one of its source
  entries backed by a workspace member contains it component-wise, no
  exclusion glob matches, and the inclusion globs are absent, empty or match;
- **jar path resolution**: a declared path starting with `external` is joined
  to Bazel's output base, any other to the execution root; a symbolic link is
  replaced by what it reads as, one level; a missing file is reported and its
  path returned anyway, canonicalised as an Eclipse path (the one exception,
  a path directly under `/`, is listed under "Left out").

Modules, one per concern: `JavaPaths` (the java.nio path operations the
container relies on: parsing, printing, `startsWith`, `Paths.get`),
`EclipsePaths` (the canonical form Eclipse's `Path.fromOSString` gives),
`ClasspathTypes`, `SourceOwnership`, `JarResolution`, `ClasspathAssembly` (the
loop as methods, and the same loop as a fold with its lemmas) and
`ClasspathContainer` (the container class, the instance registry, the cache
lemmas). The Eclipse workspace, Bazel, the file system, the glob matcher and
the clock are inputs: an `Environment` value, a `QueryAnswer`, and the `now`,
`finishedAt` and `importInProgress` parameters of each call.

Four behaviours of the code are worth stating outright, because a reader of
the source's comments or of the jar-lookup error message might expect
otherwise:

- a library entry is emitted even when its jar does not exist on disk: the
  error is written and the path returned all the same
  (`JarResolution.MissingJarStillReturned`);
- the comment at :141-144 says the classpath is not cached during an import,
  but a successful pass stores it at :236-237 whatever the import flag
  (`ClasspathContainer.SuccessfulPassIsCached` holds with `importInProgress`);
  only the reuse of a fresh classpath is skipped during an import;
- containment of a source path is checked against the source entry's
  workspace path (:329), which overwrites the file-system location computed
  just before it (:327-328);
- the comment at :411 says reading a link fails when it does not point to a
  real file, but `Files.readSymbolicLink` only reads the link: a dangling link
  is returned as its target with no error; only a link that cannot be read at
  all is reported (`JarResolution.LinkedJarIsLinkTarget`).

The located jar path is handed to Eclipse through `Path.fromOSString` (:427),
which canonicalises it: "." names are dropped and each ".." cancels the name
before it (`EclipsePaths.Canonical`).

## Model

| member | source | states |
|---|---|---|
| `JavaPaths.Parse` | com.salesforce.b2eclipse.jdt.ls/src/main/java/com/salesforce/b2eclipse/classpath/BazelClasspathContainer.java:308-309 | a parsed path is absolute iff its text starts with the separator, and its name elements are non-empty and free of separators |
| `JavaPaths.ParseFormat` | com.salesforce.b2eclipse.jdt.ls/src/main/java/com/salesforce/b2eclipse/classpath/BazelClasspathContainer.java:427 | printing a parsed path and parsing the text gives the same path back: `path.toString()` loses nothing before Eclipse parses it |
| `JavaPaths.StartsWithComponentWise` | com.salesforce.b2eclipse.jdt.ls/src/main/java/com/salesforce/b2eclipse/classpath/BazelClasspathContainer.java:331 | `startsWith` holds iff both paths have the same kind and the shorter one's names agree with the longer one's, position by position |
| `JavaPaths.Resolve` | com.salesforce.b2eclipse.jdt.ls/src/main/java/com/salesforce/b2eclipse/classpath/BazelClasspathContainer.java:402-404 | `Paths.get(base, file)` is well formed, its names are those of `base` followed by those of `file`, and a non-empty `base` decides whether it is absolute |
| `EclipsePaths.Canonical` | com.salesforce.b2eclipse.jdt.ls/src/main/java/com/salesforce/b2eclipse/classpath/BazelClasspathContainer.java:427 | `Path.fromOSString` keeps the kind of path and gives a canonical one: no "." name (unless it is the only name), no ".." in an absolute path, and in a relative path ".." names only at the front |
| `EclipsePaths.CanonicalOfPlainPath` | com.salesforce.b2eclipse.jdt.ls/src/main/java/com/salesforce/b2eclipse/classpath/BazelClasspathContainer.java:427 | a path without "." or ".." names is left exactly as it is |
| `EclipsePaths.CanonicalIdempotent` | com.salesforce.b2eclipse.jdt.ls/src/main/java/com/salesforce/b2eclipse/classpath/BazelClasspathContainer.java:427 | canonicalising a canonical path changes nothing |
| `EclipsePaths.ParentCancelsName` | com.salesforce.b2eclipse.jdt.ls/src/main/java/com/salesforce/b2eclipse/classpath/BazelClasspathContainer.java:427 | a name followed by ".." cancels out |
| `EclipsePaths.ParentOfExternalCollapses` | com.salesforce.b2eclipse.jdt.ls/src/main/java/com/salesforce/b2eclipse/classpath/BazelClasspathContainer.java:427 | `/ob/external/../foo.jar` is handed to Eclipse as `/ob/foo.jar` |
| `EclipsePaths.PlainResolveIsCanonical` | com.salesforce.b2eclipse.jdt.ls/src/main/java/com/salesforce/b2eclipse/classpath/BazelClasspathContainer.java:402-404 | joining a base and a file without "." or ".." names gives a path Eclipse keeps as it is |
| `JavaPaths.SegmentsOfJoin` | com.salesforce.b2eclipse.jdt.ls/src/main/java/com/salesforce/b2eclipse/classpath/BazelClasspathContainer.java:402-404 | the name elements of `a/b` are those of `a` followed by those of `b` |
| `JavaPaths.ResolveUnderBase` | com.salesforce.b2eclipse.jdt.ls/src/main/java/com/salesforce/b2eclipse/classpath/BazelClasspathContainer.java:401-405 | `Paths.get(base, file)` has the names of `base` followed by those of `file`, so it starts with `base` |
| `SourceOwnership.RemoveQuotes` | com.salesforce.b2eclipse.jdt.ls/src/main/java/com/salesforce/b2eclipse/classpath/BazelClasspathContainer.java:308 | no quote is left, every other character is kept as often as it occurs, the length drops by the number of quotes, and a path without quotes is unchanged |
| `SourceOwnership.RemoveQuotesAppend` | com.salesforce.b2eclipse.jdt.ls/src/main/java/com/salesforce/b2eclipse/classpath/BazelClasspathContainer.java:308 | removing quotes works piece by piece, so the remaining characters keep their order |
| `SourceOwnership.NormalizedSourcePath` | com.salesforce.b2eclipse.jdt.ls/src/main/java/com/salesforce/b2eclipse/classpath/BazelClasspathContainer.java:308-309 | the normalised source path is absolute and its names are those of the path without quotes |
| `SourceOwnership.AnyPatternMatches` | com.salesforce.b2eclipse.jdt.ls/src/main/java/com/salesforce/b2eclipse/classpath/BazelClasspathContainer.java:353-358 | the early-return scan is true iff some pattern matches the path |
| `SourceOwnership.MatchPatterns` | com.salesforce.b2eclipse.jdt.ls/src/main/java/com/salesforce/b2eclipse/classpath/BazelClasspathContainer.java:351-361 | null patterns match nothing; otherwise true iff some pattern matches |
| `SourceOwnership.AnyEntryOwns` | com.salesforce.b2eclipse.jdt.ls/src/main/java/com/salesforce/b2eclipse/classpath/BazelClasspathContainer.java:318-341 | the scan over a project's raw entries succeeds iff some entry claims the path: source kind, member exists, non-empty path that is a component-wise prefix, no exclusion match, inclusions null, empty or matching |
| `SourceOwnership.FirstOwningProject` | com.salesforce.b2eclipse.jdt.ls/src/main/java/com/salesforce/b2eclipse/classpath/BazelClasspathContainer.java:311-344 | no result iff no project owns the path (projects with a null raw classpath never do); otherwise the first owning project in workspace order |
| `SourceOwnership.SourceOwner` | com.salesforce.b2eclipse.jdt.ls/src/main/java/com/salesforce/b2eclipse/classpath/BazelClasspathContainer.java:298-345 | no owner iff no workspace project owns the normalised path; an owner is a workspace project that owns it |
| `SourceOwnership.SourcesOwner` | com.salesforce.b2eclipse.jdt.ls/src/main/java/com/salesforce/b2eclipse/classpath/BazelClasspathContainer.java:287-296 | the owner found for a list of source paths is a workspace project; `SourcesOwnerIsFirst` says which one |
| `SourceOwnership.SourcesOwnerIsFirst` | com.salesforce.b2eclipse.jdt.ls/src/main/java/com/salesforce/b2eclipse/classpath/BazelClasspathContainer.java:287-296 | no owner iff no source path has one; otherwise the owner is that of a source path all of whose predecessors have none |
| `SourceOwnership.SourcesOwnerAppend` | com.salesforce.b2eclipse.jdt.ls/src/main/java/com/salesforce/b2eclipse/classpath/BazelClasspathContainer.java:289-294 | for a split source list, the first part's owner wins, and the second part is consulted only when the first has none |
| `SourceOwnership.ExclusionWins` | com.salesforce.b2eclipse.jdt.ls/src/main/java/com/salesforce/b2eclipse/classpath/BazelClasspathContainer.java:334 | an entry whose exclusion pattern matches never claims the path, whatever its inclusions |
| `SourceOwnership.SkipNonOwners` | com.salesforce.b2eclipse.jdt.ls/src/main/java/com/salesforce/b2eclipse/classpath/BazelClasspathContainer.java:311-343 | projects ahead in workspace order that do not own the path do not affect the result |
| `JarResolution.JoinedJarPath` | com.salesforce.b2eclipse.jdt.ls/src/main/java/com/salesforce/b2eclipse/classpath/BazelClasspathContainer.java:400-405 | a declared path starting with `external` is joined under the output base, any other under the execution root |
| `JarResolution.JarPathOnDisk` | com.salesforce.b2eclipse.jdt.ls/src/main/java/com/salesforce/b2eclipse/classpath/BazelClasspathContainer.java:396-427 | the result is null iff the declared path is null (a missing file never suppresses it), and otherwise a well-formed canonical Eclipse path |
| `JarResolution.ReportsMissingJar` | com.salesforce.b2eclipse.jdt.ls/src/main/java/com/salesforce/b2eclipse/classpath/BazelClasspathContainer.java:409-425 | the error is written exactly when the declared path is a link that cannot be read, or is no link and does not exist; never for an existing plain file or a link that can be read |
| `JarResolution.UnlinkedJarIsJoinedPath` | com.salesforce.b2eclipse.jdt.ls/src/main/java/com/salesforce/b2eclipse/classpath/BazelClasspathContainer.java:409-427 | a jar that is no link, or whose link cannot be read, is returned as the joined path, canonicalised, existing or not |
| `JarResolution.ExternalJarUnderOutputBase` | com.salesforce.b2eclipse.jdt.ls/src/main/java/com/salesforce/b2eclipse/classpath/BazelClasspathContainer.java:401-402 | a declared path starting with `external` that is no link resolves to the canonical joined path; without "." or ".." names, that is the output base with the file's names appended |
| `JarResolution.WorkspaceJarUnderExecRoot` | com.salesforce.b2eclipse.jdt.ls/src/main/java/com/salesforce/b2eclipse/classpath/BazelClasspathContainer.java:403-405 | any other declared path that is no link resolves to the canonical joined path; without "." or ".." names, that is the execution root with the file's names appended |
| `JarResolution.LinkedJarIsLinkTarget` | com.salesforce.b2eclipse.jdt.ls/src/main/java/com/salesforce/b2eclipse/classpath/BazelClasspathContainer.java:409-412 | a readable link is replaced by the canonical form of the target it reads as, one level, and no error is reported |
| `JarResolution.MissingJarStillReturned` | com.salesforce.b2eclipse.jdt.ls/src/main/java/com/salesforce/b2eclipse/classpath/BazelClasspathContainer.java:413-427 | whenever the missing-jar error is reported, the canonical joined path is still returned |
| `JarResolution.JarsToClasspathEntry` | com.salesforce.b2eclipse.jdt.ls/src/main/java/com/salesforce/b2eclipse/classpath/BazelClasspathContainer.java:363-375 | a library entry exactly when the primary jar is declared, whose jar path is the located primary jar and whose sources path is the located sources jar (null iff that is not declared) |
| `ClasspathAssembly.LibraryEntries` | com.salesforce.b2eclipse.jdt.ls/src/main/java/com/salesforce/b2eclipse/classpath/BazelClasspathContainer.java:188-197 | a jar loop yields only library entries, at most one per pair, and one for every pair iff no primary jar is null |
| `ClasspathAssembly.AppendLibraryEntries` | com.salesforce.b2eclipse.jdt.ls/src/main/java/com/salesforce/b2eclipse/classpath/BazelClasspathContainer.java:188-207 | the jar loop, given `jarsToClasspathEntry` as the lookup, appends exactly the pairs' library entries in order, and asks for a flush iff some primary jar is null |
| `ClasspathAssembly.AddProjectReference` | com.salesforce.b2eclipse.jdt.ls/src/main/java/com/salesforce/b2eclipse/classpath/BazelClasspathContainer.java:434-455 | with a reference of that name the list is unchanged; otherwise the project is appended after the existing references |
| `ClasspathAssembly.WithReference` | com.salesforce.b2eclipse.jdt.ls/src/main/java/com/salesforce/b2eclipse/classpath/BazelClasspathContainer.java:446-452 | afterwards a reference of that name exists, the old list is a prefix, and at most one reference was added |
| `ClasspathAssembly.WithReferenceIdempotent` | com.salesforce.b2eclipse.jdt.ls/src/main/java/com/salesforce/b2eclipse/classpath/BazelClasspathContainer.java:438-453 | adding the same reference twice is the same as adding it once |
| `ClasspathAssembly.WithReferenceKeepsNamesUnique` | com.salesforce.b2eclipse.jdt.ls/src/main/java/com/salesforce/b2eclipse/classpath/BazelClasspathContainer.java:440-446 | a reference list without duplicate names stays without them |
| `ClasspathAssembly.UnitStep` | com.salesforce.b2eclipse.jdt.ls/src/main/java/com/salesforce/b2eclipse/classpath/BazelClasspathContainer.java:182-224 | one package info only appends entries, adds paths, raises the flush request and extends the references; the references change only for a foreign owner, by `addProjectReference` |
| `ClasspathAssembly.AssembleFrom` | com.salesforce.b2eclipse.jdt.ls/src/main/java/com/salesforce/b2eclipse/classpath/BazelClasspathContainer.java:181-225 | the loop keeps its invariant (added paths are exactly the project entries, none twice, never the current project) and only extends the references |
| `ClasspathAssembly.Assemble` | com.salesforce.b2eclipse.jdt.ls/src/main/java/com/salesforce/b2eclipse/classpath/BazelClasspathContainer.java:166-225 | the pass's result holds no duplicate project entry and none for the current project, and keeps the existing references at the front |
| `ClasspathAssembly.AssembleClasspath` | com.salesforce.b2eclipse.jdt.ls/src/main/java/com/salesforce/b2eclipse/classpath/BazelClasspathContainer.java:166-225 | the loop's entries, references and flush request are those of the pass `Assemble` |
| `ClasspathAssembly.AssembleFromAppend` | com.salesforce.b2eclipse.jdt.ls/src/main/java/com/salesforce/b2eclipse/classpath/BazelClasspathContainer.java:181 | the pass over two runs of package infos is the pass over the first continued over the second |
| `ClasspathAssembly.SelfOwnedUnitIgnored` | com.salesforce.b2eclipse.jdt.ls/src/main/java/com/salesforce/b2eclipse/classpath/BazelClasspathContainer.java:208-211 | a package info owned by the current project adds no entry and no reference: removing it changes nothing |
| `ClasspathAssembly.ProjectEntryIffForeignOwner` | com.salesforce.b2eclipse.jdt.ls/src/main/java/com/salesforce/b2eclipse/classpath/BazelClasspathContainer.java:212-219 | the result holds a project entry for a path iff some package info is owned by another project with that full path |
| `ClasspathAssembly.FlushIffNullJar` | com.salesforce.b2eclipse.jdt.ls/src/main/java/com/salesforce/b2eclipse/classpath/BazelClasspathContainer.java:185-207 | a flush of the aspect cache is asked for iff some package info without an owner declares a null jar |
| `ClasspathAssembly.ForeignOwnersReferenced` | com.salesforce.b2eclipse.jdt.ls/src/main/java/com/salesforce/b2eclipse/classpath/BazelClasspathContainer.java:221-223 | after the pass the current project references every foreign owner by name |
| `ClasspathAssembly.ReferencesOnlyForeignOwners` | com.salesforce.b2eclipse.jdt.ls/src/main/java/com/salesforce/b2eclipse/classpath/BazelClasspathContainer.java:212-223 | every reference after the pass was there before or is the foreign owner of some package info |
| `ClasspathAssembly.ReferencesStayUnique` | com.salesforce.b2eclipse.jdt.ls/src/main/java/com/salesforce/b2eclipse/classpath/BazelClasspathContainer.java:208-223 | references without duplicate names stay without them across the pass |
| `ClasspathAssembly.LibrariesOfAssemble` | com.salesforce.b2eclipse.jdt.ls/src/main/java/com/salesforce/b2eclipse/classpath/BazelClasspathContainer.java:185-207 | the library entries of the result are, in order, those of the unowned package infos, generated jars before jars |
| `ClasspathContainer.AfterExpiryCheck` | com.salesforce.b2eclipse.jdt.ls/src/main/java/com/salesforce/b2eclipse/classpath/BazelClasspathContainer.java:134-137 | an expired classpath is dropped before computing, anything else kept, and the put time is never touched |
| `ClasspathContainer.GetClasspathEntriesSpec` | com.salesforce.b2eclipse.jdt.ls/src/main/java/com/salesforce/b2eclipse/classpath/BazelClasspathContainer.java:117-241 | entries come back iff there is a workspace root; Bazel is queried iff there is one, the project is not the workspace project, and the cache is not fresh or an import is in progress; the cache changes only by expiry or by storing a queried result with the finish time, which is then what is returned |
| `ClasspathContainer.BazelClasspathContainer.GetClasspathEntries` | com.salesforce.b2eclipse.jdt.ls/src/main/java/com/salesforce/b2eclipse/classpath/BazelClasspathContainer.java:117-241 | response, query, references, flush request and new cache fields are those of one call of `GetClasspathEntriesSpec` from the old cache fields |
| `ClasspathContainer.BazelClasspathContainer.constructor` | com.salesforce.b2eclipse.jdt.ls/src/main/java/com/salesforce/b2eclipse/classpath/BazelClasspathContainer.java:98-107 | a new container has no cached classpath and put time 0, and is appended to the registry |
| `ClasspathContainer.Registry.Clean` | com.salesforce.b2eclipse.jdt.ls/src/main/java/com/salesforce/b2eclipse/classpath/BazelClasspathContainer.java:109-114 | every registered container ends with no cached classpath and put time 0 |
| `ClasspathContainer.BazelClasspathContainer.IsValid` | com.salesforce.b2eclipse.jdt.ls/src/main/java/com/salesforce/b2eclipse/classpath/BazelClasspathContainer.java:258-280 | false without a workspace root or runner; true for the workspace project; otherwise true iff the build reports no problem |
| `ClasspathContainer.CacheHit` | com.salesforce.b2eclipse.jdt.ls/src/main/java/com/salesforce/b2eclipse/classpath/BazelClasspathContainer.java:134-151 | a fresh cached classpath outside an import is returned as it is, without a query and without any change |
| `ClasspathContainer.ImportRecomputes` | com.salesforce.b2eclipse.jdt.ls/src/main/java/com/salesforce/b2eclipse/classpath/BazelClasspathContainer.java:139-147 | during an import Bazel is queried even though the cache is fresh |
| `ClasspathContainer.ExpiryBoundary` | com.salesforce.b2eclipse.jdt.ls/src/main/java/com/salesforce/b2eclipse/classpath/BazelClasspathContainer.java:136-137 | an age of exactly 30000 ms is a hit; one more millisecond forces a query, and a failed query then leaves the cache empty |
| `ClasspathContainer.SuccessfulPassIsCached` | com.salesforce.b2eclipse.jdt.ls/src/main/java/com/salesforce/b2eclipse/classpath/BazelClasspathContainer.java:235-240 | a successful pass returns the assembled entries, stores them with the time the pass finished, and hands back the pass's references and flush request |
| `ClasspathContainer.FailedPassIsNotCached` | com.salesforce.b2eclipse.jdt.ls/src/main/java/com/salesforce/b2eclipse/classpath/BazelClasspathContainer.java:226-233 | a failed query returns no entries, keeps the references, asks for no flush and writes neither cache field: a fresh classpath survives, an expired one is gone |
| `ClasspathContainer.SecondCallWithinTimeoutHits` | com.salesforce.b2eclipse.jdt.ls/src/main/java/com/salesforce/b2eclipse/classpath/BazelClasspathContainer.java:134-150 | after a successful pass, a call within the timeout outside an import returns the same classpath without querying |
| `ClasspathContainer.CleanForcesRecompute` | com.salesforce.b2eclipse.jdt.ls/src/main/java/com/salesforce/b2eclipse/classpath/BazelClasspathContainer.java:109-114 | from the cleaned cache state the next call of a Bazel project always queries |
| `ClasspathContainer.WorkspaceProjectIsEmpty` | com.salesforce.b2eclipse.jdt.ls/src/main/java/com/salesforce/b2eclipse/classpath/BazelClasspathContainer.java:158-161 | the Bazel workspace project gets an empty classpath, import or not, without a query and without caching |
| `ClasspathContainer.WorkspaceProjectNeverCaches` | com.salesforce.b2eclipse.jdt.ls/src/main/java/com/salesforce/b2eclipse/classpath/BazelClasspathContainer.java:158-161 | from a new container's empty cache, the workspace project's cache stays empty over any run of calls |

## Left out

- The Eclipse workspace and project model: a project is a `Project` record (name, full path, raw classpath); a raw entry is a `RawEntry` whose "member exists" flag stands for `findMemberInWorkspace`; the current project's references are a parameter and a result of each call.
- Bazel calls: `getAspectPackageInfos` is the `QueryAnswer` parameter (package infos in the map's iteration order, or the error kind); output base and execution root are strings of the `Environment`; `flushAspectInfoCache` is the `flushRequested` result; the markers of `runBazelBuild` are a parameter of `IsValid`.
- File-system probes: `Files.isSymbolicLink`, `readSymbolicLink` and `Files.exists` are answered by the `FileSystem` value; what a link reads as, and whether reading it throws, is given.
- Logging and `printDirectoryDiagnostics`: output only; `JarResolution.ReportsMissingJar` says when the missing-jar error is written.
- Glob semantics of `PathMatcher`: the matcher is the `globMatches` parameter.
- Concurrency: the `synchronized` block is not modelled, each call is atomic, and the read of `cachedEntries` after the block (:240) is taken to see the value just stored.
- The clock: the reads of `System.currentTimeMillis` at :135 and :236 are the parameters `now` and `finishedAt`; `long` overflow of `now - cachePutTimeMillis` is not modelled (integers are unbounded).
- Eclipse paths: only the canonicalisation of `Path.fromOSString` is modelled; devices, UNC paths and the trailing-separator flag are not, since a path printed by java.nio on Unix has none of them.
- Paths are Unix paths with `/` as separator; Windows roots and separators are not modelled. The empty path is modelled with no name elements, where java.nio gives it one empty name; this only matters for `Paths.get("", "")`.
- The prefix `BAZELWORKSPACE_PROJECT_BASENAME` lives in `BazelNature`, which is not part of this model: it is a constructor parameter, and the project's element name and its name are taken to be the same.
- `JarResolution.MissingJarStillReturned`: does not model the `NullPointerException` the source throws after writing the error when the located path has a single name under `/`: `getParentFile().getParentFile()` at :416/:423 is then null and `printDirectoryDiagnostics` fails at :458; the model returns the path. This cannot happen with Bazel's output base and execution root, which are absolute directories several levels deep.
- `SourceOwnership.AnyEntryOwns`: does not model the `NullPointerException` of `toOSString()` at :328 for a workspace member whose `getLocation()` is null; the model goes on to the prefix test, whose outcome does not depend on that location. Members of a local workspace always have a location.
- Exceptions other than the query's: `isValid`'s checked exceptions, and any exception from `getBazelWorkspaceOutputBase`, `getBazelWorkspaceExecRoot` or the project-description helpers, are not modelled.
- `jarsToClasspathEntries` (unused) and `getDescription`, `getKind`, `getPath` are not modelled.
