/**
  The values the classpath container works on: workspace projects and their raw
  source entries, the per-target package information Bazel's aspect reports,
  the file-system facts probed while locating jars, and the classpath entries
  handed back to JDT.
 */
module ClasspathTypes {
  import opened JavaPaths

  /** A Java reference that may be null. */
  datatype Option<T> = None | Some(value: T)

  /** The kinds of raw classpath entries; only source entries take part in ownership. */
  datatype EntryKind = SourceKind | LibraryKind | ProjectKind | ContainerKind | VariableKind

  /**
    One raw classpath entry of a workspace project: its workspace path (as
    `entry.getPath().toString()` prints it), whether the workspace holds a member
    at that path, and its inclusion and exclusion glob patterns (either array may
    be null).
   */
  datatype RawEntry = RawEntry(
    kind: EntryKind,
    path: string,
    memberExists: bool,
    inclusions: Option<seq<string>>,
    exclusions: Option<seq<string>>)

  /**
    A workspace project: its name, its full workspace path (`/name`) and its raw
    classpath, which may be null.
   */
  datatype Project = Project(name: string, fullPath: string, rawClasspath: Option<seq<RawEntry>>)

  /** One `AspectOutputJars`: a jar and its sources jar, either of which may be null. */
  datatype JarPair = JarPair(jar: Option<string>, srcJar: Option<string>)

  /** One `AspectPackageInfo`: the target's source paths, its generated jars and its jars. */
  datatype PackageInfo = PackageInfo(sources: seq<string>, generatedJars: seq<JarPair>, jars: seq<JarPair>)

  /** An entry of the computed classpath: a project entry (by full path) or a library entry. */
  datatype ClasspathEntry =
    | ProjectEntry(projectPath: string)
    | LibraryEntry(jarPath: JPath, srcJarPath: Option<JPath>)

  /**
    What the file system answers. `links` holds the symbolic links: a link maps to
    `Some(target)` when `readSymbolicLink` returns that target and to `None` when
    reading it throws. `existing` holds the paths `Files.exists` confirms.
   */
  datatype FileSystem = FileSystem(links: map<JPath, Option<JPath>>, existing: set<JPath>)

  /**
    Everything the container consults besides its own fields: the workspace's
    projects in order, the glob matcher (`PathMatcher` for `glob:<pattern>`), the
    Bazel output base and execution root, and the file system.
   */
  datatype Environment = Environment(
    workspace: seq<Project>,
    globMatches: (string, JPath) -> bool,
    outputBase: string,
    execRoot: string,
    fs: FileSystem)
}
