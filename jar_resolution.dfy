/**
  Locating a jar that Bazel's aspect declares (`getJarPathOnDisk`) and turning a
  jar pair into a library entry (`jarsToClasspathEntry`). A declared path
  starting with "external" lives under the output base, any other under the
  execution root; a symbolic link is replaced by what it reads as (one level, not
  resolved against the file system); a missing file is only reported, and the
  path is returned all the same, as a canonical Eclipse path.
 */
module JarResolution {
  import opened JavaPaths
  import opened ClasspathTypes
  import opened EclipsePaths

  /** The prefix that marks a jar of an external repository. */
  const ExternalPrefix: string := "external"

  /** The path `Paths.get` builds for a declared jar path, before links are looked at. */
  function JoinedJarPath(env: Environment, file: string): (p: JPath)
    ensures WellFormed(p)
    ensures ExternalPrefix <= file && |env.outputBase| > 0 ==> StartsWith(p, Parse(env.outputBase))
    ensures !(ExternalPrefix <= file) && |env.execRoot| > 0 ==> StartsWith(p, Parse(env.execRoot))
  {
    if ExternalPrefix <= file then
      if |env.outputBase| > 0 then ResolveUnderBase(env.outputBase, file); Resolve(env.outputBase, file)
      else Resolve(env.outputBase, file)
    else
      if |env.execRoot| > 0 then ResolveUnderBase(env.execRoot, file); Resolve(env.execRoot, file)
      else Resolve(env.execRoot, file)
  }

  /**
    `getJarPathOnDisk`: null for a null declared path, otherwise the located path
    as `Path.fromOSString(path.toString())` gives it.
   */
  function JarPathOnDisk(env: Environment, file: Option<string>): (r: Option<JPath>)
    ensures r.Some? <==> file.Some?
    ensures r.Some? ==> WellFormed(r.value) && IsCanonical(r.value)
  {
    match file
    case None => None
    case Some(f) =>
      var path := JoinedJarPath(env, f);
      var located :=
        if path in env.fs.links && env.fs.links[path].Some? then env.fs.links[path].value else path;
      Some(Canonical(Parse(Format(located))))
  }

  /**
    Whether `getJarPathOnDisk` writes its "does not exist on the filesystem" error:
    the symbolic link cannot be read, or the path is no link and does not exist.
   */
  function ReportsMissingJar(env: Environment, file: Option<string>): (r: bool)
    ensures r ==> file.Some?
    ensures (file.Some? && JoinedJarPath(env, file.value) in env.fs.existing
             && JoinedJarPath(env, file.value) !in env.fs.links) ==> !r
    ensures (file.Some? && JoinedJarPath(env, file.value) in env.fs.links
             && env.fs.links[JoinedJarPath(env, file.value)].Some?) ==> !r
    ensures (file.Some? && JoinedJarPath(env, file.value) !in env.fs.links
             && JoinedJarPath(env, file.value) !in env.fs.existing) ==> r
    ensures (file.Some? && JoinedJarPath(env, file.value) in env.fs.links
             && env.fs.links[JoinedJarPath(env, file.value)].None?) ==> r
  {
    file.Some? &&
    var path := JoinedJarPath(env, file.value);
    if path in env.fs.links then env.fs.links[path].None? else path !in env.fs.existing
  }

  /** `jarsToClasspathEntry`: a library entry exactly when the primary jar is declared. */
  function JarsToClasspathEntry(env: Environment, pair: JarPair): (r: Option<ClasspathEntry>)
    ensures r.Some? <==> pair.jar.Some?
    ensures r.Some? ==> r.value.LibraryEntry? && (r.value.srcJarPath.Some? <==> pair.srcJar.Some?)
    ensures r.Some? ==> r.value == LibraryEntry(JarPathOnDisk(env, pair.jar).value, JarPathOnDisk(env, pair.srcJar))
  {
    var jarPath := JarPathOnDisk(env, pair.jar);
    if jarPath.Some? then
      Some(LibraryEntry(jarPath.value, JarPathOnDisk(env, pair.srcJar)))
    else
      None
  }

  // ---------------------------------------------------------------------------
  // Lemmas

  /**
    A declared jar that is no symbolic link, or whose link cannot be read, is
    returned as joined, whether or not it exists.
   */
  lemma UnlinkedJarIsJoinedPath(env: Environment, f: string)
    requires var path := JoinedJarPath(env, f); path !in env.fs.links || env.fs.links[path].None?
    ensures JarPathOnDisk(env, Some(f)) == Some(Canonical(JoinedJarPath(env, f)))
  {
    ParseFormat(JoinedJarPath(env, f));
  }

  /** A jar whose path starts with "external" and is no link lies under the output base. */
  lemma ExternalJarUnderOutputBase(env: Environment, f: string)
    requires ExternalPrefix <= f
    requires |env.outputBase| > 0
    requires Resolve(env.outputBase, f) !in env.fs.links
    ensures JarPathOnDisk(env, Some(f)) == Some(Canonical(Resolve(env.outputBase, f)))
    ensures DotFree(Parse(env.outputBase).names) && DotFree(Segments(f)) ==>
              && JarPathOnDisk(env, Some(f)) == Some(Resolve(env.outputBase, f))
              && StartsWith(JarPathOnDisk(env, Some(f)).value, Parse(env.outputBase))
              && JarPathOnDisk(env, Some(f)).value.names == Parse(env.outputBase).names + Segments(f)
  {
    UnlinkedJarIsJoinedPath(env, f);
    ResolveUnderBase(env.outputBase, f);
    if DotFree(Parse(env.outputBase).names) && DotFree(Segments(f)) {
      PlainResolveIsCanonical(env.outputBase, f);
    }
  }

  /** Any other jar that is no link lies under the execution root. */
  lemma WorkspaceJarUnderExecRoot(env: Environment, f: string)
    requires !(ExternalPrefix <= f)
    requires |env.execRoot| > 0
    requires Resolve(env.execRoot, f) !in env.fs.links
    ensures JarPathOnDisk(env, Some(f)) == Some(Canonical(Resolve(env.execRoot, f)))
    ensures DotFree(Parse(env.execRoot).names) && DotFree(Segments(f)) ==>
              && JarPathOnDisk(env, Some(f)) == Some(Resolve(env.execRoot, f))
              && StartsWith(JarPathOnDisk(env, Some(f)).value, Parse(env.execRoot))
              && JarPathOnDisk(env, Some(f)).value.names == Parse(env.execRoot).names + Segments(f)
  {
    UnlinkedJarIsJoinedPath(env, f);
    ResolveUnderBase(env.execRoot, f);
    if DotFree(Parse(env.execRoot).names) && DotFree(Segments(f)) {
      PlainResolveIsCanonical(env.execRoot, f);
    }
  }

  /**
    A readable symbolic link is replaced by the target it reads as, one level only:
    the target is not itself looked up again, nor checked for existence.
   */
  lemma LinkedJarIsLinkTarget(env: Environment, f: string)
    requires var path := JoinedJarPath(env, f); path in env.fs.links && env.fs.links[path].Some?
    requires WellFormed(env.fs.links[JoinedJarPath(env, f)].value)
    ensures JarPathOnDisk(env, Some(f)) == Some(Canonical(env.fs.links[JoinedJarPath(env, f)].value))
    ensures !ReportsMissingJar(env, Some(f))
  {
    ParseFormat(env.fs.links[JoinedJarPath(env, f)].value);
  }

  /** Whenever the missing-jar error is written, the joined path is still returned. */
  lemma MissingJarStillReturned(env: Environment, f: string)
    requires ReportsMissingJar(env, Some(f))
    ensures JarPathOnDisk(env, Some(f)) == Some(Canonical(JoinedJarPath(env, f)))
  {
    UnlinkedJarIsJoinedPath(env, f);
  }
}
