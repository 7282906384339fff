/**
  Eclipse's `org.eclipse.core.runtime.Path`, as far as the classpath container
  uses it: `Path.fromOSString` keeps a path canonical. Every "." name is dropped
  (unless it is the path's only name) and every ".." cancels the name before it;
  a ".." with nothing left to cancel is dropped from an absolute path and kept at
  the front of a relative one.
 */
module EclipsePaths {
  import opened JavaPaths

  const Current: string := "."
  const Parent: string := ".."

  /** Whether a name is "." or "..". */
  predicate IsDotName(s: string) {
    s == Current || s == Parent
  }

  /** No "." or ".." name anywhere. */
  predicate DotFree(names: seq<string>) {
    forall i :: 0 <= i < |names| ==> !IsDotName(names[i])
  }

  /** Every ".." comes before every other name. */
  predicate LeadingParents(names: seq<string>) {
    forall i, j :: 0 <= i < j < |names| && names[j] == Parent ==> names[i] == Parent
  }

  /** What a canonical path looks like. */
  predicate IsCanonical(p: JPath) {
    p.names == [Current] ||
    (&& Current !in p.names
     && (p.absolute ==> Parent !in p.names)
     && LeadingParents(p.names))
  }

  /** One name pushed onto the names collapsed so far (one step of `collapseParentReferences`). */
  function Push(absolute: bool, stack: seq<string>, name: string): seq<string>
  {
    if name == Parent then
      if |stack| == 0 then (if absolute then [] else [Parent])
      else if stack[|stack| - 1] == Parent then stack + [Parent]
      else stack[..|stack| - 1]
    else if name == Current then stack
    else stack + [name]
  }

  lemma PushKeepsForm(absolute: bool, stack: seq<string>, name: string)
    requires Current !in stack && (absolute ==> Parent !in stack) && LeadingParents(stack)
    ensures var r := Push(absolute, stack, name);
            Current !in r && (absolute ==> Parent !in r) && LeadingParents(r)
            && forall x :: x in r ==> x in stack || x == name
  {
    if name == Parent && |stack| > 0 && stack[|stack| - 1] == Parent {
      var r := stack + [Parent];
      forall i, j | 0 <= i < j < |r| && r[j] == Parent
        ensures r[i] == Parent
      {
        if j < |stack| {
          assert stack[j] == Parent;
        } else if i < |stack| - 1 {
          assert stack[|stack| - 1] == Parent;
        }
      }
    }
  }

  /** The names left once every name has been pushed, left to right. */
  function Collapse(absolute: bool, names: seq<string>): (r: seq<string>)
    ensures Current !in r
    ensures absolute ==> Parent !in r
    ensures LeadingParents(r)
    ensures forall x :: x in r ==> x in names
    decreases |names|
  {
    if |names| == 0 then []
    else
      var init := names[..|names| - 1];
      var stack := Collapse(absolute, init);
      PushKeepsForm(absolute, stack, names[|names| - 1]);
      assert forall x :: x in init ==> x in names;
      Push(absolute, stack, names[|names| - 1])
  }

  /** `Path.fromOSString(s)` for the parsed path of `s`: the canonical form. */
  function Canonical(p: JPath): (c: JPath)
    ensures c.absolute == p.absolute
    ensures IsCanonical(c)
    ensures WellFormed(p) ==> WellFormed(c)
  {
    if p.names == [Current] then p
    else
      var c := JPath(p.absolute, Collapse(p.absolute, p.names));
      assert forall i :: 0 <= i < |c.names| ==> c.names[i] in p.names;
      c
  }

  // ---------------------------------------------------------------------------
  // Lemmas

  lemma {:induction false} CollapseDotFree(absolute: bool, names: seq<string>)
    requires DotFree(names)
    ensures Collapse(absolute, names) == names
    decreases |names|
  {
    if |names| > 0 {
      var init := names[..|names| - 1];
      assert DotFree(init) by {
        assert forall i :: 0 <= i < |init| ==> init[i] == names[i];
      }
      CollapseDotFree(absolute, init);
      assert init + [names[|names| - 1]] == names;
    }
  }

  /** A path without "." or ".." names is already canonical: Eclipse keeps it as it is. */
  lemma CanonicalOfPlainPath(p: JPath)
    requires DotFree(p.names)
    ensures Canonical(p) == p
  {
    if p.names != [Current] {
      CollapseDotFree(p.absolute, p.names);
    }
  }

  /** `Paths.get(base, file)` of plain parts is canonical already. */
  lemma PlainResolveIsCanonical(base: string, file: string)
    requires DotFree(Segments(base)) && DotFree(Segments(file))
    ensures Canonical(Resolve(base, file)) == Resolve(base, file)
  {
    DotFreeAppend(Segments(base), Segments(file));
    CanonicalOfPlainPath(Resolve(base, file));
  }

  lemma DotFreeAppend(a: seq<string>, b: seq<string>)
    requires DotFree(a) && DotFree(b)
    ensures DotFree(a + b)
  {
    assert forall i :: |a| <= i < |a + b| ==> (a + b)[i] == b[i - |a|];
  }

  lemma {:induction false} CollapseOfCanonical(absolute: bool, names: seq<string>)
    requires Current !in names && (absolute ==> Parent !in names) && LeadingParents(names)
    ensures Collapse(absolute, names) == names
    decreases |names|
  {
    if |names| > 0 {
      var init := names[..|names| - 1];
      var last := names[|names| - 1];
      assert names == init + [last];
      assert Current !in init && (absolute ==> Parent !in init);
      assert LeadingParents(init) by {
        forall i, j | 0 <= i < j < |init| && init[j] == Parent
          ensures init[i] == Parent
        {
          assert names[j] == Parent;
        }
      }
      CollapseOfCanonical(absolute, init);
      if last == Parent && |init| > 0 {
        assert names[|init| - 1] == Parent;
      }
    }
  }

  /** Canonicalising twice is canonicalising once. */
  lemma CanonicalIdempotent(p: JPath)
    ensures Canonical(Canonical(p)) == Canonical(p)
  {
    var c := Canonical(p);
    if c.names != [Current] {
      CollapseOfCanonical(c.absolute, c.names);
    }
  }

  /** A name followed by ".." cancels out. */
  lemma ParentCancelsName(absolute: bool, names: seq<string>, name: string)
    requires !IsDotName(name)
    ensures Collapse(absolute, names + [name, Parent]) == Collapse(absolute, names)
  {
    var all := names + [name, Parent];
    assert all[..|all| - 1] == names + [name];
    assert (names + [name])[..|names|] == names;
  }

  /** For instance, `/ob/external/../foo.jar` becomes `/ob/foo.jar`. */
  lemma ParentOfExternalCollapses()
    ensures Canonical(JPath(true, ["ob", "external", Parent, "foo.jar"])) == JPath(true, ["ob", "foo.jar"])
  {
    ParentCancelsName(true, ["ob"], "external");
    var names := ["ob", "external", Parent, "foo.jar"];
    assert names[..3] == ["ob"] + ["external", Parent];
    CollapseDotFree(true, ["ob"]);
  }
}
