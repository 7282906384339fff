/**
  The part of java.nio path semantics on a Unix file system that the classpath
  container relies on: parsing a path string into name elements (redundant and
  trailing separators dropped), printing it back, `Path.startsWith` (a
  component-wise prefix test) and `Paths.get(first, more)` (joining two strings
  with one separator).
 */
module JavaPaths {

  /** A parsed path: whether it is absolute, and its non-empty name elements. */
  datatype JPath = JPath(absolute: bool, names: seq<string>)

  const Separator: char := '/'

  /** A single name element: non-empty and free of separators. */
  predicate IsName(s: string) {
    |s| > 0 && Separator !in s
  }

  /** What every parsed path looks like. */
  predicate WellFormed(p: JPath) {
    forall i :: 0 <= i < |p.names| ==> IsName(p.names[i])
  }

  /** The number of characters before the first separator of `s`. */
  function NameLength(s: string): (n: nat)
    ensures n <= |s|
    ensures forall i :: 0 <= i < n ==> s[i] != Separator
    ensures n < |s| ==> s[n] == Separator
  {
    if |s| == 0 || s[0] == Separator then 0 else 1 + NameLength(s[1..])
  }

  /** The name elements of a path string, left to right; empty elements are dropped. */
  function Segments(s: string): (names: seq<string>)
    ensures forall i :: 0 <= i < |names| ==> IsName(names[i])
    decreases |s|
  {
    if |s| == 0 then []
    else if s[0] == Separator then Segments(s[1..])
    else
      var n := NameLength(s);
      [s[..n]] + Segments(s[n..])
  }

  /** Parsing a path string, as `new File(s).toPath()` or `Paths.get(s)` do. */
  function Parse(s: string): (p: JPath)
    ensures WellFormed(p)
    ensures p.absolute <==> |s| > 0 && s[0] == Separator
  {
    JPath(|s| > 0 && s[0] == Separator, Segments(s))
  }

  /** The name elements joined by single separators. */
  function JoinNames(names: seq<string>): string
  {
    if |names| == 0 then ""
    else if |names| == 1 then names[0]
    else names[0] + [Separator] + JoinNames(names[1..])
  }

  /** Printing a path, as `Path.toString()` does. */
  function Format(p: JPath): string
  {
    (if p.absolute then [Separator] else []) + JoinNames(p.names)
  }

  /** `p.startsWith(q)`: same kind of path, and q's names are a prefix of p's names. */
  predicate StartsWith(p: JPath, q: JPath) {
    p.absolute == q.absolute && q.names <= p.names
  }

  /** The string `Paths.get(first, more)` parses: an empty part is skipped, otherwise one separator joins them. */
  function JoinStrings(first: string, more: string): string
  {
    if |more| == 0 then first
    else if |first| == 0 then more
    else first + [Separator] + more
  }

  /** `Paths.get(base, file)`. */
  function Resolve(base: string, file: string): (p: JPath)
    ensures WellFormed(p)
    ensures p.names == Segments(base) + Segments(file)
    ensures |base| > 0 ==> (p.absolute <==> base[0] == Separator)
  {
    if |base| > 0 && |file| > 0 then
      SegmentsOfJoin(base, file);
      Parse(JoinStrings(base, file))
    else
      Parse(JoinStrings(base, file))
  }

  // ---------------------------------------------------------------------------
  // Lemmas

  lemma {:induction false} NameLengthOfName(name: string, rest: string)
    requires IsName(name)
    requires rest == [] || rest[0] == Separator
    ensures NameLength(name + rest) == |name|
  {
    if |name| > 1 {
      assert (name + rest)[1..] == name[1..] + rest;
      NameLengthOfName(name[1..], rest);
    } else {
      assert (name + rest)[1..] == rest;
    }
  }

  lemma {:induction false} NameLengthBeforeSeparator(a: string, b: string)
    ensures NameLength(a + [Separator] + b) == NameLength(a)
  {
    if |a| > 0 && a[0] != Separator {
      assert (a + [Separator] + b)[1..] == a[1..] + [Separator] + b;
      NameLengthBeforeSeparator(a[1..], b);
    }
  }

  /** Parsing undoes joining: a path string built from name elements yields them back. */
  lemma {:induction false} SegmentsOfJoinNames(names: seq<string>)
    requires forall i :: 0 <= i < |names| ==> IsName(names[i])
    ensures Segments(JoinNames(names)) == names
  {
    if |names| == 1 {
      var s := names[0];
      NameLengthOfName(s, []);
      assert s + [] == s;
      assert s[|s|..] == [];
    } else if |names| > 1 {
      var s := names[0];
      var rest := [Separator] + JoinNames(names[1..]);
      var whole := JoinNames(names);
      assert whole == s + rest;
      NameLengthOfName(s, rest);
      assert whole[..|s|] == s;
      assert whole[|s|..] == rest;
      assert rest[1..] == JoinNames(names[1..]);
      SegmentsOfJoinNames(names[1..]);
    }
  }

  /** `Parse` and `Format` are inverse on parsed paths: printing a path and parsing the text gives the path back. */
  lemma ParseFormat(p: JPath)
    requires WellFormed(p)
    ensures Parse(Format(p)) == p
  {
    var body := JoinNames(p.names);
    SegmentsOfJoinNames(p.names);
    if p.absolute {
      assert Format(p) == [Separator] + body;
      assert Format(p)[1..] == body;
    } else {
      assert Format(p) == body;
      if |p.names| > 0 {
        assert p.names[0][0] != Separator;
        if |p.names| > 1 {
          assert body[0] == p.names[0][0];
        }
      }
    }
  }

  /** Parsing `a/b` yields the name elements of `a` followed by those of `b`. */
  lemma {:induction false} SegmentsOfJoin(a: string, b: string)
    ensures Segments(a + [Separator] + b) == Segments(a) + Segments(b)
    decreases |a|
  {
    var s := a + [Separator] + b;
    if |a| == 0 {
      assert s[1..] == b;
    } else if a[0] == Separator {
      assert s[1..] == a[1..] + [Separator] + b;
      SegmentsOfJoin(a[1..], b);
    } else {
      var n := NameLength(a);
      NameLengthBeforeSeparator(a, b);
      assert s[..n] == a[..n];
      assert s[n..] == a[n..] + [Separator] + b;
      SegmentsOfJoin(a[n..], b);
    }
  }

  /** `startsWith` compares name by name: same kind, and q's names agree with p's at every position q has. */
  lemma StartsWithComponentWise(p: JPath, q: JPath)
    ensures StartsWith(p, q) <==> && p.absolute == q.absolute
                                  && |q.names| <= |p.names|
                                  && forall i :: 0 <= i < |q.names| ==> p.names[i] == q.names[i]
  {
    if p.absolute == q.absolute && |q.names| <= |p.names|
       && forall i :: 0 <= i < |q.names| ==> p.names[i] == q.names[i] {
      assert p.names[..|q.names|] == q.names;
    }
  }

  /**
    `Paths.get(base, file)` lies under `base`: it has the kind of `base` and its
    names are those of `base` followed by those of `file`.
   */
  lemma ResolveUnderBase(base: string, file: string)
    requires |base| > 0
    ensures Resolve(base, file).names == Parse(base).names + Segments(file)
    ensures StartsWith(Resolve(base, file), Parse(base))
  {
    if |file| > 0 {
      SegmentsOfJoin(base, file);
    }
  }
}
