/**
 * Slash-separated paths as the startup sequence uses them: the absolute-path
 * test, joining a directory and an element, and the lexical cleaning that
 * joining applies. Cleaning follows the documented rules of Go's `path`
 * package, stated on path elements rather than on bytes:
 *   1. runs of slashes count as one;
 *   2. `.` elements are dropped;
 *   3. a `..` element removes the ordinary element before it;
 *   4. a `..` at the start of a rooted path is dropped;
 *   5. the empty result is written `.`.
 */
module Paths {

  /** True when `p` is rooted: it begins with a slash. The empty path is not rooted. */
  predicate IsAbs(p: string): (r: bool)
    ensures r ==> p != "" && p[..1] == "/"
    ensures p == "" ==> !r
  {
    |p| > 0 && p[0] == '/'
  }

  /** An element that cleaning keeps unchanged: non-empty, no slash, not `.` or `..`. */
  predicate IsName(s: string) {
    s != "" && s != "." && s != ".." && '/' !in s
  }

  /** The elements of `p` between its slashes, empty ones included. */
  function Split(p: string): (segs: seq<string>)
    ensures |segs| >= 1
    ensures forall i :: 0 <= i < |segs| ==> '/' !in segs[i]
  {
    if p == [] then [[]]
    else
      var rest := Split(p[1..]);
      if p[0] == '/' then [[]] + rest
      else [[p[0]] + rest[0]] + rest[1..]
  }

  /** The elements of `segs` separated by single slashes (the inverse of Split). */
  function Glue(segs: seq<string>): string {
    if |segs| == 0 then ""
    else if |segs| == 1 then segs[0]
    else segs[0] + "/" + Glue(segs[1..])
  }

  /**
   * Rules 2-4 applied to `segs` from left to right, on top of the elements
   * `acc` already kept. Empty elements stand for doubled slashes (rule 1).
   */
  function Reduce(rooted: bool, acc: seq<string>, segs: seq<string>): (r: seq<string>)
    ensures (forall i :: 0 <= i < |acc| ==> acc[i] != "" && '/' !in acc[i]) &&
            (forall i :: 0 <= i < |segs| ==> '/' !in segs[i])
            ==> forall i :: 0 <= i < |r| ==> r[i] != "" && '/' !in r[i]
    decreases |segs|
  {
    if segs == [] then acc
    else
      var s := segs[0];
      if s == "" || s == "." then Reduce(rooted, acc, segs[1..])
      else if s == ".." then
        if |acc| > 0 && acc[|acc| - 1] != ".." then Reduce(rooted, acc[..|acc| - 1], segs[1..])
        else if rooted then Reduce(rooted, acc, segs[1..])
        else Reduce(rooted, acc + [".."], segs[1..])
      else Reduce(rooted, acc + [s], segs[1..])
  }

  /** Glue of a non-empty sequence begins with its first element. */
  lemma GluePrefix(segs: seq<string>)
    ensures |segs| > 0 ==> segs[0] <= Glue(segs)
  {
  }

  /**
   * Lexical cleaning: never empty, and rooted exactly when its input is
   * rooted.
   */
  function Clean(p: string): (r: string)
    ensures r != ""
    ensures IsAbs(r) <==> IsAbs(p)
  {
    var rooted := IsAbs(p);
    var kept := Reduce(rooted, [], Split(p));
    var body := Glue(kept);
    GluePrefix(kept);
    var r := if rooted then "/" + body else body;
    if r == "" then "." else r
  }

  /**
   * Joining a directory and one element: empty elements are skipped, the
   * rest are separated by a slash, and the whole is cleaned. The result is
   * empty only when both parts are, and it is rooted when the first
   * non-empty part is.
   */
  function Join(dir: string, elem: string): (r: string)
    ensures r == "" <==> dir == "" && elem == ""
    ensures IsAbs(r) <==> IsAbs(dir) || (dir == "" && IsAbs(elem))
  {
    if dir != "" then Clean(dir + "/" + elem)
    else if elem != "" then Clean(elem)
    else ""
  }

  /** A rooted path that cleaning leaves as it is: `/` or `/n1/.../nk` with every `ni` a name. */
  predicate IsCleanAbs(p: string) {
    IsAbs(p) &&
    (p == "/" || forall i :: 0 <= i < |Split(p[1..])| ==> IsName(Split(p[1..])[i]))
  }

  lemma {:induction false} SplitName(p: string)
    requires '/' !in p
    ensures Split(p) == [p]
  {
    if p != [] {
      SplitName(p[1..]);
      assert p == [p[0]] + p[1..];
    }
  }

  /** Splitting at a slash splits the two sides independently. */
  lemma {:induction false} SplitAtSlash(a: string, b: string)
    ensures Split(a + "/" + b) == Split(a) + Split(b)
  {
    var p := a + "/" + b;
    if a == [] {
      assert p == "/" + b;
      assert p[1..] == b;
    } else {
      assert p[0] == a[0];
      assert p[1..] == a[1..] + "/" + b;
      SplitAtSlash(a[1..], b);
    }
  }

  lemma {:induction false} GlueSplit(p: string)
    ensures Glue(Split(p)) == p
  {
    if p != [] {
      var rest := Split(p[1..]);
      GlueSplit(p[1..]);
      if p[0] == '/' {
        assert Split(p) == [[]] + rest;
        assert Glue(Split(p)) == "" + "/" + Glue(rest);
        assert p == "/" + p[1..];
      } else {
        GlueCons(p[0], rest[0], rest[1..]);
        assert [rest[0]] + rest[1..] == rest;
        assert p == [p[0]] + p[1..];
      }
    }
  }

  lemma GlueCons(c: char, s: string, rest: seq<string>)
    ensures Glue([[c] + s] + rest) == [c] + Glue([s] + rest)
  {
  }

  lemma {:induction false} GlueSnoc(segs: seq<string>, s: string)
    requires |segs| > 0
    ensures Glue(segs + [s]) == Glue(segs) + "/" + s
  {
    if |segs| > 1 {
      assert (segs + [s])[1..] == segs[1..] + [s];
      GlueSnoc(segs[1..], s);
    }
  }

  /** Reducing a concatenation is reducing the second part after the first. */
  lemma {:induction false} ReduceAppend(rooted: bool, acc: seq<string>, s1: seq<string>, s2: seq<string>)
    ensures Reduce(rooted, acc, s1 + s2) == Reduce(rooted, Reduce(rooted, acc, s1), s2)
    decreases |s1|
  {
    if s1 != [] {
      assert (s1 + s2)[0] == s1[0];
      assert (s1 + s2)[1..] == s1[1..] + s2;
      var s := s1[0];
      if s == "" || s == "." {
        ReduceAppend(rooted, acc, s1[1..], s2);
      } else if s == ".." {
        if |acc| > 0 && acc[|acc| - 1] != ".." {
          ReduceAppend(rooted, acc[..|acc| - 1], s1[1..], s2);
        } else if rooted {
          ReduceAppend(rooted, acc, s1[1..], s2);
        } else {
          ReduceAppend(rooted, acc + [".."], s1[1..], s2);
        }
      } else {
        ReduceAppend(rooted, acc + [s], s1[1..], s2);
      }
    } else {
      assert s1 + s2 == s2;
    }
  }

  /** Names pass through reduction unchanged. */
  lemma {:induction false} ReduceNames(rooted: bool, acc: seq<string>, segs: seq<string>)
    requires forall i :: 0 <= i < |segs| ==> IsName(segs[i])
    ensures Reduce(rooted, acc, segs) == acc + segs
    decreases |segs|
  {
    if segs != [] {
      assert IsName(segs[0]);
      ReduceNames(rooted, acc + [segs[0]], segs[1..]);
      assert acc + [segs[0]] + segs[1..] == acc + segs;
    }
  }

  /** The elements of a rooted path: an empty one before the root slash, then those of the rest. */
  lemma SplitRooted(p: string)
    requires IsAbs(p)
    ensures Split(p) == [""] + Split(p[1..])
  {
  }

  /** The root alone and the root with an empty element both reduce to nothing. */
  lemma RootElements()
    ensures Split("/") == ["", ""] && Split("//") == ["", "", ""]
    ensures Reduce(true, [], ["", ""]) == [] && Reduce(true, [], ["", "", ""]) == []
  {
  }

  /** Under a rooted path that is already clean, its elements survive reduction. */
  lemma {:induction false} ReduceCleanAbs(p: string, tail: seq<string>)
    requires IsCleanAbs(p) && p != "/"
    ensures Reduce(true, [], Split(p) + tail) == Reduce(true, Split(p[1..]), tail)
  {
    var names := Split(p[1..]);
    SplitRooted(p);
    assert Split(p) + tail == [""] + (names + tail);
    assert Reduce(true, [], [""] + (names + tail)) == Reduce(true, [], names + tail);
    ReduceAppend(true, [], names, tail);
    ReduceNames(true, [], names);
    assert [] + names == names;
  }

  /** A clean rooted path is a fixed point of cleaning. */
  lemma {:induction false} CleanCleanAbs(p: string)
    requires IsCleanAbs(p)
    ensures Clean(p) == p
  {
    if p == "/" {
      RootElements();
    } else {
      ReduceCleanAbs(p, []);
      assert Split(p) + [] == Split(p);
      GlueSplit(p[1..]);
      assert p == "/" + p[1..];
    }
  }

  /**
   * Joining a name onto a clean rooted directory appends it after one slash,
   * and the result is clean and rooted again.
   */
  lemma {:induction false} JoinName(dir: string, name: string)
    requires IsCleanAbs(dir) && IsName(name)
    ensures Join(dir, name) == (if dir == "/" then "/" + name else dir + "/" + name)
    ensures IsCleanAbs(Join(dir, name))
  {
    SplitAtSlash(dir, name);
    SplitName(name);
    var r := if dir == "/" then "/" + name else dir + "/" + name;
    if dir == "/" {
      RootElements();
      assert Split(dir + "/" + name) == ["", ""] + [name];
      ReduceAppend(true, [], ["", ""], [name]);
      ReduceNames(true, [], [name]);
      assert r[1..] == name;
    } else {
      var names := Split(dir[1..]);
      ReduceCleanAbs(dir, [name]);
      ReduceNames(true, names, [name]);
      GlueSnoc(names, name);
      GlueSplit(dir[1..]);
      assert dir == "/" + dir[1..];
      assert r[1..] == dir[1..] + "/" + name;
      SplitAtSlash(dir[1..], name);
      assert Split(r[1..]) == names + [name];
    }
  }

  /** Joining the empty element onto a clean rooted directory gives the directory itself. */
  lemma {:induction false} JoinEmpty(dir: string)
    requires IsCleanAbs(dir)
    ensures Join(dir, "") == dir
  {
    SplitAtSlash(dir, "");
    assert dir + "/" + "" == dir + "/";
    if dir == "/" {
      RootElements();
      assert dir + "/" == "//";
    } else {
      ReduceCleanAbs(dir, [""]);
      GlueSplit(dir[1..]);
      assert dir == "/" + dir[1..];
    }
  }

  /** The relative data source `foo.gpkg` under the working directory `/x/y`. */
  lemma JoinExample()
    ensures Join("/x/y", "foo.gpkg") == "/x/y/foo.gpkg"
  {
    var wd := "/x/y";
    assert wd[1..] == "x" + "/" + "y";
    SplitAtSlash("x", "y");
    SplitName("x");
    SplitName("y");
    assert Split(wd[1..]) == ["x", "y"];
    assert IsCleanAbs(wd);
    JoinName(wd, "foo.gpkg");
  }
}
