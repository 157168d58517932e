/**
 * POSIX paths as the standard library compares them: a root flag and the
 * sequence of normal components. Two paths that differ only in repeated or
 * trailing separators have the same components and are the same path.
 */
module Paths {
  import opened Wrappers
  import opened Text

  datatype Path = Path(absolute: bool, components: seq<string>)

  /** A normal component: non-empty and without a separator. */
  predicate IsComponent(c: string) {
    c != [] && '/' !in c
  }

  predicate ValidPath(p: Path) {
    forall i :: 0 <= i < |p.components| ==> IsComponent(p.components[i])
  }

  /** The component collected so far, if there is one. */
  function Flush(cur: string): seq<string> {
    if cur == [] then [] else [cur]
  }

  /** The components of `s`, with `cur` the component being read. */
  function SplitComponents(s: string, cur: string): (r: seq<string>)
    requires '/' !in cur
    ensures forall i :: 0 <= i < |r| ==> IsComponent(r[i])
    decreases |s|
  {
    if s == [] then Flush(cur)
    else if s[0] == '/' then Flush(cur) + SplitComponents(s[1..], [])
    else SplitComponents(s[1..], cur + [s[0]])
  }

  /** `PathBuf::from(s)`: absolute when `s` starts with `/`. */
  function ParsePath(s: string): (p: Path)
    ensures ValidPath(p)
    ensures p.absolute <==> |s| > 0 && s[0] == '/'
  {
    Path(|s| > 0 && s[0] == '/', SplitComponents(s, []))
  }

  /** `to_string_lossy`: the root, then the components separated by `/`. */
  function PathToString(p: Path): string {
    (if p.absolute then "/" else "") + Join(p.components, "/")
  }

  /** `Path::parent`: the path without its last component; none for a bare root. */
  function Parent(p: Path): Option<Path> {
    if p.components == [] then None else Some(Path(p.absolute, p.components[..|p.components| - 1]))
  }

  /** `Path::file_name`: the last component, or the empty name for a bare root. */
  function FileName(p: Path): string {
    if p.components == [] then "" else p.components[|p.components| - 1]
  }

  /** `PathBuf::push`: an absolute path replaces the base, a relative one extends it. */
  function Push(base: Path, rest: Path): Path {
    if rest.absolute then rest else Path(base.absolute, base.components + rest.components)
  }

  /** A path is its parent with its file name pushed back on. */
  lemma ParentPush(p: Path)
    requires p.components != []
    ensures Parent(p).Some?
    ensures Push(Parent(p).value, Path(false, [FileName(p)])) == p
  {
    assert p.components[..|p.components| - 1] + [FileName(p)] == p.components;
  }

  /** Only a bare root or the empty path has no parent. */
  lemma ParentNone(p: Path)
    requires ValidPath(p)
    ensures Parent(p).None? <==> PathToString(p) == (if p.absolute then "/" else "")
  {
    if p.components != [] {
      assert |Join(p.components, "/")| > 0 by { JoinNonEmpty(p.components); }
    }
  }

  lemma JoinNonEmpty(cs: seq<string>)
    requires cs != [] && cs[0] != []
    ensures |Join(cs, "/")| > 0 && Join(cs, "/")[0] == cs[0][0]
  {
  }

  lemma {:induction false} SplitNoSeparator(c: string, rest: string, cur: string)
    requires '/' !in c && '/' !in cur
    ensures SplitComponents(c + rest, cur) == SplitComponents(rest, cur + c)
    decreases |c|
  {
    if c == [] {
      assert c + rest == rest && cur + c == cur;
    } else {
      assert (c + rest)[0] == c[0] && (c + rest)[1..] == c[1..] + rest;
      SplitNoSeparator(c[1..], rest, cur + [c[0]]);
      assert cur + [c[0]] + c[1..] == cur + c;
    }
  }

  lemma {:induction false} SplitJoin(cs: seq<string>)
    requires forall i :: 0 <= i < |cs| ==> IsComponent(cs[i])
    ensures SplitComponents(Join(cs, "/"), []) == cs
    decreases |cs|
  {
    if |cs| == 1 {
      SplitNoSeparator(cs[0], [], []);
      assert cs[0] + [] == cs[0] && [] + cs[0] == cs[0];
    } else if |cs| > 1 {
      var tail := Join(cs[1..], "/");
      SplitNoSeparator(cs[0], "/" + tail, []);
      assert cs[0] + "/" + tail == cs[0] + ("/" + tail);
      assert ("/" + tail)[1..] == tail;
      assert [] + cs[0] == cs[0];
      SplitJoin(cs[1..]);
    }
  }

  /** Rendering a path and parsing the text back gives the same path. */
  lemma ParseRoundTrip(p: Path)
    requires ValidPath(p)
    ensures ParsePath(PathToString(p)) == p
  {
    var s := PathToString(p);
    SplitJoin(p.components);
    if p.absolute {
      assert s == "/" + Join(p.components, "/");
      assert s[1..] == Join(p.components, "/");
    } else {
      assert s == Join(p.components, "/");
      if p.components != [] {
        JoinNonEmpty(p.components);
      }
    }
  }
}
