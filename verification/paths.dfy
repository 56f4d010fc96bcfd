/**
Slash-separated paths as Go's path package treats them. A path is its text split at the
slashes: whether it starts with one, and the components between them. `Blank` is the empty
component of a doubled or trailing slash.
*/
module Paths {
  import opened Basics

  /** The text of a component other than "", "." and "..". */
  type Word = s: string | s != "" && s != "." && s != ".." && '/' !in s witness "a"

  datatype Component = Blank | Dot | DotDot | Name(word: Word)

  /** "/" is Path(true, []) and "" is Path(false, []). A text has one form: no path but these two
      stands for "/" or "", so Path(true, [Blank]) is none, and a relative path does not start
      with Blank. */
  datatype Path = Path(abs: bool, parts: seq<Component>)

  const ROOT := Path(true, [])
  const EMPTY := Path(false, [])

  /** Absolute and nothing left to clean: what path.Clean makes of any absolute path. */
  predicate IsCleanAbs(p: Path) {
    p.abs && forall i :: 0 <= i < |p.parts| ==> p.parts[i].Name?
  }

  /** The component stack path.Clean keeps while it reads the path from the left. */
  function Push(abs: bool, stack: seq<Component>, c: Component): seq<Component> {
    match c
    case Blank => stack
    case Dot => stack
    case Name(_) => stack + [c]
    case DotDot =>
      if stack != [] && stack[|stack| - 1] != DotDot then stack[..|stack| - 1]
      else if abs then stack
      else stack + [c]
  }

  function Resolve(abs: bool, parts: seq<Component>): seq<Component> {
    if parts == [] then [] else Push(abs, Resolve(abs, parts[..|parts| - 1]), parts[|parts| - 1])
  }

  /** path.Clean; the empty relative result is ".". */
  function Clean(p: Path): Path {
    var parts := Resolve(p.abs, p.parts);
    if !p.abs && parts == [] then Path(false, [Dot]) else Path(p.abs, parts)
  }

  /** path.Dir: clean what precedes the last slash. */
  function Dir(p: Path): Path {
    Clean(Path(p.abs, if p.parts == [] then [] else p.parts[..|p.parts| - 1]))
  }

  /** path.Base: the last component once trailing slashes are gone; None stands for "/". */
  function Base(p: Path): Option<Component>
    decreases |p.parts|
  {
    if p.parts == [] then (if p.abs then None else Some(Dot))
    else if p.parts[|p.parts| - 1] == Blank then Base(Path(p.abs, p.parts[..|p.parts| - 1]))
    else Some(p.parts[|p.parts| - 1])
  }

  /** path.Join(dir, name) for a non-empty dir. */
  function Join(dir: Path, parts: seq<Component>): Path {
    Clean(Path(dir.abs, dir.parts + parts))
  }

  /** strings.HasPrefix(p, dir + "/") for clean absolute p and dir: p lies strictly below dir.
      For dir "/" the prefix is "//", which no clean path has. */
  predicate IsBelow(p: Path, dir: Path) {
    dir.parts != [] && |dir.parts| < |p.parts| && p.parts[..|dir.parts|] == dir.parts
  }

  lemma {:induction false} ResolveClean(parts: seq<Component>)
    requires forall i :: 0 <= i < |parts| ==> parts[i].Name?
    ensures Resolve(true, parts) == parts
  {
    if parts != [] { ResolveClean(parts[..|parts| - 1]); }
  }

  /** Cleaning an absolute path leaves names only. */
  lemma {:induction false} ResolveAbs(parts: seq<Component>)
    ensures forall i :: 0 <= i < |Resolve(true, parts)| ==> Resolve(true, parts)[i].Name?
  {
    if parts != [] { ResolveAbs(parts[..|parts| - 1]); }
  }

  lemma CleanIsClean(p: Path)
    requires p.abs
    ensures IsCleanAbs(Clean(p)) && Clean(Clean(p)) == Clean(p)
  {
    ResolveAbs(p.parts);
    ResolveClean(Clean(p).parts);
  }

  /** Adding one part to a resolved path: a name goes deeper, "." and an empty part stay, ".."
      goes up, and stays at the top. */
  lemma {:induction false} ResolveOneMore(parts: seq<Component>, c: Component)
    requires forall i :: 0 <= i < |parts| ==> parts[i].Name?
    ensures c.Name? ==> Resolve(true, parts + [c]) == parts + [c]
    ensures c == Dot || c == Blank ==> Resolve(true, parts + [c]) == parts
    ensures c == DotDot ==> Resolve(true, parts + [c]) == if parts == [] then [] else parts[..|parts| - 1]
  {
    ResolveClean(parts);
    assert (parts + [c])[..|parts|] == parts;
  }

  lemma {:induction false} UpAndDown(parts: seq<Component>, x: Component)
    requires parts != [] && x.Name? && forall i :: 0 <= i < |parts| ==> parts[i].Name?
    ensures Resolve(true, parts + [DotDot, x]) == parts[..|parts| - 1] + [x]
  {
    var up := parts + [DotDot];
    ResolveOneMore(parts, DotDot);
    assert parts + [DotDot, x] == up + [x];
    assert (up + [x])[..|up|] == up;
  }
}
