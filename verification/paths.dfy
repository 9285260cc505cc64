/** Filesystem paths as sequences of components. */
module Paths {
  import opened Wrappers

  /** One component of an OS path. Names the installer builds itself are plain
      text; a component that came from the operating system (the user's home
      directory) may hold bytes that are not valid Unicode. Such a component is
      kept with its lossy rendering, the text `display()` and
      `to_string_lossy()` produce for it. */
  datatype Component = Name(text: string) | Undecodable(lossy: string)

  type Path = seq<Component>

  /** `p.join(name)`. */
  function Join(p: Path, name: string): Path
  {
    p + [Name(name)]
  }

  /** The text of a component as `display()` shows it. */
  function Shown(c: Component): string
  {
    match c
    case Name(t) => t
    case Undecodable(l) => l
  }

  /** `p.display()` / `p.to_string_lossy()`: every component preceded by a `/`. */
  function Display(p: Path): string
    decreases |p|
  {
    if |p| == 0 then "" else Display(p[..|p| - 1]) + "/" + Shown(p[|p| - 1])
  }

  /** Every component is valid Unicode. */
  predicate IsUnicode(p: Path)
  {
    forall k :: 0 <= k < |p| ==> p[k].Name?
  }

  /** `p.to_str()`: the text of the path, or nothing when some component is
      not valid Unicode. */
  function ToStr(p: Path): (r: Option<string>)
    ensures r.Some? <==> IsUnicode(p)
    ensures r.Some? ==> r.value == Display(p)
  {
    if IsUnicode(p) then Some(Display(p)) else None
  }

  /** `p` is `root` or lies below it. */
  predicate Within(root: Path, p: Path)
  {
    |root| <= |p| && p[..|root|] == root
  }

  /** Joining a plain name to a Unicode path keeps it Unicode, and the joined
      path lies below the original one. */
  lemma JoinFacts(p: Path, name: string)
    ensures IsUnicode(p) ==> IsUnicode(Join(p, name))
    ensures Within(p, Join(p, name))
    ensures Display(Join(p, name)) == Display(p) + "/" + name
  {
    assert Join(p, name)[..|p|] == p;
  }
}
