/**
 * A file tree without links, and the file-system calls of the adapter generator as
 * functions on it; None is a call that throws.
 */
module FileTree {
  import opened Wrappers

  type Path = seq<string>

  datatype Entry = Dir | File(text: string)

  type Tree = map<Path, Entry>

  function Lookup(t: Tree, p: Path): Option<Entry> {
    if p in t then Some(t[p]) else None
  }

  predicate IsFile(t: Tree, p: Path) {
    p in t && t[p].File?
  }

  predicate IsDir(t: Tree, p: Path) {
    p in t && t[p].Dir?
  }

  function Parent(p: Path): Path {
    if p == [] then [] else p[..|p| - 1]
  }

  function Prefixes(p: Path): (s: set<Path>)
    ensures forall q :: q in s <==> q <= p
  {
    var s := set i | 0 <= i <= |p| :: p[..i];
    assert forall q: Path :: q <= p ==> q == p[..|q|];
    s
  }

  /** rm -rf */
  function RemoveAll(t: Tree, p: Path): Tree {
    map q | q in t && !(p <= q) :: t[q]
  }

  /** mkdir -p */
  function MkdirP(t: Tree, p: Path): Option<Tree> {
    if exists q :: q in t && q <= p && t[q].File? then None
    else Some(t + map q | q in Prefixes(p) :: Dir)
  }

  /** rm -f, of something that is not a directory */
  function RemoveFile(t: Tree, p: Path): Option<Tree> {
    if IsDir(t, p) || (exists q :: q in t && q < p && t[q].File?) then None else Some(t - {p})
  }

  function WriteFile(t: Tree, p: Path, text: string): Option<Tree> {
    if p == [] || IsDir(t, p) || !IsDir(t, Parent(p)) then None else Some(t[p := File(text)])
  }

  /** Where the entries under `src` go when it is copied to `dst`. */
  function Targets(t: Tree, src: Path, dst: Path): (s: set<Path>)
    ensures forall p :: p in s <==> dst <= p && src + p[|dst|..] in t
  {
    var s := set q | q in t && src <= q :: dst + q[|src|..];
    forall p ensures p in s <==> dst <= p && src + p[|dst|..] in t {
      if p in s {
        var q :| q in t && src <= q && p == dst + q[|src|..];
        assert p[|dst|..] == q[|src|..] && q == src + q[|src|..];
      }
      if dst <= p && src + p[|dst|..] in t {
        var q := src + p[|dst|..];
        assert q[|src|..] == p[|dst|..] && p == dst + p[|dst|..];
      }
    }
    s
  }

  /** cp -r onto a free place */
  function Copy(t: Tree, src: Path, dst: Path): Option<Tree> {
    if src !in t then None else Some(t + map p | p in Targets(t, src, dst) :: t[src + p[|dst|..]])
  }

  /** rm -rf and mkdir -p */
  function CleanDirectory(t: Tree, p: Path): Option<Tree> {
    MkdirP(RemoveAll(t, p), p)
  }

  /** mkdir -p of the directory, then the file */
  function Render(t: Tree, p: Path, text: string): Option<Tree> {
    match MkdirP(t, Parent(p))
    case None => None
    case Some(u) => WriteFile(u, p, text)
  }

  /** GitHub's copy of a skill also gets the skill file under its lower-case name. */
  function AddSkillFile(t: Tree, dst: Path, github: bool): Option<Tree> {
    var upper := dst + ["SKILL.md"];
    if !github || upper !in t then Some(t)
    else if t[upper].Dir? then None
    else WriteFile(t, dst + ["skill.md"], t[upper].text)
  }

  /** rm -rf of the place, mkdir -p above it, cp -r onto it */
  function ReplaceByCopy(t: Tree, src: Path, dst: Path): Option<Tree> {
    match MkdirP(RemoveAll(t, dst), Parent(dst))
    case None => None
    case Some(u) => Copy(u, src, dst)
  }

  /** copySkillDirectory */
  function MirrorSkill(t: Tree, src: Path, dst: Path, github: bool): Option<Tree> {
    match ReplaceByCopy(t, src, dst)
    case None => None
    case Some(v) => AddSkillFile(v, dst, github)
  }
}
