/** The resource database as the views see it: a set of absolute paths
    (one name per level, the root is []), the three tree operations the
    views ask of it (delete, move and copy a subtree), and the `ikaaro_cp`
    copy cookie the browser keeps between requests. */
module Tree {
  import opened Common

  type Path = seq<string>

  /** The names of a relative path string, `s.split('/')` without the
      empty pieces ('a//b', a trailing '/') that name nothing. */
  function Segments(s: string): seq<string>
    decreases |s|
  {
    match LastIndexOf(s, '/')
    case None => if s == "" then [] else [s]
    case Some(k) => Segments(s[..k]) + (if s[k + 1..] == "" then [] else [s[k + 1..]])
  }

  /** Follows the names of a path from `p`: '.' stays, '..' goes up one
      level (and stays at the top of the tree), any other name goes down. */
  function Walk(p: Path, names: seq<string>): Path
    decreases |names|
  {
    if |names| == 0 then p
    else
      var n := names[0];
      var q := if n == "." then p else if n == ".." then (if |p| == 0 then p else p[..|p| - 1]) else p + [n];
      Walk(q, names[1..])
  }

  /** `base.resolve2(s)` / `get_resource(s)`: a leading '/' starts from the
      root, anything else from base; '.' and '..' are followed. */
  function Resolve(base: Path, s: string): Path
  {
    Walk(if |s| > 0 && s[0] == '/' then [] else base, Segments(s))
  }

  /** Names other than '.' and '..' go down one level each. */
  lemma {:induction false} WalkDown(p: Path, names: seq<string>)
    requires forall k :: 0 <= k < |names| ==> names[k] != "." && names[k] != ".."
    ensures Walk(p, names) == p + names
    decreases |names|
  {
    if |names| > 0 {
      WalkDown(p + [names[0]], names[1..]);
      assert p + [names[0]] + names[1..] == p + names;
    }
  }

  /** Walking never climbs above the top, and without '..' it never
      climbs at all: the start is a prefix of the end. */
  lemma {:induction false} WalkBelow(p: Path, names: seq<string>)
    requires ".." !in names
    ensures p <= Walk(p, names)
    decreases |names|
  {
    if |names| > 0 {
      var n := names[0];
      var q := if n == "." then p else p + [n];
      assert ".." !in names[1..] by { assert forall x :: x in names[1..] ==> x in names; }
      WalkBelow(q, names[1..]);
    }
  }

  /** A relative path string without '..' names something under its base. */
  lemma ResolveBelow(base: Path, s: string)
    requires |s| == 0 || s[0] != '/'
    ensures ".." !in Segments(s) ==> base <= Resolve(base, s)
  {
    if ".." !in Segments(s) {
      WalkBelow(base, Segments(s));
    }
  }

  /** The last `c` of `t` is the one with no other `c` after it. */
  lemma LastIndexOfAt(t: string, c: char, i: nat)
    requires i < |t| && t[i] == c && c !in t[i + 1..]
    ensures LastIndexOf(t, c) == Some(i)
  {
    assert c in t by { assert t[i] == c; }
  }

  /** Splitting a string at its last '/': the names before it, then the
      piece after it when that piece is not empty. */
  lemma SegmentsAt(t: string, k: nat)
    requires LastIndexOf(t, '/') == Some(k)
    ensures Segments(t) == Segments(t[..k]) + (if t[k + 1..] == "" then [] else [t[k + 1..]])
  {
  }

  /** ".." alone is the one name '..'. */
  lemma SegmentsDotDot()
    ensures Segments("..") == [".."]
  {
    assert LastIndexOf("..", '/') == None;
  }

  /** In "../" + s with no '/' in s, the last '/' is the one after '..'. */
  lemma UpLastSlashFirst(s: string)
    requires '/' !in s
    ensures var t := "../" + s; LastIndexOf(t, '/') == Some(2) && t[..2] == ".." && t[3..] == s
  {
    var t := "../" + s;
    assert t[2] == '/' && t[3..] == s;
    LastIndexOfAt(t, '/', 2);
  }

  /** In "../" + s, the last '/' of s is the last one. */
  lemma UpLastSlashLater(s: string, k: nat)
    requires LastIndexOf(s, '/') == Some(k)
    ensures var t := "../" + s;
      LastIndexOf(t, '/') == Some(k + 3) && t[..k + 3] == "../" + s[..k] && t[k + 4..] == s[k + 1..]
  {
    var t := "../" + s;
    assert t[k + 3] == '/' && t[k + 4..] == s[k + 1..];
    LastIndexOfAt(t, '/', k + 3);
  }

  /** A leading "../" is one '..' name before the rest's names. */
  lemma {:induction false} SegmentsUp(s: string)
    ensures Segments("../" + s) == [".."] + Segments(s)
    decreases |s|
  {
    var t := "../" + s;
    SegmentsDotDot();
    match LastIndexOf(s, '/')
    case None =>
      UpLastSlashFirst(s);
      SegmentsAt(t, 2);
    case Some(k) =>
      UpLastSlashLater(s, k);
      SegmentsAt(t, k + 3);
      SegmentsAt(s, k);
      SegmentsUp(s[..k]);
  }

  /** '..' goes up one level: from a folder below the top, "../" followed
      by a relative path resolves that path from the folder's parent. */
  lemma ResolveUp(base: Path, s: string)
    requires |base| > 0 && (|s| == 0 || s[0] != '/')
    ensures Resolve(base, "../" + s) == Resolve(base[..|base| - 1], s)
  {
    SegmentsUp(s);
    var names := [".."] + Segments(s);
    assert names[0] == ".." && names[1..] == Segments(s);
  }

  function Parent(p: Path): (r: Option<Path>)
    ensures r.None? <==> p == []
    ensures r.Some? ==> r.value + [p[|p| - 1]] == p
  {
    if |p| == 0 then None else Some(p[..|p| - 1])
  }

  function Name(p: Path): string
  {
    if |p| == 0 then "" else p[|p| - 1]
  }

  /** The names of the resources directly inside p. */
  function ChildNames(s: set<Path>, p: Path): (r: set<string>)
    ensures forall n :: p + [n] in s ==> n in r
  {
    var r := set q | q in s && |q| == |p| + 1 && p <= q :: q[|p|];
    assert forall n :: p + [n] in s ==> (p + [n])[|p|] == n;
    r
  }

  /** `del_resource(p)`: p and everything under it disappear. */
  function Delete(s: set<Path>, p: Path): set<Path>
  {
    set q | q in s && !(p <= q)
  }

  /** The subtree of `from` re-rooted at `to`. */
  function Graft(s: set<Path>, from: Path, to: Path): set<Path>
  {
    set q | q in s && from <= q :: to + q[|from|..]
  }

  /** `move_resource(from, to)`: the subtree of `from` now lives at `to`. */
  function Move(s: set<Path>, from: Path, to: Path): set<Path>
  {
    Delete(s, from) + Graft(s, from, to)
  }

  /** `copy_resource(from, to)`: a copy of the subtree of `from` at `to`. */
  function Copy(s: set<Path>, from: Path, to: Path): set<Path>
  {
    s + Graft(s, from, to)
  }

  lemma DeleteEffect(s: set<Path>, p: Path)
    ensures Delete(s, p) <= s && p !in Delete(s, p)
    ensures forall q :: !(p <= q) ==> (q in Delete(s, p) <==> q in s)
  {
  }

  lemma GraftEffect(s: set<Path>, from: Path, to: Path)
    ensures from in s ==> to in Graft(s, from, to)
    ensures forall q :: q in Graft(s, from, to) ==> to <= q
  {
    if from in s {
      assert from <= from && to + from[|from|..] == to;
    }
  }

  /** After a move the target exists, the source is gone unless the target
      lies above it, and nothing outside both subtrees changes. */
  lemma MoveEffect(s: set<Path>, from: Path, to: Path)
    ensures from in s ==> to in Move(s, from, to)
    ensures !(to <= from) ==> from !in Move(s, from, to)
    ensures forall q :: !(from <= q) && !(to <= q) ==> (q in Move(s, from, to) <==> q in s)
  {
    DeleteEffect(s, from);
    GraftEffect(s, from, to);
  }

  /** A copy keeps everything, adds the target, and adds nothing outside
      the target's subtree. */
  lemma CopyEffect(s: set<Path>, from: Path, to: Path)
    ensures s <= Copy(s, from, to)
    ensures from in s ==> to in Copy(s, from, to)
    ensures forall q :: !(to <= q) ==> (q in Copy(s, from, to) <==> q in s)
  {
    GraftEffect(s, from, to);
  }

  /** A change asked of the database; the database may refuse it with a
      ConsistencyError (a reference would break). */
  datatype Op = DelOp(path: Path) | MoveOp(from: Path, to: Path) | CopyOp(from: Path, to: Path)

  function Apply(s: set<Path>, op: Op): set<Path>
  {
    match op
    case DelOp(p) => Delete(s, p)
    case MoveOp(f, t) => Move(s, f, t)
    case CopyOp(f, t) => Copy(s, f, t)
  }

  function ApplyAll(s: set<Path>, ops: seq<Op>): set<Path>
  {
    if |ops| == 0 then s else Apply(ApplyAll(s, ops[..|ops| - 1]), ops[|ops| - 1])
  }

  /** The `ikaaro_cp` cookie: cut (true) or copy (false), and the absolute
      paths of the resources picked. */
  datatype CopyCookie = CopyCookie(cut: bool, paths: seq<Path>)

  /** What reading the cookie yields when the browser sent none. */
  const NoCookie := CopyCookie(false, [])

  /** The state a folder view acts on: the database and the cookie the
      browser will hold once the response is sent. */
  class Site {
    var paths: set<Path>
    var cookie: Option<CopyCookie>

    constructor (paths: set<Path>, cookie: Option<CopyCookie>)
      ensures this.paths == paths && this.cookie == cookie
    {
      this.paths := paths;
      this.cookie := cookie;
    }

    /** `context.get_cookie('ikaaro_cp', datatype=CopyCookie)`. */
    function ReadCookie(): CopyCookie
      reads this
    {
      cookie.GetOr(NoCookie)
    }
  }
}

/** The catalog's query tree (`AndQuery`, `OrQuery`, `PhraseQuery`,
    `TextQuery` and the base-path query), and what a query means of one
    document given what each leaf means of it. */
module Catalog {
  import opened Common
  import opened Tree

  datatype Term = Word(s: string) | Words(ws: seq<string>) | Flag(b: bool)

  datatype Query =
    | AndQuery(subs: seq<Query>)
    | OrQuery(subs: seq<Query>)
    | PhraseQuery(field: string, term: Term)
    | TextQuery(field: string, term: Term)
    | BasePathQuery(path: Path, maxDepth: Option<nat>)

  /** The query holds of a document when its leaves do as `leaf` says:
      AND needs every part, OR some part. */
  predicate Holds(q: Query, leaf: Query -> bool)
  {
    match q
    case AndQuery(qs) => forall i :: 0 <= i < |qs| ==> Holds(qs[i], leaf)
    case OrQuery(qs) => exists i :: 0 <= i < |qs| && Holds(qs[i], leaf)
    case _ => leaf(q)
  }
}
