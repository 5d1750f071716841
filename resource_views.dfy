/** The helpers of the resource views (`resource_views.py`): the
    breadcrumb of the "add image/link" dialogs, the scripts those dialogs
    load, the upload action, the page type a new link creates, and where
    a successful login sends the user. */
module ResourceViews {
  import opened Common
  import opened Tree

  // ---------------------------------------------------------------------
  // get_breadcrumb: the path from the root to the target
  // ---------------------------------------------------------------------

  /** The walk from the target stops at `root.parent`: it gets there when
      the root has no parent (the walk runs to the top) or when the
      root's parent lies on the target's path. */
  predicate Reaches(root: Path, target: Path)
  {
    root == [] || root[..|root| - 1] <= target
  }

  /** The nodes the walk visits, in breadcrumb order: every prefix of the
      target at least as long as the root. */
  function Chain(root: Path, target: Path): seq<Path>
    requires Reaches(root, target)
  {
    seq(|target| - |root| + 1, i requires 0 <= i < |target| - |root| + 1 => target[..|root| + i])
  }

  /** For a target inside the root, the breadcrumb starts at the root,
      ends at the target, and each entry is the parent of the next. */
  lemma ChainFacts(root: Path, target: Path)
    requires root <= target
    ensures Reaches(root, target)
    ensures |Chain(root, target)| == |target| - |root| + 1
    ensures Chain(root, target)[0] == root
    ensures Chain(root, target)[|Chain(root, target)| - 1] == target
    ensures forall i :: 0 < i < |Chain(root, target)| ==>
      Parent(Chain(root, target)[i]) == Some(Chain(root, target)[i - 1])
  {
    var c := Chain(root, target);
    assert c[|c| - 1] == target[..|target|] == target;
    forall i | 0 < i < |c|
      ensures Parent(c[i]) == Some(c[i - 1])
    {
      assert c[i][..|c[i]| - 1] == c[i - 1];
    }
  }

  /** The loop of `get_breadcrumb` over `node`, inserting each node at the
      front; None where it walks past the top (`None.parent` raises). */
  method Crumbs(root: Path, target: Path) returns (crumbs: Option<seq<Path>>)
    ensures crumbs.Some? <==> Reaches(root, target)
    ensures crumbs.Some? ==> crumbs.value == Chain(root, target)
  {
    var acc: seq<Path> := [];
    var node: Option<Path> := Some(target);
    ghost var len := |target|;
    while node != Parent(root)
      invariant -1 <= len <= |target|
      invariant node.Some? <==> len >= 0
      invariant node.Some? ==> node.value == target[..len]
      invariant acc == seq(|target| - len, i requires 0 <= i < |target| - len => target[..len + 1 + i])
      invariant root != [] && root[..|root| - 1] <= target ==> len >= |root| - 1
      decreases len + 1
    {
      if node.None? {
        return None;
      }
      if root != [] && root[..|root| - 1] <= target {
        assert target[..|root| - 1] == root[..|root| - 1];
      }
      acc := [node.value] + acc;
      node := Parent(node.value);
      len := len - 1;
    }
    return Some(acc);
  }

  /** The folder the breadcrumb shows: `bc_target` resolved from the
      root, or else `start` itself when it is a folder and its parent
      when it is not; None where the start has no parent. */
  function BreadcrumbTarget(root: Path, start: Path, isFolder: Path -> bool, targetPath: Option<string>): (r: Option<Path>)
  {
    match targetPath
    case Some(p) => Some(Resolve(root, p))
    case None => if isFolder(start) then Some(start) else Parent(start)
  }

  /** A target given relative to the root and without '..' lies inside
      it; without one the target is the start or the folder that holds it. */
  lemma BreadcrumbTargetFacts(root: Path, start: Path, isFolder: Path -> bool, targetPath: Option<string>)
    ensures var r := BreadcrumbTarget(root, start, isFolder, targetPath);
      && (targetPath.Some? ==> r.Some?)
      && (targetPath.Some? && (|targetPath.value| == 0 || targetPath.value[0] != '/') && ".." !in Segments(targetPath.value) ==>
            root <= r.value)
      && (targetPath.None? && r.Some? ==> r.value <= start && |start| - |r.value| <= 1)
      && (targetPath.None? && isFolder(start) ==> r == Some(start))
      && (targetPath.None? && !isFolder(start) ==>
            r == Parent(start) && (r.None? <==> start == []) && (r.Some? ==> r.value == start[..|start| - 1]))
  {
    if targetPath.Some? && (|targetPath.value| == 0 || targetPath.value[0] != '/') {
      ResolveBelow(root, targetPath.value);
    }
  }

  // ---------------------------------------------------------------------
  // get_breadcrumb: the content of the target
  // ---------------------------------------------------------------------

  /** One resource listed in the dialog. */
  datatype Item = Item(path: Path, isFolder: bool)

  function IsFolder(x: Item): bool
  {
    x.isFolder
  }

  function NotFolder(x: Item): bool
  {
    !x.isFolder
  }

  /** The order of the key `is_folder` (False before True). */
  function FolderLe(a: Item, b: Item): bool
  {
    !a.isFolder || b.isFolder
  }

  /** `items.sort(key=itemgetter('is_folder'), reverse=True)`. */
  function FoldersFirst(): (Item, Item) -> bool
  {
    Flip(FolderLe)
  }

  lemma FoldersFirstAt(a: Item, b: Item)
    ensures FoldersFirst()(a, b) == (a.isFolder || !b.isFolder)
  {
    assert Flip(FolderLe)(a, b) == FolderLe(b, a);
  }

  /** Inserting into folders-then-others puts a folder in front and any
      other item in front of the others. */
  lemma {:induction false} InsertFoldersFirst(x: Item, folders: seq<Item>, others: seq<Item>)
    requires forall k :: 0 <= k < |folders| ==> folders[k].isFolder
    requires forall k :: 0 <= k < |others| ==> !others[k].isFolder
    ensures Insert(x, folders + others, FoldersFirst()) ==
      if x.isFolder then [x] + folders + others else folders + [x] + others
  {
    var s := folders + others;
    if |folders| > 0 {
      assert s[0] == folders[0] && s[1..] == folders[1..] + others;
      FoldersFirstAt(x, s[0]);
      if x.isFolder {
        assert Insert(x, s, FoldersFirst()) == [x] + s;
      } else {
        assert Insert(x, s, FoldersFirst()) == [s[0]] + Insert(x, s[1..], FoldersFirst());
        InsertFoldersFirst(x, folders[1..], others);
        assert [folders[0]] + (folders[1..] + [x] + others) == folders + [x] + others by {
          assert folders == [folders[0]] + folders[1..];
        }
      }
    } else if |others| > 0 {
      assert s == others;
      FoldersFirstAt(x, others[0]);
    }
  }

  /** The sort puts the folders first and otherwise keeps the order the
      items came in. */
  lemma {:induction false} SortFoldersFirst(s: seq<Item>)
    ensures SortBy(s, FoldersFirst()) == Filter(s, IsFolder) + Filter(s, NotFolder)
  {
    if |s| > 0 {
      var x, t := s[0], s[1..];
      var folders, others := Filter(t, IsFolder), Filter(t, NotFolder);
      assert forall k :: 0 <= k < |folders| ==> folders[k].isFolder by {
        FilterMembers(t, IsFolder);
      }
      assert forall k :: 0 <= k < |others| ==> !others[k].isFolder by {
        FilterMembers(t, NotFolder);
      }
      calc {
        SortBy(s, FoldersFirst());
        Insert(x, SortBy(t, FoldersFirst()), FoldersFirst());
        { SortFoldersFirst(t); }
        Insert(x, folders + others, FoldersFirst());
        { InsertFoldersFirst(x, folders, others); }
        (if x.isFolder then [x] + folders + others else folders + [x] + others);
        { assert s == [x] + t;
          FilterCons(x, t, IsFolder);
          FilterCons(x, t, NotFolder); }
        Filter(s, IsFolder) + Filter(s, NotFolder);
      }
    }
  }

  /** The children of the target that the user may view, as items. */
  function Visible(children: seq<Path>, mayView: Path -> bool, isFolder: Path -> bool): seq<Item>
  {
    if |children| == 0 then []
    else
      var c := children[|children| - 1];
      Visible(children[..|children| - 1], mayView, isFolder) + (if mayView(c) then [Item(c, isFolder(c))] else [])
  }

  /** The loop of `get_breadcrumb` over the target's children, then the
      sort: the visible items, folders first. */
  method BreadcrumbItems(children: seq<Path>, mayView: Path -> bool, isFolder: Path -> bool)
    returns (items: seq<Item>)
    ensures var v := Visible(children, mayView, isFolder);
      items == Filter(v, IsFolder) + Filter(v, NotFolder)
  {
    items := [];
    var i := 0;
    while i < |children|
      invariant 0 <= i <= |children|
      invariant items == Visible(children[..i], mayView, isFolder)
    {
      assert children[..i + 1][..i] == children[..i];
      if mayView(children[i]) {
        items := items + [Item(children[i], isFolder(children[i]))];
      }
      i := i + 1;
    }
    assert children[..i] == children;
    SortFoldersFirst(items);
    items := SortBy(items, FoldersFirst());
  }

  /** Every listed item is a child the user may view, with its folder
      flag, and every such child is listed. */
  lemma {:induction false} VisibleFacts(children: seq<Path>, mayView: Path -> bool, isFolder: Path -> bool)
    ensures forall k :: 0 <= k < |Visible(children, mayView, isFolder)| ==>
      var x := Visible(children, mayView, isFolder)[k];
      x.path in children && mayView(x.path) && x.isFolder == isFolder(x.path)
    ensures forall k :: 0 <= k < |children| && mayView(children[k]) ==>
      Item(children[k], isFolder(children[k])) in Visible(children, mayView, isFolder)
  {
    if |children| > 0 {
      var init := children[..|children| - 1];
      VisibleFacts(init, mayView, isFolder);
      assert forall k :: 0 <= k < |init| ==> init[k] == children[k];
    }
  }

  /** What `get_breadcrumb` returns: the target, the breadcrumb to it and
      the items inside it. */
  datatype Breadcrumb = Breadcrumb(target: Path, path: seq<Path>, items: seq<Item>)

  /** `get_breadcrumb` over the database `paths`; None where the start has
      no parent, where `root.get_resource(bc_target)` finds nothing
      (LookupError), or where the walk runs past the top. */
  method GetBreadcrumb(paths: set<Path>, root: Path, start: Option<Path>, targetPath: Option<string>,
                       isFolder: Path -> bool, children: Path -> seq<Path>, mayView: Path -> bool)
    returns (r: Option<Breadcrumb>)
    ensures var t := BreadcrumbTarget(root, start.GetOr(root), isFolder, targetPath);
      r.Some? <==> t.Some? && (targetPath.Some? ==> t.value in paths) && Reaches(root, t.value)
    ensures r.Some? ==>
      var t := r.value.target;
      var v := Visible(children(t), mayView, isFolder);
      && Some(t) == BreadcrumbTarget(root, start.GetOr(root), isFolder, targetPath)
      && r.value.path == Chain(root, t)
      && r.value.items == Filter(v, IsFolder) + Filter(v, NotFolder)
  {
    var target := BreadcrumbTarget(root, start.GetOr(root), isFolder, targetPath);
    if target.None? {
      return None;
    }
    // `root.get_resource(target_path)` raises when nothing is there
    if targetPath.Some? && target.value !in paths {
      return None;
    }
    var crumbs := Crumbs(root, target.value);
    if crumbs.None? {
      return None;
    }
    var items := BreadcrumbItems(children(target.value), mayView, isFolder);
    return Some(Breadcrumb(target.value, crumbs.value, items));
  }

  // ---------------------------------------------------------------------
  // DBResource_AddBase
  // ---------------------------------------------------------------------

  /** `get_scripts(mode)`: the base scripts, followed by the mode's own
      when a mode is given; None where the mode is unknown (KeyError). */
  function GetScripts(base: seq<string>, scripts: map<string, seq<string>>, mode: Option<string>): (r: Option<seq<string>>)
    ensures r.None? <==> mode.Some? && mode.value !in scripts
    ensures r.Some? ==> base <= r.value
    ensures r.Some? && mode.Some? ==> r.value[|base|..] == scripts[mode.value]
    ensures mode.None? ==> r == Some(base)
  {
    match mode
    case None => Some(base)
    case Some(m) =>
      if m in scripts then
        var r := base + scripts[m];
        assert r[|base|..] == scripts[m];
        Some(r)
      else None
  }

  /** `str(x)` of an optional form value. */
  function PyStr(x: Option<string>): string
  {
    x.GetOr("None")
  }

  /** `get_additional_javascript`: nothing unless the mode is 'input',
      then the dialog's script filled in with the target id (`fill` is
      `additional_javascript % _`). */
  function AdditionalJavascript(mode: Option<string>, targetId: Option<string>, fill: string -> string): (r: string)
    ensures mode != Some("input") ==> r == ""
    ensures mode == Some("input") ==> r == fill(PyStr(targetId))
  {
    if mode != Some("input") then "" else fill(PyStr(targetId))
  }

  /** `for filter_type in filter_types: if issubclass(...): break`. */
  method IsCompatible<C>(cls: C, filterTypes: seq<C>, isSubclass: (C, C) -> bool) returns (compatible: bool)
    ensures compatible <==> exists k :: 0 <= k < |filterTypes| && isSubclass(cls, filterTypes[k])
  {
    compatible := false;
    var i := 0;
    while i < |filterTypes|
      invariant 0 <= i <= |filterTypes|
      invariant forall k :: 0 <= k < i ==> !isSubclass(cls, filterTypes[k])
    {
      if isSubclass(cls, filterTypes[i]) {
        compatible := true;
        break;
      }
      i := i + 1;
    }
  }

  /** What `action_upload` answers. */
  datatype UploadOutcome =
    | BadName                       // MSG_BAD_NAME
    | NoContainer                   // LookupError: the target folder names nothing
    | NameClash                     // MSG_NAME_CLASH
    | WrongType                     // "The given file is none of the types ..."
    | Uploaded(child: Path, scripts: Option<seq<string>>)

  /** `action_upload`: the name from the file name must be a valid id,
      the target folder must exist, the name must be free in it, and the file's class one of the dialog's
      types; only then is the resource made. The scripts for the mode
      are looked up after the resource is made. */
  method ActionUpload<C>(site: Site, root: Path, targetPath: string, fileName: string,
                         decodeName: string -> string, checkid: string -> Option<string>,
                         cls: C, filterTypes: seq<C>, isSubclass: (C, C) -> bool,
                         base: seq<string>, scripts: map<string, seq<string>>, mode: Option<string>)
    returns (r: UploadOutcome)
    modifies site`paths
    ensures var name := checkid(decodeName(fileName));
      var container := Resolve(root, targetPath);
      && (r == BadName <==> name.None?)
      && (r == NoContainer <==> name.Some? && container !in old(site.paths))
      && (r == NameClash <==> name.Some? && container in old(site.paths) && container + [name.value] in old(site.paths))
      && (r == WrongType <==> (name.Some? && container in old(site.paths) && container + [name.value] !in old(site.paths) &&
            !exists k :: 0 <= k < |filterTypes| && isSubclass(cls, filterTypes[k])))
      && (r.Uploaded? ==> (r.child == container + [name.value] && Parent(r.child) == Some(container) &&
            site.paths == old(site.paths) + {r.child} && r.scripts == GetScripts(base, scripts, mode)))
      && (!r.Uploaded? ==> site.paths == old(site.paths))
  {
    var name := checkid(decodeName(fileName));
    if name.None? {
      return BadName;
    }
    var container := Resolve(root, targetPath);
    if container !in site.paths {
      return NoContainer;
    }
    if container + [name.value] in site.paths {
      return NameClash;
    }
    var compatible := IsCompatible(cls, filterTypes, isSubclass);
    if !compatible {
      return WrongType;
    }
    var child := container + [name.value];
    site.paths := site.paths + {child};
    return Uploaded(child, GetScripts(base, scripts, mode));
  }

  // ---------------------------------------------------------------------
  // DBResource_AddLink.get_page_type
  // ---------------------------------------------------------------------

  datatype PageType = WebPage | WikiPage

  /** The editor mode that creates each page type. */
  function ModeOf(t: PageType): string
  {
    match t
    case WebPage => "tiny_mce"
    case WikiPage => "wiki"
  }

  /** `get_page_type(mode)`; None where it raises ValueError. */
  function GetPageType(mode: string): (r: Option<PageType>)
  {
    if mode == "tiny_mce" then Some(WebPage)
    else if mode == "wiki" then Some(WikiPage)
    else None
  }

  /** Each page type has exactly one mode: the modes of the two types
      are the only ones accepted, and each gives back its type. */
  lemma PageTypeModes(mode: string, t: PageType)
    ensures GetPageType(ModeOf(t)) == Some(t)
    ensures GetPageType(mode) == Some(t) ==> mode == ModeOf(t)
    ensures GetPageType(mode).None? <==> mode != "tiny_mce" && mode != "wiki"
  {
  }

  // ---------------------------------------------------------------------
  // LoginView.action
  // ---------------------------------------------------------------------

  /** Where a successful login goes: back to the referrer, unless there
      is none or it was the login view itself (`uriPath` is
      `get_uri_path`). */
  function LoginRedirect(referrer: Option<string>, uriPath: string -> string): (r: string)
  {
    match referrer
    case None => "./"
    case Some(ref) => if EndsWith(uriPath(ref), ";login") then "./" else ref
  }

  /** The redirect never leads back to the login view, and it is the
      referrer whenever that is not the login view. */
  lemma LoginRedirectFacts(referrer: Option<string>, uriPath: string -> string)
    requires !EndsWith(uriPath("./"), ";login")
    ensures !EndsWith(uriPath(LoginRedirect(referrer, uriPath)), ";login")
    ensures referrer.Some? && !EndsWith(uriPath(referrer.value), ";login") ==>
      LoginRedirect(referrer, uriPath) == referrer.value
    ensures LoginRedirect(referrer, uriPath) == "./" || Some(LoginRedirect(referrer, uriPath)) == referrer
  {
  }

  datatype LoginMessage = NoSuchUser(username: string) | WrongPassword | Welcome

  /** What the login form changes: the message shown, the user of the
      request and the authentication cookie. */
  class LoginContext {
    var message: Option<LoginMessage>
    var user: Option<string>
    var authCookie: Option<(string, string)>

    constructor ()
      ensures message.None? && user.None? && authCookie.None?
    {
      message, user, authCookie := None, None, None;
    }

    /** `LoginView.action`: an unknown user or a wrong password is
        reported and nothing else happens; otherwise the cookie is set,
        the user is the request's, and the answer goes to the redirect. */
    method Login(username: string, password: string, userFromLogin: string -> Option<string>,
                 authenticate: (string, string) -> bool, referrer: Option<string>, uriPath: string -> string)
      returns (goto: Option<string>)
      modifies this
      ensures userFromLogin(username).None? ==>
        message == Some(NoSuchUser(username)) && goto.None? && user == old(user) && authCookie == old(authCookie)
      ensures userFromLogin(username).Some? && !authenticate(userFromLogin(username).value, password) ==>
        message == Some(WrongPassword) && goto.None? && user == old(user) && authCookie == old(authCookie)
      ensures goto.Some? <==> userFromLogin(username).Some? && authenticate(userFromLogin(username).value, password)
      ensures goto.Some? ==>
        && message == Some(Welcome)
        && user == userFromLogin(username)
        && authCookie == Some((userFromLogin(username).value, password))
        && goto.value == LoginRedirect(referrer, uriPath)
    {
      var found := userFromLogin(username);
      if found.None? {
        message := Some(NoSuchUser(username));
        return None;
      }
      if !authenticate(found.value, password) {
        message := Some(WrongPassword);
        return None;
      }
      authCookie := Some((found.value, password));
      user := found;
      message := Some(Welcome);
      return Some(LoginRedirect(referrer, uriPath));
    }
  }
}
