/** The folder views: the zoom menu of the image preview, the rename form
    and action, and the remove/copy/cut/paste actions over the `ikaaro_cp`
    cookie. */
module FolderViews {
  import opened Common
  import opened Tree

  /** What an action leaves in `context.message`; `NotFound(name)` stands
      for the LookupError `get_resource(name)` raises instead. */
  datatype Message =
    | BadName
    | ExistentFilename
    | Renamed
    | ResourcesReferenced(names: seq<string>)
    | ResourcesRemoved(names: seq<string>)
    | ResourcesNotRemoved(names: seq<string>)
    | NoneRemoved
    | NoneSelected
    | Copied
    | Cut
    | NoPaste
    | ResourcesPasted(names: seq<string>)
    | ResourcesNotPasted(names: seq<string>)
    | NotFound(name: string)
    | NoNewName

  // `NoNewName` stands for the IndexError `new_names[i]` raises when the
  // form has fewer new names than paths.

  // ---------------------------------------------------------------------
  // ZoomMenu.get_items (folder_views.py:87-113)
  // ---------------------------------------------------------------------

  ghost predicate Increasing(s: seq<int>)
  {
    forall i, j :: 0 <= i < j < |s| ==> s[i] < s[j]
  }

  /** The value `previous_size` has after the loop has seen `steps`: the
      last step below `current`, `lowest` when there is none. */
  function ZoomPrevious(steps: seq<int>, current: int, lowest: int): int
  {
    if |steps| == 0 then lowest
    else if steps[|steps| - 1] < current then steps[|steps| - 1]
    else ZoomPrevious(steps[..|steps| - 1], current, lowest)
  }

  /** The value `next_size` has after the loop has seen `steps`: it is
      overwritten only while it still holds `highest`. */
  function ZoomNext(steps: seq<int>, current: int, highest: int): int
  {
    if |steps| == 0 then highest
    else
      var n := ZoomNext(steps[..|steps| - 1], current, highest);
      if n == highest && steps[|steps| - 1] > current then steps[|steps| - 1] else n
  }

  /** `previous_size` is the largest step strictly below the size, or the
      fallback when no step is below it. */
  lemma {:induction false} ZoomPreviousIsLargestBelow(steps: seq<int>, current: int, lowest: int)
    requires Increasing(steps)
    ensures (forall k :: 0 <= k < |steps| ==> steps[k] >= current) ==>
              ZoomPrevious(steps, current, lowest) == lowest
    ensures (exists k :: 0 <= k < |steps| && steps[k] < current) ==>
              var r := ZoomPrevious(steps, current, lowest);
              r < current && r in steps &&
              forall k :: 0 <= k < |steps| && steps[k] < current ==> steps[k] <= r
  {
    if |steps| > 0 {
      var init := steps[..|steps| - 1];
      ZoomPreviousIsLargestBelow(init, current, lowest);
      if steps[|steps| - 1] >= current {
        assert forall k :: 0 <= k < |steps| && steps[k] < current ==> k < |steps| - 1 && steps[k] == init[k];
        if exists k :: 0 <= k < |steps| && steps[k] < current {
          var k :| 0 <= k < |steps| && steps[k] < current;
          assert init[k] < current;
        }
      }
    }
  }

  /** `next_size` is the smallest step strictly above the size, or the
      maximum when no step is above it. */
  lemma {:induction false} ZoomNextIsSmallestAbove(steps: seq<int>, current: int, highest: int)
    requires Increasing(steps)
    requires forall k :: 0 <= k < |steps| ==> steps[k] <= highest
    ensures (forall k :: 0 <= k < |steps| ==> steps[k] <= current) ==>
              ZoomNext(steps, current, highest) == highest
    ensures (exists k :: 0 <= k < |steps| && steps[k] > current) ==>
              var r := ZoomNext(steps, current, highest);
              r > current && r in steps &&
              forall k :: 0 <= k < |steps| && steps[k] > current ==> r <= steps[k]
  {
    if |steps| > 0 {
      var init := steps[..|steps| - 1];
      var last := steps[|steps| - 1];
      assert forall k :: 0 <= k < |init| ==> init[k] == steps[k] && init[k] < last;
      ZoomNextIsSmallestAbove(init, current, highest);
      if exists k :: 0 <= k < |init| && init[k] > current {
        var n := ZoomNext(init, current, highest);
        assert n in init;
        assert n < highest;
      }
    }
  }

  /** The sizes the zoom menu links to: the query's size clamped into the
      range of the steps, the step below it and the step above it. */
  method ZoomSizes(steps: seq<int>, size: int) returns (current: int, previous: int, next: int)
    requires |steps| > 0
    ensures current == (if size < steps[0] then steps[0]
                        else if size > steps[|steps| - 1] then Max(steps[0], steps[|steps| - 1])
                        else size)
    ensures previous == ZoomPrevious(steps, current, steps[0])
    ensures next == ZoomNext(steps, current, steps[|steps| - 1])
    ensures Increasing(steps) ==> steps[0] <= previous <= current <= next <= steps[|steps| - 1]
    ensures Increasing(steps) ==>
              forall k :: 0 <= k < |steps| && steps[k] < current ==> steps[k] <= previous
    ensures Increasing(steps) ==>
              forall k :: 0 <= k < |steps| && steps[k] > current ==> next <= steps[k]
  {
    var lowest, highest := steps[0], steps[|steps| - 1];
    current := if size < highest then size else highest;
    current := if lowest >= current then lowest else current;
    previous, next := lowest, highest;
    for i := 0 to |steps|
      invariant previous == ZoomPrevious(steps[..i], current, lowest)
      invariant next == ZoomNext(steps[..i], current, highest)
    {
      assert steps[..i + 1][..i] == steps[..i];
      if steps[i] < current {
        previous := steps[i];
      }
      if next == highest && steps[i] > current {
        next := steps[i];
      }
    }
    assert steps[..|steps|] == steps;
    if Increasing(steps) {
      assert forall k :: 0 <= k < |steps| ==> lowest <= steps[k] <= highest;
      ZoomPreviousIsLargestBelow(steps, current, lowest);
      ZoomNextIsSmallestAbove(steps, current, highest);
    }
  }

  function Max(a: int, b: int): int
  {
    if a >= b then a else b
  }

  // ---------------------------------------------------------------------
  // Folder_Rename.get_namespace (folder_views.py:210-234)
  // ---------------------------------------------------------------------

  /** `path.rsplit('/', 1)` with the slash kept on the parent side, or
      ('', path) when the path has no slash. */
  function RenameSplit(path: string): (r: (string, string))
    ensures r.0 + r.1 == path
    ensures '/' in path ==> EndsWith(r.0, "/") && '/' !in r.1
    ensures '/' !in path ==> r.0 == "" && r.1 == path
  {
    match LastIndexOf(path, '/')
    case None => ("", path)
    case Some(k) =>
      assert path[..k + 1] + path[k + 1..] == path;
      (path[..k + 1], path[k + 1..])
  }

  /** `paths.sort(); paths.reverse()`. */
  function Descending(ids: seq<string>): (r: seq<string>)
    ensures multiset(r) == multiset(ids) && |r| == |ids|
  {
    Reverse(SortBy(ids, LexLe))
  }

  lemma DescendingIsSorted(ids: seq<string>)
    ensures forall i, j :: 0 <= i < j < |ids| ==> LexLe(Descending(ids)[j], Descending(ids)[i])
  {
    forall a, b ensures LexLe(a, b) || LexLe(b, a) {
      LexLeTotal(a, b);
    }
    forall a, b, c | LexLe(a, b) && LexLe(b, c) ensures LexLe(a, c) {
      LexLeTransitive(a, b, c);
    }
    SortBySorted(ids, LexLe);
  }

  /** In a descending list of paths a path inside another ('a/b' inside
      'a') comes first: children are handled before their parents. */
  lemma ChildrenBeforeParents(s: seq<string>, i: nat, j: nat)
    requires forall a, b :: 0 <= a < b < |s| ==> LexLe(s[b], s[a])
    requires i < |s| && j < |s| && s[i] <= s[j] && |s[i]| < |s[j]|
    ensures j < i
  {
    if i < j {
      PrefixLexLe(s[i], s[j]);
      LexLeAntisymmetric(s[i], s[j]);
    }
  }

  datatype RenameItem = RenameItem(path: string, parentPath: string, name: string)

  /** Whether the user may act on the resource `name` names. */
  function PermittedBy(here: Path, allowed: Path -> bool): string -> bool
  {
    (name: string) => allowed(Resolve(here, name))
  }

  /** Every name in `names` resolves to a resource under `here`. */
  predicate AllExist(paths: set<Path>, here: Path, names: seq<string>)
  {
    forall k :: 0 <= k < |names| ==> Resolve(here, names[k]) in paths
  }

  lemma AllExistSnoc(paths: set<Path>, here: Path, names: seq<string>, x: string)
    requires AllExist(paths, here, names) && Resolve(here, x) in paths
    ensures AllExist(paths, here, names + [x])
  {
  }

  /** The names among `ids` the user is permitted on, in their order:
      `[ x for x in ids if allowed(user, resource.get_resource(x)) ]`,
      which raises on the first id that names nothing. */
  method Permitted(paths: set<Path>, here: Path, ids: seq<string>, allowed: Path -> bool)
    returns (kept: seq<string>, error: Option<Message>)
    ensures error.None? <==> AllExist(paths, here, ids)
    ensures error.Some? ==> exists k :: (0 <= k < |ids| && error.value == NotFound(ids[k]) &&
              Resolve(here, ids[k]) !in paths && AllExist(paths, here, ids[..k]))
    ensures error.None? ==> kept == Filter(ids, PermittedBy(here, allowed))
  {
    var keep := PermittedBy(here, allowed);
    kept, error := [], None;
    var i := 0;
    while i < |ids|
      invariant 0 <= i <= |ids|
      invariant AllExist(paths, here, ids[..i])
      invariant kept == Filter(ids[..i], keep)
    {
      var target := Resolve(here, ids[i]);
      if target !in paths {
        error := Some(NotFound(ids[i]));
        return;
      }
      FilterSnoc(ids[..i], ids[i], keep);
      assert ids[..i + 1] == ids[..i] + [ids[i]];
      AllExistSnoc(paths, here, ids[..i], ids[i]);
      if allowed(target) {
        kept := kept + [ids[i]];
      }
      i := i + 1;
    }
    assert ids[..i] == ids;
  }

  /** The rename form's rows: the ids the user may move, in descending
      order, each split into its parent path and its name. */
  method RenameNamespace(paths: set<Path>, here: Path, ids: seq<string>, mayMove: Path -> bool)
    returns (items: seq<RenameItem>, error: Option<Message>)
    ensures error.None? <==> AllExist(paths, here, ids)
    ensures error.None? ==> |items| <= |ids|
    ensures error.None? ==> forall k :: 0 <= k < |items| ==>
              (items[k].path in ids && mayMove(Resolve(here, items[k].path)) &&
               (items[k].parentPath, items[k].name) == RenameSplit(items[k].path))
    ensures error.None? ==> forall k :: 0 <= k < |ids| && mayMove(Resolve(here, ids[k])) ==>
              exists j :: 0 <= j < |items| && items[j].path == ids[k]
    ensures error.None? ==> forall i, j :: 0 <= i < j < |items| ==> LexLe(items[j].path, items[i].path)
    ensures error.None? ==> multiset(ItemPaths(items)) == multiset(Filter(ids, PermittedBy(here, mayMove)))
  {
    var kept;
    kept, error := Permitted(paths, here, ids, mayMove);
    items := [];
    if error.Some? {
      return;
    }
    FilterMembers(ids, PermittedBy(here, mayMove));
    var sorted := Descending(kept);
    DescendingIsSorted(kept);
    items := RenameRows(sorted);
    RenameRowsFromKept(items, sorted, kept, ids, here, mayMove);
  }

  /** The paths of the rows, in order. */
  function ItemPaths(items: seq<RenameItem>): (r: seq<string>)
    ensures |r| == |items| && forall k :: 0 <= k < |items| ==> r[k] == items[k].path
  {
    seq(|items|, k requires 0 <= k < |items| => items[k].path)
  }

  /** The row of one path: the path, its parent path and its name. */
  function RenameItemOf(path: string): RenameItem
  {
    var (parentPath, name) := RenameSplit(path);
    RenameItem(path, parentPath, name)
  }

  /** One row per path, in the same order. */
  method RenameRows(sorted: seq<string>) returns (items: seq<RenameItem>)
    ensures |items| == |sorted|
    ensures forall k :: 0 <= k < |items| ==> items[k] == RenameItemOf(sorted[k])
  {
    items := [];
    for j := 0 to |sorted|
      invariant |items| == j
      invariant forall k :: 0 <= k < j ==> items[k] == RenameItemOf(sorted[k])
    {
      items := items + [RenameItemOf(sorted[j])];
    }
  }

  lemma RenameRowsFromKept(items: seq<RenameItem>, sorted: seq<string>, kept: seq<string>, ids: seq<string>,
                           here: Path, mayMove: Path -> bool)
    requires kept == Filter(ids, PermittedBy(here, mayMove))
    requires multiset(sorted) == multiset(kept)
    requires |items| == |sorted|
    requires forall k :: 0 <= k < |items| ==> items[k].path == sorted[k]
    ensures forall k :: 0 <= k < |items| ==> items[k].path in ids && mayMove(Resolve(here, items[k].path))
    ensures forall k :: 0 <= k < |ids| && mayMove(Resolve(here, ids[k])) ==>
              exists j :: 0 <= j < |items| && items[j].path == ids[k]
    ensures multiset(ItemPaths(items)) == multiset(kept)
  {
    assert ItemPaths(items) == sorted;
    FilterMembers(ids, PermittedBy(here, mayMove));
    forall k | 0 <= k < |items|
      ensures items[k].path in ids && mayMove(Resolve(here, items[k].path))
    {
      assert sorted[k] in multiset(kept);
    }
    forall k | 0 <= k < |ids| && mayMove(Resolve(here, ids[k]))
      ensures exists j :: 0 <= j < |items| && items[j].path == ids[k]
    {
      assert ids[k] in multiset(sorted);
      var j :| 0 <= j < |sorted| && sorted[j] == ids[k];
      assert items[j].path == ids[k];
    }
  }

  // ---------------------------------------------------------------------
  // Folder_Rename.action (folder_views.py:237-288)
  // ---------------------------------------------------------------------

  /** Where the resource `path` names lives: `lookup` is the parent path
      looked up with `get_resource` (None when the path has no slash and
      the container is the folder itself), and the old name. */
  datatype Source = Source(lookup: Option<string>, container: Path, oldName: string)

  function RenameSource(here: Path, path: string): (r: Source)
    ensures '/' !in path ==> r == Source(None, here, path)
    ensures '/' in path ==> r.lookup.Some? && r.lookup.value + "/" + r.oldName == path && '/' !in r.oldName
  {
    match LastIndexOf(path, '/')
    case None => Source(None, here, path)
    case Some(k) =>
      assert path[..k] + "/" + path[k + 1..] == path;
      Source(Some(path[..k]), Resolve(here, path[..k]), path[k + 1..])
  }

  /** The rename loop's state: the database, the cookie, `cp_paths`, the
      two outcome lists, and the message that stopped the loop, if any. */
  datatype RenameState = RenameState(
    paths: set<Path>, cookie: Option<CopyCookie>, cpPaths: seq<Path>,
    renamed: seq<string>, referenced: seq<string>, stop: Option<Message>)

  function RenameStart(paths: set<Path>, cookie: Option<CopyCookie>): RenameState
  {
    RenameState(paths, cookie, cookie.GetOr(NoCookie).paths, [], [], None)
  }

  /** `new_names[i]`: None past the end of the list. */
  function NewNameAt(newNames: seq<string>, i: nat): (r: Option<string>)
    ensures r.Some? <==> i < |newNames|
    ensures r.Some? ==> r.value == newNames[i]
  {
    if i < |newNames| then Some(newNames[i]) else None
  }

  /** One pass of the loop: rename `path` to `newName` (None when the form
      has no new name for it). */
  function RenameStep(st: RenameState, here: Path, path: string, newName: Option<string>,
                      checkid: string -> Option<string>, refuses: (set<Path>, Op) -> bool): RenameState
  {
    if st.stop.Some? then st
    else if newName.None? then st.(stop := Some(NoNewName))
    else match checkid(newName.value)
    case None => st.(stop := Some(BadName))
    case Some(nn) =>
      var src := RenameSource(here, path);
      if src.lookup.Some? && src.container !in st.paths then st.(stop := Some(NotFound(src.lookup.value)))
      else if nn == src.oldName then st
      else if src.container + [nn] in st.paths then st.(stop := Some(ExistentFilename))
      else
        var st1 := if |st.cpPaths| > 0 && Resolve(here, path) in st.cpPaths then st.(cookie := None, cpPaths := []) else st;
        var from, to := src.container + [src.oldName], src.container + [nn];
        if from !in st1.paths then st1.(stop := Some(NotFound(src.oldName)))
        else if refuses(st1.paths, MoveOp(from, to)) then st1.(referenced := st1.referenced + [src.oldName])
        else st1.(paths := Move(st1.paths, from, to), renamed := st1.renamed + [src.oldName])
  }

  /** Whether a pass gets as far as the cookie clean-up: the loop is
      running, the new name is there and valid, the container exists, the
      name really changes and the new name is free. */
  predicate RenameReachesCookie(st: RenameState, here: Path, path: string, newName: Option<string>,
                                checkid: string -> Option<string>)
  {
    var src := RenameSource(here, path);
    && st.stop.None? && newName.Some? && checkid(newName.value).Some?
    && (src.lookup.None? || src.container in st.paths)
    && checkid(newName.value).value != src.oldName
    && src.container + [checkid(newName.value).value] !in st.paths
  }

  /** What one pass does: nothing once stopped, MSG_BAD_NAME for a name
      `checkid` rejects, the cookie deleted only for a path the cookie
      holds, and at most one more name in the two lists. */
  lemma RenameStepFacts(st: RenameState, here: Path, path: string, newName: Option<string>,
                        checkid: string -> Option<string>, refuses: (set<Path>, Op) -> bool)
    ensures var r := RenameStep(st, here, path, newName, checkid, refuses);
            (st.stop.Some? ==> r == st) &&
            (st.stop.None? && newName.None? ==> r == st.(stop := Some(NoNewName))) &&
            (st.stop.None? && newName.Some? && checkid(newName.value).None? ==> r == st.(stop := Some(BadName))) &&
            (r.cookie == st.cookie || r.cookie == None) &&
            (r.cookie != st.cookie || r.cpPaths != st.cpPaths ==>
               r.cookie == None && r.cpPaths == [] && |st.cpPaths| > 0 && Resolve(here, path) in st.cpPaths) &&
            |r.renamed| + |r.referenced| <= |st.renamed| + |st.referenced| + 1
  {
    RenameStepCookie(st, here, path, newName, checkid, refuses);
  }

  /** The cookie clean-up of one pass, exactly: a pass that gets past the
      checks deletes the cookie when `cp_paths` is non-empty and holds the
      path's absolute path, before the move and whether or not the
      database refuses it; any other pass leaves the cookie alone. */
  lemma RenameStepCookie(st: RenameState, here: Path, path: string, newName: Option<string>,
                         checkid: string -> Option<string>, refuses: (set<Path>, Op) -> bool)
    ensures var r := RenameStep(st, here, path, newName, checkid, refuses);
            var clean := RenameReachesCookie(st, here, path, newName, checkid) &&
                         |st.cpPaths| > 0 && Resolve(here, path) in st.cpPaths;
            r.cookie == (if clean then None else st.cookie) &&
            r.cpPaths == (if clean then [] else st.cpPaths)
  {
  }

  /** The database changes only by the move of the resource to its new
      name, and that resource is then recorded as renamed. */
  lemma RenameStepMove(st: RenameState, here: Path, path: string, newName: Option<string>,
                       checkid: string -> Option<string>, refuses: (set<Path>, Op) -> bool)
    ensures var r := RenameStep(st, here, path, newName, checkid, refuses);
            var src := RenameSource(here, path);
            r.paths != st.paths ==>
              newName.Some? && checkid(newName.value).Some? &&
              r.paths == Move(st.paths, src.container + [src.oldName], src.container + [checkid(newName.value).value]) &&
              r.renamed == st.renamed + [src.oldName]
  {
    if st.stop.None? && newName.Some? && checkid(newName.value).Some? {
      var src := RenameSource(here, path);
      var st1 := if |st.cpPaths| > 0 && Resolve(here, path) in st.cpPaths then st.(cookie := None, cpPaths := []) else st;
      assert st1.paths == st.paths && st1.renamed == st.renamed;
    }
  }

  /** The loop over the sorted paths; `paths[i]` is paired with
      `newNames[i]`. */
  function RenameRun(st: RenameState, here: Path, paths: seq<string>, newNames: seq<string>,
                     checkid: string -> Option<string>, refuses: (set<Path>, Op) -> bool): RenameState
  {
    if |paths| == 0 then st
    else
      var n := |paths| - 1;
      RenameStep(RenameRun(st, here, paths[..n], newNames, checkid, refuses), here, paths[n], NewNameAt(newNames, n), checkid, refuses)
  }

  function RenameMessage(st: RenameState): Message
  {
    if st.stop.Some? then st.stop.value
    else if |st.referenced| > 0 && |st.renamed| == 0 then ResourcesReferenced(st.referenced)
    else Renamed
  }

  /** Once the loop has stopped, the remaining paths change nothing. */
  lemma {:induction false} RenameRunStopped(st: RenameState, here: Path, paths: seq<string>, newNames: seq<string>,
                                            checkid: string -> Option<string>, refuses: (set<Path>, Op) -> bool, k: nat)
    requires k <= |paths|
    requires RenameRun(st, here, paths[..k], newNames, checkid, refuses).stop.Some?
    ensures RenameRun(st, here, paths, newNames, checkid, refuses) == RenameRun(st, here, paths[..k], newNames, checkid, refuses)
  {
    if k < |paths| {
      var n := |paths| - 1;
      var mid := RenameRun(st, here, paths[..n], newNames, checkid, refuses);
      assert mid == RenameRun(st, here, paths[..k], newNames, checkid, refuses) by {
        assert paths[..n][..k] == paths[..k];
        RenameRunStopped(st, here, paths[..n], newNames, checkid, refuses, k);
      }
      assert RenameRun(st, here, paths, newNames, checkid, refuses) ==
             RenameStep(mid, here, paths[n], NewNameAt(newNames, n), checkid, refuses);
    } else {
      assert paths[..k] == paths;
    }
  }

  /** A new name `checkid` rejects ends the action with MSG_BAD_NAME: what
      was renamed before stays renamed, nothing after is looked at. */
  lemma RenameBadNameStops(st: RenameState, here: Path, paths: seq<string>, newNames: seq<string>,
                           checkid: string -> Option<string>, refuses: (set<Path>, Op) -> bool, k: nat)
    requires k < |paths| && k < |newNames|
    requires RenameRun(st, here, paths[..k], newNames, checkid, refuses).stop.None?
    requires checkid(newNames[k]).None?
    ensures RenameRun(st, here, paths, newNames, checkid, refuses) ==
              RenameRun(st, here, paths[..k], newNames, checkid, refuses).(stop := Some(BadName))
  {
    assert paths[..k + 1][..k] == paths[..k];
    RenameRunStopped(st, here, paths, newNames, checkid, refuses, k + 1);
  }

  /** A path with no new name (the form sent fewer new names than paths)
      ends the action with the IndexError: what was renamed before stays
      renamed, nothing after is looked at. */
  lemma RenameShortNamesStop(st: RenameState, here: Path, paths: seq<string>, newNames: seq<string>,
                             checkid: string -> Option<string>, refuses: (set<Path>, Op) -> bool, k: nat)
    requires |newNames| <= k < |paths|
    requires RenameRun(st, here, paths[..k], newNames, checkid, refuses).stop.None?
    ensures var fin := RenameRun(st, here, paths, newNames, checkid, refuses);
            fin == RenameRun(st, here, paths[..k], newNames, checkid, refuses).(stop := Some(NoNewName)) &&
            RenameMessage(fin) == NoNewName
  {
    assert paths[..k + 1][..k] == paths[..k];
    RenameRunStopped(st, here, paths, newNames, checkid, refuses, k + 1);
  }

  /** A new name already taken in the container ends the action with
      MSG_EXISTANT_FILENAME, and that resource is not moved. */
  lemma RenameExistingStops(st: RenameState, here: Path, paths: seq<string>, newNames: seq<string>,
                            checkid: string -> Option<string>, refuses: (set<Path>, Op) -> bool, k: nat)
    requires k < |paths| && k < |newNames|
    requires RenameRun(st, here, paths[..k], newNames, checkid, refuses).stop.None?
    requires checkid(newNames[k]).Some?
    requires var pre := RenameRun(st, here, paths[..k], newNames, checkid, refuses);
             var src := RenameSource(here, paths[k]);
             (src.lookup.None? || src.container in pre.paths) &&
             checkid(newNames[k]).value != src.oldName &&
             src.container + [checkid(newNames[k]).value] in pre.paths
    ensures var pre := RenameRun(st, here, paths[..k], newNames, checkid, refuses);
            var fin := RenameRun(st, here, paths, newNames, checkid, refuses);
            fin == pre.(stop := Some(ExistentFilename)) && RenameMessage(fin) == ExistentFilename
  {
    assert paths[..k + 1][..k] == paths[..k];
    RenameRunStopped(st, here, paths, newNames, checkid, refuses, k + 1);
  }

  /** A move the database refuses records the old name as referenced and
      the loop goes on with the next path. */
  lemma RenameRefusedContinues(st: RenameState, here: Path, paths: seq<string>, newNames: seq<string>,
                               checkid: string -> Option<string>, refuses: (set<Path>, Op) -> bool, k: nat)
    requires k < |paths| && k < |newNames|
    requires RenameRun(st, here, paths[..k], newNames, checkid, refuses).stop.None?
    requires checkid(newNames[k]).Some?
    requires var pre := RenameRun(st, here, paths[..k], newNames, checkid, refuses);
             var src := RenameSource(here, paths[k]);
             var nn := checkid(newNames[k]).value;
             (src.lookup.None? || src.container in pre.paths) &&
             nn != src.oldName && src.container + [nn] !in pre.paths &&
             src.container + [src.oldName] in pre.paths &&
             refuses(pre.paths, MoveOp(src.container + [src.oldName], src.container + [nn]))
    ensures var pre := RenameRun(st, here, paths[..k], newNames, checkid, refuses);
            var post := RenameRun(st, here, paths[..k + 1], newNames, checkid, refuses);
            post.stop.None? && post.paths == pre.paths && post.renamed == pre.renamed &&
            post.referenced == pre.referenced + [RenameSource(here, paths[k]).oldName]
  {
    assert paths[..k + 1][..k] == paths[..k];
  }

  /** A new name that `checkid` turns into the old name skips the path:
      the pass changes nothing and the loop goes on. */
  lemma RenameUnchangedSkipped(st: RenameState, here: Path, paths: seq<string>, newNames: seq<string>,
                               checkid: string -> Option<string>, refuses: (set<Path>, Op) -> bool, k: nat)
    requires k < |paths| && k < |newNames|
    requires RenameRun(st, here, paths[..k], newNames, checkid, refuses).stop.None?
    requires checkid(newNames[k]).Some?
    requires var pre := RenameRun(st, here, paths[..k], newNames, checkid, refuses);
             var src := RenameSource(here, paths[k]);
             (src.lookup.None? || src.container in pre.paths) && checkid(newNames[k]).value == src.oldName
    ensures RenameRun(st, here, paths[..k + 1], newNames, checkid, refuses) ==
            RenameRun(st, here, paths[..k], newNames, checkid, refuses)
  {
    assert paths[..k + 1][..k] == paths[..k];
  }

  /** Over the whole loop the cookie is kept, or it is deleted (and
      `cp_paths` emptied) because one of the paths renamed was in the
      cookie. */
  lemma {:induction false} RenameRunCookie(st: RenameState, here: Path, paths: seq<string>, newNames: seq<string>,
                                           checkid: string -> Option<string>, refuses: (set<Path>, Op) -> bool)
    ensures var fin := RenameRun(st, here, paths, newNames, checkid, refuses);
            (fin.cookie == st.cookie && fin.cpPaths == st.cpPaths) ||
            (fin.cookie == None && fin.cpPaths == [] && |st.cpPaths| > 0 &&
             exists k :: 0 <= k < |paths| && Resolve(here, paths[k]) in st.cpPaths)
  {
    if |paths| > 0 {
      var n := |paths| - 1;
      var mid := RenameRun(st, here, paths[..n], newNames, checkid, refuses);
      RenameRunCookie(st, here, paths[..n], newNames, checkid, refuses);
      RenameStepFacts(mid, here, paths[n], NewNameAt(newNames, n), checkid, refuses);
      var fin := RenameRun(st, here, paths, newNames, checkid, refuses);
      if fin.cookie != st.cookie || fin.cpPaths != st.cpPaths {
        if mid.cookie == st.cookie && mid.cpPaths == st.cpPaths {
          assert Resolve(here, paths[n]) in st.cpPaths;
        } else {
          var k :| 0 <= k < n && Resolve(here, paths[..n][k]) in st.cpPaths;
          assert paths[..n][k] == paths[k];
        }
      }
    }
  }

  /** Once the loop has deleted the cookie, it stays deleted. */
  lemma {:induction false} RenameStaysDeleted(st: RenameState, here: Path, paths: seq<string>, newNames: seq<string>,
                                              checkid: string -> Option<string>, refuses: (set<Path>, Op) -> bool, k: nat)
    requires k <= |paths|
    requires RenameRun(st, here, paths[..k], newNames, checkid, refuses).cookie == None
    ensures RenameRun(st, here, paths, newNames, checkid, refuses).cookie == None
  {
    if k < |paths| {
      var n := |paths| - 1;
      var mid := RenameRun(st, here, paths[..n], newNames, checkid, refuses);
      assert paths[..n][..k] == paths[..k];
      RenameStaysDeleted(st, here, paths[..n], newNames, checkid, refuses, k);
      RenameStepCookie(mid, here, paths[n], NewNameAt(newNames, n), checkid, refuses);
    } else {
      assert paths[..k] == paths;
    }
  }

  /** A path the cookie holds, reached by the loop while the cookie's
      paths are still there, leaves no cookie at the end. */
  lemma RenameCookieDeleted(st: RenameState, here: Path, paths: seq<string>, newNames: seq<string>,
                            checkid: string -> Option<string>, refuses: (set<Path>, Op) -> bool, k: nat)
    requires k < |paths|
    requires var pre := RenameRun(st, here, paths[..k], newNames, checkid, refuses);
             RenameReachesCookie(pre, here, paths[k], NewNameAt(newNames, k), checkid) &&
             |pre.cpPaths| > 0 && Resolve(here, paths[k]) in pre.cpPaths
    ensures RenameRun(st, here, paths, newNames, checkid, refuses).cookie == None
  {
    var pre := RenameRun(st, here, paths[..k], newNames, checkid, refuses);
    assert paths[..k + 1][..k] == paths[..k];
    assert RenameRun(st, here, paths[..k + 1], newNames, checkid, refuses) ==
           RenameStep(pre, here, paths[k], NewNameAt(newNames, k), checkid, refuses);
    RenameStepCookie(pre, here, paths[k], NewNameAt(newNames, k), checkid, refuses);
    RenameStaysDeleted(st, here, paths, newNames, checkid, refuses, k + 1);
  }

  /** Every path lands in at most one of the two lists, and the cookie is
      either kept or deleted, never changed otherwise. */
  lemma {:induction false} RenameRunBuckets(st: RenameState, here: Path, paths: seq<string>, newNames: seq<string>,
                                            checkid: string -> Option<string>, refuses: (set<Path>, Op) -> bool)
    ensures var fin := RenameRun(st, here, paths, newNames, checkid, refuses);
            |fin.renamed| + |fin.referenced| <= |st.renamed| + |st.referenced| + |paths| &&
            (fin.cookie == st.cookie || fin.cookie == None)
  {
    if |paths| > 0 {
      var n := |paths| - 1;
      RenameRunBuckets(st, here, paths[..n], newNames, checkid, refuses);
      RenameStepFacts(RenameRun(st, here, paths[..n], newNames, checkid, refuses), here, paths[n], NewNameAt(newNames, n), checkid, refuses);
    }
  }

  /** One pass of the rename loop, on the site itself. */
  method RenameOne(site: Site, here: Path, path: string, newName: Option<string>, cpPaths: seq<Path>,
                   renamed: seq<string>, referenced: seq<string>,
                   checkid: string -> Option<string>, refuses: (set<Path>, Op) -> bool)
    returns (cpPaths': seq<Path>, renamed': seq<string>, referenced': seq<string>, stop: Option<Message>)
    modifies site
    ensures RenameStep(RenameState(old(site.paths), old(site.cookie), cpPaths, renamed, referenced, None),
                       here, path, newName, checkid, refuses) ==
            RenameState(site.paths, site.cookie, cpPaths', renamed', referenced', stop)
  {
    cpPaths', renamed', referenced', stop := cpPaths, renamed, referenced, None;
    if newName.None? {
      // `new_names[i]` raises IndexError
      stop := Some(NoNewName);
      return;
    }
    match checkid(newName.value) {
      case None =>
        stop := Some(BadName);
      case Some(nn) =>
        var src := RenameSource(here, path);
        if src.lookup.Some? && src.container !in site.paths {
          stop := Some(NotFound(src.lookup.value));
        } else if nn == src.oldName {
        } else if src.container + [nn] in site.paths {
          stop := Some(ExistentFilename);
        } else {
          // Clean the copy cookie if the resource is in it
          if |cpPaths'| > 0 && Resolve(here, path) in cpPaths' {
            site.cookie := None;
            cpPaths' := [];
          }
          var from, to := src.container + [src.oldName], src.container + [nn];
          if from !in site.paths {
            stop := Some(NotFound(src.oldName));
          } else if refuses(site.paths, MoveOp(from, to)) {
            referenced' := referenced' + [src.oldName];
          } else {
            site.paths := Move(site.paths, from, to);
            renamed' := renamed' + [src.oldName];
          }
        }
    }
  }

  /** The loop of `Folder_Rename.action` over the sorted paths. */
  method RenameLoop(site: Site, here: Path, sorted: seq<string>, newNames: seq<string>,
                    checkid: string -> Option<string>, refuses: (set<Path>, Op) -> bool)
    returns (cpPaths: seq<Path>, renamed: seq<string>, referenced: seq<string>, stop: Option<Message>)
    modifies site
    ensures RenameRun(RenameStart(old(site.paths), old(site.cookie)), here, sorted, newNames, checkid, refuses) ==
            RenameState(site.paths, site.cookie, cpPaths, renamed, referenced, stop)
  {
    ghost var start := RenameStart(site.paths, site.cookie);
    cpPaths := site.ReadCookie().paths;
    renamed, referenced := [], [];
    stop := None;
    var i := 0;
    while i < |sorted| && stop.None?
      invariant 0 <= i <= |sorted|
      invariant RenameRun(start, here, sorted[..i], newNames, checkid, refuses) ==
                  RenameState(site.paths, site.cookie, cpPaths, renamed, referenced, stop)
    {
      assert sorted[..i + 1][..i] == sorted[..i];
      cpPaths, renamed, referenced, stop :=
        RenameOne(site, here, sorted[i], NewNameAt(newNames, i), cpPaths, renamed, referenced, checkid, refuses);
      i := i + 1;
    }
    if stop.Some? {
      RenameRunStopped(start, here, sorted, newNames, checkid, refuses, i);
    } else {
      assert sorted[..i] == sorted;
    }
  }

  /** `Folder_Rename.action`: the paths are handled in descending order,
      the i-th of them renamed to `newNames[i]`. */
  method RenameAction(site: Site, here: Path, paths: seq<string>, newNames: seq<string>,
                      checkid: string -> Option<string>, refuses: (set<Path>, Op) -> bool)
    returns (msg: Message, renamed: seq<string>, referenced: seq<string>)
    modifies site
    ensures var fin := RenameRun(RenameStart(old(site.paths), old(site.cookie)), here, Descending(paths),
                                 newNames, checkid, refuses);
            site.paths == fin.paths && site.cookie == fin.cookie &&
            renamed == fin.renamed && referenced == fin.referenced && msg == RenameMessage(fin)
    ensures |renamed| + |referenced| <= |paths|
    ensures site.cookie == old(site.cookie) || site.cookie == None
    ensures site.cookie != old(site.cookie) ==>
              site.cookie == None && old(site.cookie).Some? &&
              exists k :: 0 <= k < |paths| && Resolve(here, paths[k]) in old(site.cookie).value.paths
  {
    ghost var start := RenameStart(site.paths, site.cookie);
    var sorted := Descending(paths);
    var cpPaths, stop;
    cpPaths, renamed, referenced, stop := RenameLoop(site, here, sorted, newNames, checkid, refuses);
    RenameRunBuckets(start, here, sorted, newNames, checkid, refuses);
    RenameRunCookie(start, here, sorted, newNames, checkid, refuses);
    if site.cookie != start.cookie {
      var k :| 0 <= k < |sorted| && Resolve(here, sorted[k]) in start.cpPaths;
      assert sorted[k] in multiset(paths) by { assert sorted[k] in multiset(sorted); }
      var j :| 0 <= j < |paths| && paths[j] == sorted[k];
    }
    msg := if stop.Some? then stop.value
           else if |referenced| > 0 && |renamed| == 0 then ResourcesReferenced(referenced)
           else Renamed;
  }

  // ---------------------------------------------------------------------
  // Folder_BrowseContent.action_remove (folder_views.py:522-576)
  // ---------------------------------------------------------------------

  /** The remove loop's state: the database, the cookie, the cookie's
      paths as read, the three outcome lists, and the lookup that failed. */
  datatype RemoveState = RemoveState(
    paths: set<Path>, cookie: Option<CopyCookie>, cpPaths: seq<Path>,
    removed: seq<string>, referenced: seq<string>, notRemoved: seq<string>, stop: Option<string>)

  function RemoveStart(paths: set<Path>, cookie: Option<CopyCookie>): RemoveState
  {
    RemoveState(paths, cookie, cookie.GetOr(NoCookie).paths, [], [], [], None)
  }

  /** One pass of the loop: remove the child `name`. */
  function RemoveStep(st: RemoveState, child: string -> Path, name: string,
                      mayRemove: Path -> bool, refuses: (set<Path>, Op) -> bool): RemoveState
  {
    if st.stop.Some? then st
    else
      var p := child(name);
      if p !in st.paths then st.(stop := Some(name))
      else if !mayRemove(p) then st.(notRemoved := st.notRemoved + [name])
      else if refuses(st.paths, DelOp(p)) then st.(referenced := st.referenced + [name])
      else
        var st1 := st.(paths := Delete(st.paths, p), removed := st.removed + [name]);
        if p in st.cpPaths then st1.(cookie := None, cpPaths := []) else st1
  }

  function RemoveRun(st: RemoveState, child: string -> Path, names: seq<string>,
                     mayRemove: Path -> bool, refuses: (set<Path>, Op) -> bool): RemoveState
  {
    if |names| == 0 then st
    else
      var n := |names| - 1;
      RemoveStep(RemoveRun(st, child, names[..n], mayRemove, refuses), child, names[n], mayRemove, refuses)
  }

  /** The first of `names` whose resource is gone, if any. */
  function FirstMissing(paths: set<Path>, child: string -> Path, names: seq<string>): (r: Option<string>)
    ensures r.None? <==> forall k :: 0 <= k < |names| ==> child(names[k]) in paths
    ensures r.Some? ==> exists k :: 0 <= k < |names| && names[k] == r.value && child(names[k]) !in paths &&
                          forall j :: 0 <= j < k ==> child(names[j]) in paths
    decreases |names|
  {
    if |names| == 0 then None
    else if child(names[0]) !in paths then Some(names[0])
    else
      var r := FirstMissing(paths, child, names[1..]);
      assert forall k :: 0 < k < |names| ==> names[k] == names[1..][k - 1];
      if r.Some? then
        var k :| 0 <= k < |names[1..]| && names[1..][k] == r.value && child(names[1..][k]) !in paths &&
                 forall j :: 0 <= j < k ==> child(names[1..][j]) in paths;
        assert names[k + 1] == r.value && child(names[k + 1]) !in paths;
        assert forall j :: 0 <= j < k + 1 ==> child(names[j]) in paths by {
          forall j | 0 <= j < k + 1 ensures child(names[j]) in paths {
            if j > 0 { assert names[j] == names[1..][j - 1]; }
          }
        }
        r
      else r
  }

  /** The messages of `action_remove`: one per non-empty list, and
      MSG_NONE_REMOVED only when all three are empty. Building the
      referenced message looks each referenced name up again
      (`resource.get_resource(name)`), which raises when a later removal
      took it away with its parent. */
  function RemoveMessages(st: RemoveState, child: string -> Path): (r: seq<Message>)
    ensures |r| > 0
    ensures st.stop.Some? ==> r == [NotFound(st.stop.value)]
    ensures st.stop.None? ==>
              (r[0].NotFound? <==> exists k :: 0 <= k < |st.referenced| && child(st.referenced[k]) !in st.paths)
    ensures r[0].NotFound? ==> |r| == 1
    ensures !r[0].NotFound? ==>
              (ResourcesRemoved(st.removed) in r <==> |st.removed| > 0) &&
              (ResourcesReferenced(st.referenced) in r <==> |st.referenced| > 0) &&
              (ResourcesNotRemoved(st.notRemoved) in r <==> |st.notRemoved| > 0)
    ensures NoneRemoved in r <==> !r[0].NotFound? && |st.removed| == 0 && |st.referenced| == 0 && |st.notRemoved| == 0
  {
    if st.stop.Some? then [NotFound(st.stop.value)]
    else match FirstMissing(st.paths, child, st.referenced)
    case Some(name) => [NotFound(name)]
    case None =>
      (if |st.removed| > 0 then [ResourcesRemoved(st.removed)] else []) +
      (if |st.referenced| > 0 then [ResourcesReferenced(st.referenced)] else []) +
      (if |st.notRemoved| > 0 then [ResourcesNotRemoved(st.notRemoved)] else []) +
      (if |st.removed| == 0 && |st.referenced| == 0 && |st.notRemoved| == 0 then [NoneRemoved] else [])
  }

  function Buckets(st: RemoveState): multiset<string>
  {
    multiset(st.removed) + multiset(st.referenced) + multiset(st.notRemoved)
  }

  /** One pass adds the name to exactly one list, unless it stops the
      loop (or the loop had stopped). */
  lemma RemoveStepBuckets(st: RemoveState, child: string -> Path, name: string,
                          mayRemove: Path -> bool, refuses: (set<Path>, Op) -> bool)
    ensures var r := RemoveStep(st, child, name, mayRemove, refuses);
            (st.stop.Some? ==> r == st) &&
            (r.stop.None? ==> st.stop.None? && Buckets(r) == Buckets(st) + multiset{name}) &&
            (r.stop.Some? ==> Buckets(r) == Buckets(st))
  {
    var p := child(name);
    var r := RemoveStep(st, child, name, mayRemove, refuses);
    if st.stop.None? && p in st.paths {
      if !mayRemove(p) {
        assert r == st.(notRemoved := st.notRemoved + [name]);
        assert multiset(r.notRemoved) == multiset(st.notRemoved) + multiset{name};
      } else if refuses(st.paths, DelOp(p)) {
        assert r == st.(referenced := st.referenced + [name]);
        assert multiset(r.referenced) == multiset(st.referenced) + multiset{name};
      } else {
        assert r.removed == st.removed + [name] && r.referenced == st.referenced && r.notRemoved == st.notRemoved;
        assert multiset(r.removed) == multiset(st.removed) + multiset{name};
      }
    }
  }

  /** The three lists only grow. */
  lemma RemoveStepGrows(st: RemoveState, child: string -> Path, name: string,
                        mayRemove: Path -> bool, refuses: (set<Path>, Op) -> bool)
    ensures var r := RemoveStep(st, child, name, mayRemove, refuses);
            st.removed <= r.removed && st.referenced <= r.referenced && st.notRemoved <= r.notRemoved
  {
  }

  /** A name the user may not remove is only ever reported not removed. */
  lemma RemoveStepPermitted(st: RemoveState, child: string -> Path, name: string,
                            mayRemove: Path -> bool, refuses: (set<Path>, Op) -> bool)
    ensures var r := RemoveStep(st, child, name, mayRemove, refuses);
            (r.removed == st.removed || (r.removed == st.removed + [name] && mayRemove(child(name)))) &&
            (r.referenced == st.referenced || (r.referenced == st.referenced + [name] && mayRemove(child(name)))) &&
            (r.notRemoved == st.notRemoved || (r.notRemoved == st.notRemoved + [name] && !mayRemove(child(name))))
  {
  }

  /** The database changes only when the name is removed, by the deletion
      of its subtree. */
  lemma RemoveStepPaths(st: RemoveState, child: string -> Path, name: string,
                        mayRemove: Path -> bool, refuses: (set<Path>, Op) -> bool)
    ensures var r := RemoveStep(st, child, name, mayRemove, refuses);
            (r.removed == st.removed ==> r.paths == st.paths) &&
            (r.removed != st.removed ==> r.removed == st.removed + [name] && r.paths == Delete(st.paths, child(name)))
  {
  }

  /** The cookie goes only with the removal of a resource it names. */
  lemma RemoveStepCookie(st: RemoveState, child: string -> Path, name: string,
                         mayRemove: Path -> bool, refuses: (set<Path>, Op) -> bool)
    ensures var r := RemoveStep(st, child, name, mayRemove, refuses);
            (r.cookie == st.cookie || (r.cookie == None && r.removed == st.removed + [name] && child(name) in st.cpPaths)) &&
            (r.cpPaths == st.cpPaths || r.cpPaths == []) &&
            st.removed <= r.removed
  {
  }

  /** Each name handled lands in exactly one of removed, referenced and
      not removed; a failed lookup ends the loop before the rest. */
  lemma {:induction false} RemoveRunBuckets(st: RemoveState, child: string -> Path, names: seq<string>,
                                            mayRemove: Path -> bool, refuses: (set<Path>, Op) -> bool)
    ensures var fin := RemoveRun(st, child, names, mayRemove, refuses);
            (fin.stop.None? ==> st.stop.None? && Buckets(fin) == Buckets(st) + multiset(names)) &&
            Buckets(fin) <= Buckets(st) + multiset(names)
  {
    if |names| > 0 {
      var n := |names| - 1;
      var mid := RemoveRun(st, child, names[..n], mayRemove, refuses);
      assert multiset(names) == multiset(names[..n]) + multiset{names[n]} by {
        assert names == names[..n] + [names[n]];
      }
      RemoveRunBuckets(st, child, names[..n], mayRemove, refuses);
      RemoveStepBuckets(mid, child, names[n], mayRemove, refuses);
    }
  }

  /** The three lists only grow. */
  lemma {:induction false} RemoveRunGrows(st: RemoveState, child: string -> Path, names: seq<string>,
                                          mayRemove: Path -> bool, refuses: (set<Path>, Op) -> bool)
    ensures var fin := RemoveRun(st, child, names, mayRemove, refuses);
            st.removed <= fin.removed && st.referenced <= fin.referenced && st.notRemoved <= fin.notRemoved
  {
    if |names| > 0 {
      var n := |names| - 1;
      RemoveRunGrows(st, child, names[..n], mayRemove, refuses);
      RemoveStepGrows(RemoveRun(st, child, names[..n], mayRemove, refuses), child, names[n], mayRemove, refuses);
    }
  }

  /** Only names the user may remove are removed or reported referenced;
      the others are reported not removed. */
  lemma {:induction false} RemoveRunPermitted(st: RemoveState, child: string -> Path, names: seq<string>,
                                              mayRemove: Path -> bool, refuses: (set<Path>, Op) -> bool)
    ensures var fin := RemoveRun(st, child, names, mayRemove, refuses);
            (forall k :: |st.removed| <= k < |fin.removed| ==> mayRemove(child(fin.removed[k]))) &&
            (forall k :: |st.referenced| <= k < |fin.referenced| ==> mayRemove(child(fin.referenced[k]))) &&
            (forall k :: |st.notRemoved| <= k < |fin.notRemoved| ==> !mayRemove(child(fin.notRemoved[k])))
  {
    if |names| > 0 {
      var n := |names| - 1;
      var mid := RemoveRun(st, child, names[..n], mayRemove, refuses);
      var fin := RemoveRun(st, child, names, mayRemove, refuses);
      RemoveRunPermitted(st, child, names[..n], mayRemove, refuses);
      assert var m := RemoveRun(st, child, names[..n], mayRemove, refuses);
             (forall j :: |st.removed| <= j < |m.removed| ==> mayRemove(child(m.removed[j]))) &&
             (forall j :: |st.referenced| <= j < |m.referenced| ==> mayRemove(child(m.referenced[j]))) &&
             (forall j :: |st.notRemoved| <= j < |m.notRemoved| ==> !mayRemove(child(m.notRemoved[j])));
      RemoveStepPermitted(mid, child, names[n], mayRemove, refuses);
      assert fin == RemoveStep(mid, child, names[n], mayRemove, refuses);
      forall k | |st.removed| <= k < |fin.removed| ensures mayRemove(child(fin.removed[k])) {
        if k < |mid.removed| {
          assert fin.removed[k] == mid.removed[k];
        } else {
          assert fin.removed == mid.removed + [names[n]];
        }
      }
      forall k | |st.referenced| <= k < |fin.referenced| ensures mayRemove(child(fin.referenced[k])) {
        if k < |mid.referenced| {
          assert fin.referenced[k] == mid.referenced[k];
        } else {
          assert fin.referenced == mid.referenced + [names[n]];
        }
      }
      forall k | |st.notRemoved| <= k < |fin.notRemoved| ensures !mayRemove(child(fin.notRemoved[k])) {
        if k < |mid.notRemoved| {
          assert fin.notRemoved[k] == mid.notRemoved[k];
        } else {
          assert fin.notRemoved == mid.notRemoved + [names[n]];
        }
      }
    }
  }

  /** The database only shrinks, a removed resource is gone, and whatever
      lies outside every removed subtree stays. */
  lemma {:induction false} RemoveRunPaths(st: RemoveState, child: string -> Path, names: seq<string>,
                                          mayRemove: Path -> bool, refuses: (set<Path>, Op) -> bool)
    ensures var fin := RemoveRun(st, child, names, mayRemove, refuses);
            fin.paths <= st.paths &&
            (forall k :: |st.removed| <= k < |fin.removed| ==> child(fin.removed[k]) !in fin.paths) &&
            (forall q :: q in st.paths && (forall k :: |st.removed| <= k < |fin.removed| ==> !(child(fin.removed[k]) <= q))
               ==> q in fin.paths)
  {
    if |names| > 0 {
      var n := |names| - 1;
      var mid := RemoveRun(st, child, names[..n], mayRemove, refuses);
      var fin := RemoveRun(st, child, names, mayRemove, refuses);
      RemoveRunPaths(st, child, names[..n], mayRemove, refuses);
      RemoveRunGrows(st, child, names[..n], mayRemove, refuses);
      RemoveStepPaths(mid, child, names[n], mayRemove, refuses);
      assert fin == RemoveStep(mid, child, names[n], mayRemove, refuses);
      var p := child(names[n]);
      if fin.removed != mid.removed {
        DeleteEffect(mid.paths, p);
        forall q | q in st.paths && (forall k :: |st.removed| <= k < |fin.removed| ==> !(child(fin.removed[k]) <= q))
          ensures q in fin.paths
        {
          assert forall k :: |st.removed| <= k < |mid.removed| ==> mid.removed[k] == fin.removed[k];
          assert !(child(fin.removed[|mid.removed|]) <= q);
        }
      } else {
        assert fin.removed == mid.removed && fin.paths == mid.paths;
      }
    }
  }

  /** The cookie is deleted only when a removed resource was in it. */
  lemma {:induction false} RemoveRunCookie(st: RemoveState, child: string -> Path, names: seq<string>,
                                           mayRemove: Path -> bool, refuses: (set<Path>, Op) -> bool)
    ensures var fin := RemoveRun(st, child, names, mayRemove, refuses);
            (fin.cpPaths == st.cpPaths || fin.cpPaths == []) &&
            (fin.cookie == st.cookie || fin.cookie == None) &&
            (fin.cookie != st.cookie ==>
               exists k :: |st.removed| <= k < |fin.removed| && child(fin.removed[k]) in st.cpPaths)
  {
    if |names| > 0 {
      var n := |names| - 1;
      var mid := RemoveRun(st, child, names[..n], mayRemove, refuses);
      var fin := RemoveRun(st, child, names, mayRemove, refuses);
      RemoveRunCookie(st, child, names[..n], mayRemove, refuses);
      RemoveRunGrows(st, child, names[..n], mayRemove, refuses);
      RemoveStepCookie(mid, child, names[n], mayRemove, refuses);
      assert fin == RemoveStep(mid, child, names[n], mayRemove, refuses);
      if fin.cookie != st.cookie && mid.cookie == st.cookie {
        assert fin.removed == mid.removed + [names[n]];
        assert child(fin.removed[|mid.removed|]) in st.cpPaths;
      } else if fin.cookie != st.cookie {
        var k :| |st.removed| <= k < |mid.removed| && child(mid.removed[k]) in st.cpPaths;
        assert mid.removed <= fin.removed;
        assert fin.removed[k] == mid.removed[k];
      }
    }
  }

  lemma {:induction false} RemoveRunStopped(st: RemoveState, child: string -> Path, names: seq<string>,
                                            mayRemove: Path -> bool, refuses: (set<Path>, Op) -> bool, k: nat)
    requires k <= |names|
    requires RemoveRun(st, child, names[..k], mayRemove, refuses).stop.Some?
    ensures RemoveRun(st, child, names, mayRemove, refuses) == RemoveRun(st, child, names[..k], mayRemove, refuses)
  {
    if k < |names| {
      var n := |names| - 1;
      assert names[..n][..k] == names[..k];
      RemoveRunStopped(st, child, names[..n], mayRemove, refuses, k);
    } else {
      assert names[..k] == names;
    }
  }

  /** One pass of the remove loop, on the site itself. */
  method RemoveOne(site: Site, child: string -> Path, name: string, cpPaths: seq<Path>,
                   removed: seq<string>, referenced: seq<string>, notRemoved: seq<string>,
                   mayRemove: Path -> bool, refuses: (set<Path>, Op) -> bool)
    returns (cpPaths': seq<Path>, removed': seq<string>, referenced': seq<string>, notRemoved': seq<string>,
             stop: Option<string>)
    modifies site
    ensures RemoveStep(RemoveState(old(site.paths), old(site.cookie), cpPaths, removed, referenced, notRemoved, None),
                       child, name, mayRemove, refuses) ==
            RemoveState(site.paths, site.cookie, cpPaths', removed', referenced', notRemoved', stop)
  {
    cpPaths', removed', referenced', notRemoved', stop := cpPaths, removed, referenced, notRemoved, None;
    var child := child(name);
    if child !in site.paths {
      stop := Some(name);
    } else if !mayRemove(child) {
      notRemoved' := notRemoved' + [name];
    } else if refuses(site.paths, DelOp(child)) {
      referenced' := referenced' + [name];
    } else {
      site.paths := Delete(site.paths, child);
      removed' := removed' + [name];
      // Clean the copy cookie
      if child in cpPaths' {
        site.cookie := None;
        cpPaths' := [];
      }
    }
  }

  /** `resource.get_resource(name)` for the folder at `here`. */
  function ChildAt(here: Path): string -> Path
  {
    (name: string) => Resolve(here, name)
  }

  /** The loop of `action_remove` over the sorted ids. */
  method RemoveLoop(site: Site, here: Path, sorted: seq<string>,
                    mayRemove: Path -> bool, refuses: (set<Path>, Op) -> bool)
    returns (cpPaths: seq<Path>, removed: seq<string>, referenced: seq<string>, notRemoved: seq<string>,
             stop: Option<string>)
    modifies site
    ensures RemoveRun(RemoveStart(old(site.paths), old(site.cookie)), ChildAt(here), sorted, mayRemove, refuses) ==
            RemoveState(site.paths, site.cookie, cpPaths, removed, referenced, notRemoved, stop)
  {
    ghost var start := RemoveStart(site.paths, site.cookie);
    cpPaths := site.ReadCookie().paths;
    removed, referenced, notRemoved := [], [], [];
    stop := None;
    var i := 0;
    while i < |sorted| && stop.None?
      invariant 0 <= i <= |sorted|
      invariant RemoveRun(start, ChildAt(here), sorted[..i], mayRemove, refuses) ==
                  RemoveState(site.paths, site.cookie, cpPaths, removed, referenced, notRemoved, stop)
    {
      assert sorted[..i + 1][..i] == sorted[..i];
      cpPaths, removed, referenced, notRemoved, stop :=
        RemoveOne(site, ChildAt(here), sorted[i], cpPaths, removed, referenced, notRemoved, mayRemove, refuses);
      i := i + 1;
    }
    if stop.Some? {
      RemoveRunStopped(start, ChildAt(here), sorted, mayRemove, refuses, i);
    } else {
      assert sorted[..i] == sorted;
    }
  }

  /** `action_remove`: the ids are handled in descending order, children
      before their parents. */
  method ActionRemove(site: Site, here: Path, ids: seq<string>,
                      mayRemove: Path -> bool, refuses: (set<Path>, Op) -> bool)
    returns (msgs: seq<Message>, removed: seq<string>, referenced: seq<string>, notRemoved: seq<string>)
    modifies site
    ensures var fin := RemoveRun(RemoveStart(old(site.paths), old(site.cookie)), ChildAt(here), Descending(ids), mayRemove, refuses);
            site.paths == fin.paths && site.cookie == fin.cookie && msgs == RemoveMessages(fin, ChildAt(here)) &&
            removed == fin.removed && referenced == fin.referenced && notRemoved == fin.notRemoved
    ensures |msgs| > 0
    ensures !msgs[0].NotFound? ==> multiset(removed) + multiset(referenced) + multiset(notRemoved) == multiset(ids)
    ensures NoneRemoved in msgs <==> |ids| == 0
  {
    ghost var start := RemoveStart(site.paths, site.cookie);
    var sorted := Descending(ids);
    var cpPaths, stop;
    cpPaths, removed, referenced, notRemoved, stop := RemoveLoop(site, here, sorted, mayRemove, refuses);
    ghost var fin := RemoveRun(start, ChildAt(here), sorted, mayRemove, refuses);
    msgs := RemoveMessages(RemoveState(site.paths, site.cookie, cpPaths, removed, referenced, notRemoved, stop), ChildAt(here));
    assert !msgs[0].NotFound? ==> multiset(removed) + multiset(referenced) + multiset(notRemoved) == multiset(ids) by {
      RemoveRunBuckets(start, ChildAt(here), sorted, mayRemove, refuses);
    }
    assert NoneRemoved in msgs <==> |ids| == 0 by {
      RemoveRunBuckets(start, ChildAt(here), sorted, mayRemove, refuses);
      if NoneRemoved in msgs {
        assert multiset(ids) == multiset(sorted) == multiset{};
      }
    }
  }

  /** What `action_remove` leaves behind: only names the user may remove
      are removed or reported referenced, the others are reported not
      removed; the database only loses resources, each removed one among
      them; the copy cookie is kept, or dropped because it named a
      removed resource. */
  lemma RemoveOutcome(paths: set<Path>, cookie: Option<CopyCookie>, here: Path, ids: seq<string>,
                      mayRemove: Path -> bool, refuses: (set<Path>, Op) -> bool)
    ensures var fin := RemoveRun(RemoveStart(paths, cookie), ChildAt(here), Descending(ids), mayRemove, refuses);
      && (forall k :: 0 <= k < |fin.removed| ==> mayRemove(Resolve(here, fin.removed[k])))
      && (forall k :: 0 <= k < |fin.referenced| ==> mayRemove(Resolve(here, fin.referenced[k])))
      && (forall k :: 0 <= k < |fin.notRemoved| ==> !mayRemove(Resolve(here, fin.notRemoved[k])))
      && fin.paths <= paths
      && (forall k :: 0 <= k < |fin.removed| ==> Resolve(here, fin.removed[k]) !in fin.paths)
      && (fin.cookie == cookie ||
          (fin.cookie == None && exists k :: 0 <= k < |fin.removed| && Resolve(here, fin.removed[k]) in cookie.GetOr(NoCookie).paths))
  {
    var start := RemoveStart(paths, cookie);
    var sorted := Descending(ids);
    RemoveRunPermitted(start, ChildAt(here), sorted, mayRemove, refuses);
    RemoveRunPaths(start, ChildAt(here), sorted, mayRemove, refuses);
    RemoveRunCookie(start, ChildAt(here), sorted, mayRemove, refuses);
  }

  // ---------------------------------------------------------------------
  // Folder_BrowseContent.action_copy / action_cut (folder_views.py:601-640)
  // ---------------------------------------------------------------------

  /** `[ str(abspath.resolve2(x)) for x in names ]`. */
  function ResolveAll(here: Path, names: seq<string>): (r: seq<Path>)
    ensures |r| == |names|
    ensures forall k :: 0 <= k < |r| ==> r[k] == Resolve(here, names[k])
  {
    if |names| == 0 then []
    else ResolveAll(here, names[..|names| - 1]) + [Resolve(here, names[|names| - 1])]
  }

  /** Copy (`cut` false, permission to copy) or cut (`cut` true,
      permission to move) the ids the user is permitted on: the cookie
      then holds their absolute paths; with none permitted it is left as
      it was. */
  method PickForPaste(site: Site, here: Path, ids: seq<string>, cut: bool, allowed: Path -> bool, done: Message)
    returns (msgs: seq<Message>)
    modifies site`cookie
    ensures !AllExist(site.paths, here, ids) ==>
              site.cookie == old(site.cookie) && |msgs| == 1 &&
              exists k :: 0 <= k < |ids| && msgs[0] == NotFound(ids[k]) &&
                          Resolve(here, ids[k]) !in site.paths && AllExist(site.paths, here, ids[..k])
    ensures AllExist(site.paths, here, ids) && (forall k :: 0 <= k < |ids| ==> !allowed(Resolve(here, ids[k]))) ==>
              site.cookie == old(site.cookie) && msgs == [NoneSelected]
    ensures AllExist(site.paths, here, ids) && (exists k :: 0 <= k < |ids| && allowed(Resolve(here, ids[k]))) ==>
              var kept := Filter(ids, PermittedBy(here, allowed));
              msgs == [done] && site.cookie == Some(CopyCookie(cut, ResolveAll(here, kept)))
    ensures site.cookie != old(site.cookie) ==>
              site.cookie.Some? && site.cookie.value.cut == cut &&
              (forall k :: 0 <= k < |site.cookie.value.paths| ==>
                 exists j :: 0 <= j < |ids| && site.cookie.value.paths[k] == Resolve(here, ids[j]) &&
                             allowed(Resolve(here, ids[j])))
  {
    var names, error := Permitted(site.paths, here, ids, allowed);
    if error.Some? {
      msgs := [error.value];
      return;
    }
    PickedPaths(here, ids, allowed);
    PickedAny(here, ids, allowed);
    if |names| == 0 {
      msgs := [NoneSelected];
      return;
    }
    site.cookie := Some(CopyCookie(cut, ResolveAll(here, names)));
    msgs := [done];
  }

  /** The paths picked are those of ids the user is permitted on. */
  lemma PickedPaths(here: Path, ids: seq<string>, allowed: Path -> bool)
    ensures var picked := ResolveAll(here, Filter(ids, PermittedBy(here, allowed)));
      forall k :: 0 <= k < |picked| ==>
        exists j :: 0 <= j < |ids| && picked[k] == Resolve(here, ids[j]) && allowed(Resolve(here, ids[j]))
  {
    var keep := PermittedBy(here, allowed);
    var kept := Filter(ids, keep);
    var picked := ResolveAll(here, kept);
    FilterMembers(ids, keep);
    forall k | 0 <= k < |picked|
      ensures exists j :: 0 <= j < |ids| && picked[k] == Resolve(here, ids[j]) && allowed(Resolve(here, ids[j]))
    {
      assert kept[k] in ids && keep(kept[k]);
      var j :| 0 <= j < |ids| && ids[j] == kept[k];
      assert picked[k] == Resolve(here, ids[j]);
      assert keep(ids[j]) == allowed(Resolve(here, ids[j]));
    }
  }

  /** Some id is picked exactly when the user is permitted on some id. */
  lemma PickedAny(here: Path, ids: seq<string>, allowed: Path -> bool)
    ensures |Filter(ids, PermittedBy(here, allowed))| == 0 <==>
      forall k :: 0 <= k < |ids| ==> !allowed(Resolve(here, ids[k]))
  {
    var keep := PermittedBy(here, allowed);
    var kept := Filter(ids, keep);
    FilterMembers(ids, keep);
    if |kept| == 0 {
      forall k | 0 <= k < |ids| ensures !allowed(Resolve(here, ids[k])) {
        assert keep(ids[k]) == allowed(Resolve(here, ids[k]));
        assert ids[k] !in kept;
      }
    } else {
      assert kept[0] in ids && keep(kept[0]);
      var j :| 0 <= j < |ids| && ids[j] == kept[0];
      assert keep(ids[j]) == allowed(Resolve(here, ids[j]));
    }
  }

  /** `action_copy`: MSG_COPIED and a copy cookie. */
  method ActionCopy(site: Site, here: Path, ids: seq<string>, mayCopy: Path -> bool)
    returns (msgs: seq<Message>)
    modifies site`cookie
    ensures AllExist(site.paths, here, ids) && (exists k :: 0 <= k < |ids| && mayCopy(Resolve(here, ids[k]))) ==>
              msgs == [Copied] &&
              site.cookie == Some(CopyCookie(false, ResolveAll(here, Filter(ids, PermittedBy(here, mayCopy)))))
    ensures AllExist(site.paths, here, ids) && (forall k :: 0 <= k < |ids| ==> !mayCopy(Resolve(here, ids[k]))) ==>
              site.cookie == old(site.cookie) && msgs == [NoneSelected]
    ensures !AllExist(site.paths, here, ids) ==> site.cookie == old(site.cookie) && |msgs| == 1 && msgs[0].NotFound?
  {
    msgs := PickForPaste(site, here, ids, false, mayCopy, Copied);
  }

  /** `action_cut`: MSG_CUT and a cut cookie. */
  method ActionCut(site: Site, here: Path, ids: seq<string>, mayMove: Path -> bool)
    returns (msgs: seq<Message>)
    modifies site`cookie
    ensures AllExist(site.paths, here, ids) && (exists k :: 0 <= k < |ids| && mayMove(Resolve(here, ids[k]))) ==>
              msgs == [Cut] &&
              site.cookie == Some(CopyCookie(true, ResolveAll(here, Filter(ids, PermittedBy(here, mayMove)))))
    ensures AllExist(site.paths, here, ids) && (forall k :: 0 <= k < |ids| ==> !mayMove(Resolve(here, ids[k]))) ==>
              site.cookie == old(site.cookie) && msgs == [NoneSelected]
    ensures !AllExist(site.paths, here, ids) ==> site.cookie == old(site.cookie) && |msgs| == 1 && msgs[0].NotFound?
  {
    msgs := PickForPaste(site, here, ids, true, mayMove, Cut);
  }

  // ---------------------------------------------------------------------
  // Folder_BrowseContent.action_paste (folder_views.py:643-706)
  // ---------------------------------------------------------------------

  function PasteMessages(pasted: seq<string>, notAllowed: seq<string>): (r: seq<Message>)
    ensures ResourcesPasted(pasted) in r <==> |pasted| > 0
    ensures ResourcesNotPasted(notAllowed) in r <==> |notAllowed| > 0
    ensures |r| <= 2
  {
    (if |pasted| > 0 then [ResourcesPasted(pasted)] else []) +
    (if |notAllowed| > 0 then [ResourcesNotPasted(notAllowed)] else [])
  }

  /** `generate_name` never returns a name in use. */
  ghost predicate FreshNames(generateName: (string, set<string>) -> string)
  {
    forall n, used :: generateName(n, used) !in used
  }

  /** What the paste loop does with one cookie path: skip it (the source
      is gone), leave it (a cut whose source already is in the folder), or
      try `op`, which the database refuses or does under the new `name`. */
  datatype PasteOutcome = Skipped | SamePlace | Refused | Done(op: Op, name: string)

  /** The copy or move of `source` into the folder, under the name
      `generate_name` picks among the folder's names. */
  function PasteOp(paths: set<Path>, here: Path, cut: bool, source: Path,
                   generateName: (string, set<string>) -> string): (r: Op)
    ensures !r.DelOp? && r.from == source && Parent(r.to) == Some(here)
    ensures r.MoveOp? <==> cut
    ensures r.CopyOp? <==> !cut
    ensures FreshNames(generateName) ==> r.to !in paths
  {
    var name := generateName(Name(source), ChildNames(paths, here));
    var to := here + [name];
    assert to[..|to| - 1] == here;
    if cut then MoveOp(source, to) else CopyOp(source, to)
  }

  /** The outcome for one cookie path, given the database as the loop
      reaches it. */
  function PasteOutcomeOf(paths: set<Path>, here: Path, cut: bool, source: Path,
                          generateName: (string, set<string>) -> string,
                          refuses: (set<Path>, Op) -> bool): (r: PasteOutcome)
    ensures r == Skipped <==> source !in paths
    ensures r == SamePlace <==> source in paths && cut && Parent(source) == Some(here)
    ensures r == Refused <==> source in paths && !(cut && Parent(source) == Some(here)) &&
                               refuses(paths, PasteOp(paths, here, cut, source, generateName))
    ensures r.Done? ==> r.op == PasteOp(paths, here, cut, source, generateName) && !refuses(paths, r.op) &&
                        r.name == Name(r.op.to) && (cut ==> Parent(source) != Some(here))
  {
    if source !in paths then Skipped
    else if cut && Parent(source) == Some(here) then SamePlace
    else
      var op := PasteOp(paths, here, cut, source, generateName);
      if refuses(paths, op) then Refused else Done(op, Name(op.to))
  }

  /** The paste loop's state: the database, the two outcome lists, the
      changes made and each cookie path's outcome so far. */
  datatype PasteState = PasteState(paths: set<Path>, pasted: seq<string>, notAllowed: seq<string>,
                                   ops: seq<Op>, outcomes: seq<PasteOutcome>)

  function PasteStart(paths: set<Path>): PasteState
  {
    PasteState(paths, [], [], [], [])
  }

  /** One pass of the paste loop. */
  function PasteStep(st: PasteState, here: Path, cut: bool, source: Path,
                     generateName: (string, set<string>) -> string,
                     refuses: (set<Path>, Op) -> bool): PasteState
  {
    var o := PasteOutcomeOf(st.paths, here, cut, source, generateName, refuses);
    var st1 := st.(outcomes := st.outcomes + [o]);
    match o
    case Skipped => st1
    case SamePlace => st1.(pasted := st.pasted + [Name(source)])
    case Refused => st1.(notAllowed := st.notAllowed + [Name(source)])
    case Done(op, name) => st1.(paths := Apply(st.paths, op), pasted := st.pasted + [name], ops := st.ops + [op])
  }

  function PasteRun(st: PasteState, here: Path, cut: bool, sources: seq<Path>,
                    generateName: (string, set<string>) -> string,
                    refuses: (set<Path>, Op) -> bool): PasteState
  {
    if |sources| == 0 then st
    else
      var n := |sources| - 1;
      PasteStep(PasteRun(st, here, cut, sources[..n], generateName, refuses), here, cut, sources[n], generateName, refuses)
  }

  /** The names reported pasted: the source's own name for a cut left in
      place, the new name for a paste done. */
  function PastedNames(os: seq<PasteOutcome>, sources: seq<Path>): seq<string>
    requires |os| == |sources|
  {
    if |os| == 0 then []
    else
      var n := |os| - 1;
      PastedNames(os[..n], sources[..n]) +
        (match os[n] case SamePlace => [Name(sources[n])] case Done(_, name) => [name] case _ => [])
  }

  /** The names reported not pasted: those the database refused. */
  function RefusedNames(os: seq<PasteOutcome>, sources: seq<Path>): seq<string>
    requires |os| == |sources|
  {
    if |os| == 0 then []
    else
      var n := |os| - 1;
      RefusedNames(os[..n], sources[..n]) + (if os[n] == Refused then [Name(sources[n])] else [])
  }

  /** The changes made, in cookie order. */
  function DoneOps(os: seq<PasteOutcome>): seq<Op>
  {
    if |os| == 0 then []
    else
      var n := |os| - 1;
      DoneOps(os[..n]) + (match os[n] case Done(op, _) => [op] case _ => [])
  }

  /** What the paste loop's state says of the cookie paths it has passed:
      one outcome each; the pasted list holds exactly the cuts left in
      place and the pastes done, the not-pasted list exactly the refused
      sources, and the changes made are those of the pastes done, in
      cookie order, applied to the database it started from. */
  ghost predicate PasteTracks(paths: set<Path>, st: PasteState, sources: seq<Path>)
  {
    && |st.outcomes| == |sources|
    && st.pasted == PastedNames(st.outcomes, sources)
    && st.notAllowed == RefusedNames(st.outcomes, sources)
    && st.ops == DoneOps(st.outcomes)
    && st.paths == ApplyAll(paths, st.ops)
  }

  /** One pass of the paste loop keeps its state's account of the cookie
      paths passed. */
  lemma PasteStepTracks(paths: set<Path>, st: PasteState, sources: seq<Path>, here: Path, cut: bool, source: Path,
                        generateName: (string, set<string>) -> string,
                        refuses: (set<Path>, Op) -> bool)
    requires PasteTracks(paths, st, sources)
    ensures PasteTracks(paths, PasteStep(st, here, cut, source, generateName, refuses), sources + [source])
  {
    var fin := PasteStep(st, here, cut, source, generateName, refuses);
    var o := PasteOutcomeOf(st.paths, here, cut, source, generateName, refuses);
    assert fin.outcomes == st.outcomes + [o];
    assert fin.outcomes[..|sources|] == st.outcomes;
    assert (sources + [source])[..|sources|] == sources;
    if o.Done? {
      ApplyAllSnoc(paths, st.ops, o.op);
    }
  }

  /** After the loop, its state accounts for every cookie path. */
  lemma {:induction false} PasteRunLists(paths: set<Path>, here: Path, cut: bool, sources: seq<Path>,
                                         generateName: (string, set<string>) -> string,
                                         refuses: (set<Path>, Op) -> bool)
    ensures var fin := PasteRun(PasteStart(paths), here, cut, sources, generateName, refuses);
      && |fin.outcomes| == |sources|
      && fin.pasted == PastedNames(fin.outcomes, sources)
      && fin.notAllowed == RefusedNames(fin.outcomes, sources)
      && fin.ops == DoneOps(fin.outcomes)
      && fin.paths == ApplyAll(paths, fin.ops)
  {
    PasteRunTracks(paths, here, cut, sources, generateName, refuses);
  }

  lemma {:induction false} PasteRunTracks(paths: set<Path>, here: Path, cut: bool, sources: seq<Path>,
                                          generateName: (string, set<string>) -> string,
                                          refuses: (set<Path>, Op) -> bool)
    ensures PasteTracks(paths, PasteRun(PasteStart(paths), here, cut, sources, generateName, refuses), sources)
  {
    if |sources| > 0 {
      var n := |sources| - 1;
      var mid := PasteRun(PasteStart(paths), here, cut, sources[..n], generateName, refuses);
      PasteRunTracks(paths, here, cut, sources[..n], generateName, refuses);
      PasteStepTracks(paths, mid, sources[..n], here, cut, sources[n], generateName, refuses);
      assert sources[..n] + [sources[n]] == sources;
    }
  }

  /** A pass of the paste loop records one outcome, decided on the
      database as the pass finds it. */
  lemma PasteStepOutcome(st: PasteState, here: Path, cut: bool, source: Path,
                         generateName: (string, set<string>) -> string,
                         refuses: (set<Path>, Op) -> bool)
    ensures PasteStep(st, here, cut, source, generateName, refuses).outcomes
         == st.outcomes + [PasteOutcomeOf(st.paths, here, cut, source, generateName, refuses)]
  {
  }

  /** The outcome of the k-th cookie path is decided on the database as
      the loop reaches it. */
  lemma PasteRunOutcomeAt(paths: set<Path>, here: Path, cut: bool, sources: seq<Path>,
                           generateName: (string, set<string>) -> string,
                           refuses: (set<Path>, Op) -> bool, k: nat)
    requires k < |sources|
    ensures var fin := PasteRun(PasteStart(paths), here, cut, sources, generateName, refuses);
      |fin.outcomes| == |sources| &&
      fin.outcomes[k] == PasteOutcomeOf(PasteRun(PasteStart(paths), here, cut, sources[..k], generateName, refuses).paths,
                                        here, cut, sources[k], generateName, refuses)
  {
    var upto := sources[..k + 1];
    assert upto[..k] == sources[..k] && upto[k] == sources[k];
    PasteRunPrefix(PasteStart(paths), here, cut, sources, generateName, refuses, k + 1);
    PasteRunSnoc(PasteStart(paths), here, cut, upto, generateName, refuses);
    PasteRunLength(PasteStart(paths), here, cut, sources[..k], generateName, refuses);
    PasteRunLength(PasteStart(paths), here, cut, sources, generateName, refuses);
  }

  /** The paste loop's outcomes for a first part of the cookie are the
      first outcomes of the whole loop. */
  lemma {:induction false} PasteRunPrefix(st: PasteState, here: Path, cut: bool, sources: seq<Path>,
                                          generateName: (string, set<string>) -> string,
                                          refuses: (set<Path>, Op) -> bool, m: nat)
    requires m <= |sources|
    ensures PasteRun(st, here, cut, sources[..m], generateName, refuses).outcomes
         <= PasteRun(st, here, cut, sources, generateName, refuses).outcomes
  {
    if m < |sources| {
      var n := |sources| - 1;
      var init := sources[..n];
      assert init[..m] == sources[..m];
      PasteRunPrefix(st, here, cut, init, generateName, refuses, m);
      PasteRunSnoc(st, here, cut, sources, generateName, refuses);
    } else {
      assert sources[..m] == sources;
    }
  }

  /** The last pass of the paste loop appends the last cookie path's
      outcome. */
  lemma PasteRunSnoc(st: PasteState, here: Path, cut: bool, sources: seq<Path>,
                     generateName: (string, set<string>) -> string,
                     refuses: (set<Path>, Op) -> bool)
    requires |sources| > 0
    ensures var n := |sources| - 1;
      var mid := PasteRun(st, here, cut, sources[..n], generateName, refuses);
      PasteRun(st, here, cut, sources, generateName, refuses).outcomes
        == mid.outcomes + [PasteOutcomeOf(mid.paths, here, cut, sources[n], generateName, refuses)]
  {
    var n := |sources| - 1;
    PasteStepOutcome(PasteRun(st, here, cut, sources[..n], generateName, refuses), here, cut, sources[n], generateName, refuses);
  }

  /** The paste loop records one outcome per cookie path. */
  lemma {:induction false} PasteRunLength(st: PasteState, here: Path, cut: bool, sources: seq<Path>,
                                          generateName: (string, set<string>) -> string,
                                          refuses: (set<Path>, Op) -> bool)
    ensures |PasteRun(st, here, cut, sources, generateName, refuses).outcomes| == |st.outcomes| + |sources|
  {
    if |sources| > 0 {
      var n := |sources| - 1;
      var mid := PasteRun(st, here, cut, sources[..n], generateName, refuses);
      PasteRunLength(st, here, cut, sources[..n], generateName, refuses);
      PasteStepOutcome(mid, here, cut, sources[n], generateName, refuses);
    }
  }

  /** Each cookie path's outcome is decided on the database as the loop
      reaches it. */
  lemma PasteRunEach(paths: set<Path>, here: Path, cut: bool, sources: seq<Path>,
                     generateName: (string, set<string>) -> string,
                     refuses: (set<Path>, Op) -> bool)
    ensures var fin := PasteRun(PasteStart(paths), here, cut, sources, generateName, refuses);
      |fin.outcomes| == |sources| &&
      forall k :: 0 <= k < |sources| ==>
        fin.outcomes[k] == PasteOutcomeOf(PasteRun(PasteStart(paths), here, cut, sources[..k], generateName, refuses).paths,
                                          here, cut, sources[k], generateName, refuses)
  {
    PasteRunLists(paths, here, cut, sources, generateName, refuses);
    forall k | 0 <= k < |sources|
      ensures PasteRun(PasteStart(paths), here, cut, sources, generateName, refuses).outcomes[k]
           == PasteOutcomeOf(PasteRun(PasteStart(paths), here, cut, sources[..k], generateName, refuses).paths,
                             here, cut, sources[k], generateName, refuses)
    {
      PasteRunOutcomeAt(paths, here, cut, sources, generateName, refuses, k);
    }
  }

  /** The pasted and not-pasted lists together are one name per cookie
      path neither skipped, so with the skipped ones they count the
      cookie's paths. */
  lemma {:induction false} PasteNamesCount(os: seq<PasteOutcome>, sources: seq<Path>)
    requires |os| == |sources|
    ensures |PastedNames(os, sources)| + |RefusedNames(os, sources)| + |Filter(os, IsSkipped)| == |os|
    ensures |DoneOps(os)| <= |PastedNames(os, sources)|
  {
    if |os| > 0 {
      var n := |os| - 1;
      PasteNamesCount(os[..n], sources[..n]);
      assert os == os[..n] + [os[n]];
      FilterSnoc(os[..n], os[n], IsSkipped);
    }
  }

  function IsSkipped(o: PasteOutcome): bool
  {
    o == Skipped
  }

  /** The paste loop of `action_paste` over the cookie's paths, into the
      folder `here`. */
  method PasteLoop(site: Site, here: Path, cp: CopyCookie, generateName: (string, set<string>) -> string,
                   refuses: (set<Path>, Op) -> bool)
    returns (pasted: seq<string>, notAllowed: seq<string>, ghost ops: seq<Op>, ghost outcomes: seq<PasteOutcome>)
    modifies site`paths
    ensures PasteRun(PasteStart(old(site.paths)), here, cp.cut, cp.paths, generateName, refuses) ==
            PasteState(site.paths, pasted, notAllowed, ops, outcomes)
  {
    ghost var before := site.paths;
    ops, outcomes := [], [];
    pasted, notAllowed := [], [];
    for i := 0 to |cp.paths|
      invariant PasteRun(PasteStart(before), here, cp.cut, cp.paths[..i], generateName, refuses) ==
                PasteState(site.paths, pasted, notAllowed, ops, outcomes)
    {
      assert cp.paths[..i + 1][..i] == cp.paths[..i];
      var source := cp.paths[i];
      // The source resource may be gone
      if source !in site.paths {
        outcomes := outcomes + [Skipped];
        continue;
      }
      // Cut and paste in the same place: nothing to do
      if cp.cut && Parent(source) == Some(here) {
        pasted := pasted + [Name(source)];
        outcomes := outcomes + [SamePlace];
        continue;
      }
      var name := generateName(Name(source), ChildNames(site.paths, here));
      var op := if cp.cut then MoveOp(source, here + [name]) else CopyOp(source, here + [name]);
      assert op == PasteOp(site.paths, here, cp.cut, source, generateName);
      if refuses(site.paths, op) {
        notAllowed := notAllowed + [Name(source)];
        outcomes := outcomes + [Refused];
        continue;
      }
      site.paths := Apply(site.paths, op);
      ops := ops + [op];
      pasted := pasted + [name];
      outcomes := outcomes + [Done(op, name)];
    }
    assert cp.paths[..|cp.paths|] == cp.paths;
  }

  /** Every change copies (for a copy) or moves (for a cut) one of the
      cookie's paths into the folder, and a cut never moves a child of
      the folder itself. */
  ghost predicate PastesInto(ops: seq<Op>, here: Path, cut: bool, sources: seq<Path>)
  {
    forall k :: 0 <= k < |ops| ==>
      (if cut then ops[k].MoveOp? else ops[k].CopyOp?) &&
      ops[k].from in sources && Parent(ops[k].to) == Some(here) &&
      (cut ==> Parent(ops[k].from) != Some(here))
  }

  /** The changes the paste makes are of that form. */
  lemma {:induction false} PasteRunOps(paths: set<Path>, here: Path, cut: bool, sources: seq<Path>,
                                       generateName: (string, set<string>) -> string,
                                       refuses: (set<Path>, Op) -> bool)
    ensures PastesInto(PasteRun(PasteStart(paths), here, cut, sources, generateName, refuses).ops, here, cut, sources)
  {
    if |sources| > 0 {
      var n := |sources| - 1;
      var mid := PasteRun(PasteStart(paths), here, cut, sources[..n], generateName, refuses);
      var fin := PasteRun(PasteStart(paths), here, cut, sources, generateName, refuses);
      PasteRunOps(paths, here, cut, sources[..n], generateName, refuses);
      assert fin == PasteStep(mid, here, cut, sources[n], generateName, refuses);
      var o := PasteOutcomeOf(mid.paths, here, cut, sources[n], generateName, refuses);
      forall k | 0 <= k < |fin.ops|
        ensures (if cut then fin.ops[k].MoveOp? else fin.ops[k].CopyOp?) &&
                fin.ops[k].from in sources && Parent(fin.ops[k].to) == Some(here) &&
                (cut ==> Parent(fin.ops[k].from) != Some(here))
      {
        if k < |mid.ops| {
          assert fin.ops[k] == mid.ops[k];
          assert mid.ops[k].from in sources[..n];
        } else {
          assert o.Done? && fin.ops[k] == o.op;
        }
      }
    }
  }

  /** No change writes over a resource that exists when it is made. */
  ghost predicate WritesFresh(paths: set<Path>, ops: seq<Op>)
  {
    forall k :: 0 <= k < |ops| ==> !ops[k].DelOp? && ops[k].to !in ApplyAll(paths, ops[..k])
  }

  /** With `generate_name` giving fresh names, no change the paste makes
      writes over a resource that exists when it is made. */
  lemma {:induction false} PasteRunFresh(paths: set<Path>, here: Path, cut: bool, sources: seq<Path>,
                                         generateName: (string, set<string>) -> string,
                                         refuses: (set<Path>, Op) -> bool)
    requires FreshNames(generateName)
    ensures WritesFresh(paths, PasteRun(PasteStart(paths), here, cut, sources, generateName, refuses).ops)
  {
    if |sources| > 0 {
      var n := |sources| - 1;
      var mid := PasteRun(PasteStart(paths), here, cut, sources[..n], generateName, refuses);
      var fin := PasteRun(PasteStart(paths), here, cut, sources, generateName, refuses);
      PasteRunFresh(paths, here, cut, sources[..n], generateName, refuses);
      assert fin == PasteStep(mid, here, cut, sources[n], generateName, refuses);
      var o := PasteOutcomeOf(mid.paths, here, cut, sources[n], generateName, refuses);
      if o.Done? {
        assert fin.ops == mid.ops + [o.op];
        forall k | 0 <= k < |fin.ops|
          ensures !fin.ops[k].DelOp? && fin.ops[k].to !in ApplyAll(paths, fin.ops[..k])
        {
          if k < |mid.ops| {
            assert fin.ops[k] == mid.ops[k] && fin.ops[..k] == mid.ops[..k];
          } else {
            PasteRunLists(paths, here, cut, sources[..n], generateName, refuses);
            assert fin.ops[..k] == mid.ops;
            assert o.op.to !in mid.paths;
          }
        }
      } else {
        assert fin.ops == mid.ops;
      }
    }
  }

  /** `action_paste`: nothing to paste without cookie paths; otherwise the
      paste, the cookie cleared after a cut, and one message per non-empty
      list. */
  method ActionPaste(site: Site, here: Path, generateName: (string, set<string>) -> string,
                     refuses: (set<Path>, Op) -> bool)
    returns (msgs: seq<Message>, pasted: seq<string>, notAllowed: seq<string>,
             ghost ops: seq<Op>, ghost outcomes: seq<PasteOutcome>)
    modifies site
    ensures var cp := old(site.ReadCookie());
            |cp.paths| == 0 ==> msgs == [NoPaste] && ops == [] && site.paths == old(site.paths) && site.cookie == old(site.cookie)
    ensures var cp := old(site.ReadCookie());
            |cp.paths| > 0 ==>
              PasteRun(PasteStart(old(site.paths)), here, cp.cut, cp.paths, generateName, refuses) ==
                PasteState(site.paths, pasted, notAllowed, ops, outcomes) &&
              msgs == PasteMessages(pasted, notAllowed) &&
              site.cookie == (if cp.cut then None else old(site.cookie))
    ensures site.paths == ApplyAll(old(site.paths), ops)
    ensures var cp := old(site.ReadCookie());
            PastesInto(ops, here, cp.cut, cp.paths)
    ensures FreshNames(generateName) ==> WritesFresh(old(site.paths), ops)
  {
    var cp := site.ReadCookie();
    if |cp.paths| == 0 {
      msgs, pasted, notAllowed, ops, outcomes := [NoPaste], [], [], [], [];
      return;
    }
    PasteRunLists(site.paths, here, cp.cut, cp.paths, generateName, refuses);
    PasteRunOps(site.paths, here, cp.cut, cp.paths, generateName, refuses);
    if FreshNames(generateName) {
      PasteRunFresh(site.paths, here, cp.cut, cp.paths, generateName, refuses);
    }
    pasted, notAllowed, ops, outcomes := PasteLoop(site, here, cp, generateName, refuses);
    // A cut is pasted once
    if cp.cut {
      site.cookie := None;
    }
    msgs := PasteMessages(pasted, notAllowed);
  }

  lemma ApplyAllSnoc(before: set<Path>, ops: seq<Op>, op: Op)
    ensures ApplyAll(before, ops + [op]) == Apply(ApplyAll(before, ops), op)
    ensures forall k :: 0 <= k <= |ops| ==> (ops + [op])[..k] == ops[..k]
  {
    assert (ops + [op])[..|ops|] == ops;
  }
}
