# ikaaro folder, REST, CSV and resource views in Dafny

This project models the request handlers at the core of the ikaaro web
content management system, and proves what they promise.

- **Folder views** (`folder_views.dfy`, module `FolderViews`):
  - the zoom menu of the image preview;
  - the rename form and the rename action;
  - the remove, copy, cut and paste actions of the folder browser, with the
    `ikaaro_cp` copy cookie they share.
- **Listing** (`listing.dfy`, module `FolderListing`):
  - the catalog query the folder browser builds (items below the folder,
    content only, one clause per filled search field);
  - the custom-key sort and batch of the results;
  - the column heads of the preview table and their sort toggle.
- **REST** (`rest.dfy`, module `Rest`):
  - `fix_json` over the JSON tree;
  - the JSON projection of a field's stored properties;
  - the representation `Rest_View.GET` returns;
  - the updates `_modify_resource` applies;
  - the query and the item list of `Rest_Query.GET`.
- **CSV resource** (`csv.dfy`, module `CsvTable`):
  - the columns it shows;
  - the batched, numbered and sortable table view;
  - the widget chosen for each field of the add and edit forms;
  - the add, edit and delete actions, on a `CsvHandler` class whose `lines`
    field they change.
- **Resource views** (`resource_views.dfy`, module `ResourceViews`):
  - the breadcrumb of the "add image/link" dialog and its item list;
  - the scripts and the extra javascript of that dialog;
  - the upload action;
  - the page type a new link creates;
  - where a successful login sends the user, on a `LoginContext` class.
- **Shared modules**:
  - `common.dfy` (module `Common`) holds Python's building blocks:
    - `Option`;
    - string order;
    - the stable `list.sort` (an insertion sort);
    - slicing with negative bounds;
    - `str`/`int` of integers;
    - `rsplit`.
  - `tree.dfy` holds two modules:
    - `Tree`: the resource database as a set of absolute paths, the
      delete, move and copy of a subtree, the copy cookie, and the `Site`
      class (database plus cookie) that the actions change;
    - `Catalog`: the catalog's query tree and what a query means of one
      document.

The code that changes state step by step is modelled as methods with
loops, proved against specification functions:

- the rename, remove and paste loops;
- the permission filter;
- the CSV view's numbering loop and the CSV edit;
- the breadcrumb walk;
- `property_to_json` and the field loops of the REST views.

The permission checks, `checkid`, `generate_name`, datatype
encode/decode, `gettext` and the database's refusal of a change that
would break a reference (a `ConsistencyError`) are all parameters.

## Model

| member | source | states |
|---|---|---|
| Tree.WalkDown | folder_views.py:615 | `resolve2` of ordinary names (no '.' or '..') appends them to the base path, one level each. |
| Tree.WalkBelow | folder_views.py:615 | Without '..', following names never leaves the starting path: the result extends it. |
| Tree.ResolveBelow | resource_views.py:142 | A relative path with no '..' among its names resolves to somewhere under the base. |
| Tree.SegmentsUp | folder_views.py:615 | The names of "../" followed by any string are '..' followed by that string's names. |
| Tree.ResolveUp | folder_views.py:615 | '..' goes up one level: from any folder below the top, "../" followed by a relative path resolves that path from the folder's parent. |
| FolderViews.ZoomPreviousIsLargestBelow | folder_views.py:96-102 | For increasing size steps, the "zoom out" size is the largest step below the current size, or the smallest step when no step is below it. |
| FolderViews.ZoomNextIsSmallestAbove | folder_views.py:97-102 | For increasing size steps, the "zoom in" size is the smallest step above the current size, or the largest step when no step is above it. |
| FolderViews.ZoomSizes | folder_views.py:91-102 | The loop clamps the size into the range of steps (as `max(min, min(size, max))`) and computes the two neighbours. For increasing steps: smallest <= previous <= current <= next <= largest, previous is at least every step below the current size, and next is at most every step above it. |
| FolderViews.RenameSplit | folder_views.py:223-228 | Parent path plus name is the path. With a slash, the parent ends in '/' and the name has no slash. Without one, the parent is empty and the name is the whole path. |
| FolderViews.Descending | folder_views.py:219-220 | `sort(); reverse()` returns a permutation of the ids. |
| FolderViews.DescendingIsSorted | folder_views.py:219-220 | The sorted and reversed ids are in descending string order. |
| FolderViews.ChildrenBeforeParents | folder_views.py:536-539 | In descending order, a path comes before every path that is a proper prefix of it, so children are handled before their parents. |
| FolderViews.Permitted | folder_views.py:215-216 | The list comprehension fails (NotFound) exactly when some id names nothing, and reports the first such id. Otherwise it keeps exactly the ids the user is permitted on, in order. |
| FolderViews.RenameNamespace | folder_views.py:210-234 | The form fails exactly when an id names nothing. Otherwise its rows are the ids the user may move, each exactly as often as in the request (the row paths are a permutation of the permitted ids), in descending order, each split into parent path and name. |
| FolderViews.RenameRows | folder_views.py:221-232 | One row per path, in order, each holding the path and its split. |
| FolderViews.RenameRowsFromKept | folder_views.py:215-220 | The rows of the sorted, filtered ids are a permutation of the permitted ids. |
| FolderViews.RenameSource | folder_views.py:257-262 | A path without a slash names a child of the folder itself. Otherwise the part before the last slash is looked up, and the old name after it contains no slash. |
| FolderViews.NewNameAt | folder_views.py:251 | `new_names[i]` gives the i-th new name exactly when the list is long enough, and nothing (the IndexError) otherwise. |
| FolderViews.RenameStepFacts | folder_views.py:250-281 | One pass does nothing once the loop has returned. It stops with the IndexError when no new name is left, and with MSG_BAD_NAME on a name `checkid` rejects. The cookie is kept, or deleted (with `cp_paths` emptied) only for a path the non-empty `cp_paths` holds. At most one name is added to the renamed and referenced lists. |
| FolderViews.RenameStepCookie | folder_views.py:263-272 | One pass deletes the cookie and empties `cp_paths` exactly when it gets past the name, lookup, unchanged-name and clash checks and the non-empty `cp_paths` holds the path's absolute path. This happens before the move, whether or not the move is refused. Any other pass leaves both alone. |
| FolderViews.RenameStepMove | folder_views.py:274-281 | The database changes only by moving the old name to the new name inside its container, and that name is then recorded as renamed. |
| FolderViews.RenameRunStopped | folder_views.py:252-255 | After a `return`, the remaining paths change nothing. |
| FolderViews.RenameBadNameStops | folder_views.py:252-255 | A bad new name ends the action with MSG_BAD_NAME and keeps everything done before it. |
| FolderViews.RenameExistingStops | folder_views.py:266-269 | A new name that is already taken ends the action with MSG_EXISTANT_FILENAME. |
| FolderViews.RenameShortNamesStop | folder_views.py:250-251 | When the new names run out before the paths, the loop stops at the first path without a new name (the IndexError), keeping what was done before it. |
| FolderViews.RenameUnchangedSkipped | folder_views.py:263-264 | A path whose checked new name equals its old name is skipped: the loop's state after it is the state before it. |
| FolderViews.RenameRefusedContinues | folder_views.py:275-279 | A move the database refuses adds the old name to `referenced`, leaves the database unchanged, and lets the loop go on. |
| FolderViews.RenameRunBuckets | folder_views.py:246-281 | After the loop, renamed plus referenced names number at most the paths handled. The cookie is the old one or deleted. |
| FolderViews.RenameRunCookie | folder_views.py:243-272 | After the loop, the cookie and `cp_paths` are the old ones, or the cookie is deleted and `cp_paths` emptied because one of the paths was in the non-empty cookie. |
| FolderViews.RenameStaysDeleted | folder_views.py:270-272 | Once the loop has deleted the cookie, it stays deleted to the end. |
| FolderViews.RenameCookieDeleted | folder_views.py:270-272 | A path the cookie holds, reached by the loop past its checks while `cp_paths` is still there, leaves no cookie at the end. |
| FolderViews.RenameOne | folder_views.py:251-281 | One pass on the site leaves the database, the cookie and the lists exactly as the specification step does. |
| FolderViews.RenameLoop | folder_views.py:250-281 | The loop on the site leaves exactly the state of the specification run. |
| FolderViews.RenameAction | folder_views.py:237-288 | For new-name lists of any length, the action's database, cookie, lists and message are the run over the descending paths. At most one name per path ends up in the lists. The cookie is kept, or deleted because one of the paths was in it. |
| FolderViews.FirstMissing | folder_views.py:564-565 | Finds the first referenced name whose resource is gone, exactly when there is one. |
| FolderViews.RemoveMessages | folder_views.py:557-575 | Messages are never empty. A failed lookup in the loop gives only its error. Otherwise, the lookup of a referenced name that is gone gives only its error, exactly when such a name exists. Failing that, each list's message appears exactly when the list is non-empty, and MSG_NONE_REMOVED exactly when all three are empty. |
| FolderViews.RemoveStepBuckets | folder_views.py:540-555 | One pass puts the name in exactly one of removed, referenced and not removed, unless the lookup fails. |
| FolderViews.RemoveStepGrows | folder_views.py:540-555 | One pass only appends to the three lists. |
| FolderViews.RemoveStepPermitted | folder_views.py:542-555 | A name goes to removed or referenced only if the user may remove it, and to not removed only if the user may not. |
| FolderViews.RemoveStepPaths | folder_views.py:544-549 | The database changes only when the name is removed, by deleting its subtree. |
| FolderViews.RemoveStepCookie | folder_views.py:550-553 | The cookie is deleted only on the removal of a resource it names. |
| FolderViews.RemoveRunBuckets | folder_views.py:540-555 | When no lookup fails, the three lists together are exactly the ids handled. In every case they hold no other names. |
| FolderViews.RemoveRunGrows | folder_views.py:540-555 | The loop only appends to the three lists. |
| FolderViews.RemoveRunPermitted | folder_views.py:542-555 | Over the whole loop, removed and referenced names are removable by the user, and not-removed names are not. |
| FolderViews.RemoveRunPaths | folder_views.py:544-549 | The database only shrinks. Every removed resource is gone. Everything outside the removed subtrees stays. |
| FolderViews.RemoveRunCookie | folder_views.py:550-553 | The cookie is kept, or deleted because a removed resource was in it. |
| FolderViews.RemoveRunStopped | folder_views.py:541 | After a failed lookup, the remaining names change nothing. |
| FolderViews.RemoveOne | folder_views.py:541-555 | One pass on the site leaves exactly the state of the specification step. |
| FolderViews.RemoveLoop | folder_views.py:529-555 | The loop on the site leaves exactly the state of the specification run. |
| FolderViews.ActionRemove | folder_views.py:522-576 | The state is the run over the descending ids, and the messages are those of the run, with the referenced names looked up in the final database. Messages are never empty. Unless a lookup failed, the three lists are a partition of the ids. MSG_NONE_REMOVED appears exactly when no id was given. |
| FolderViews.RemoveOutcome | folder_views.py:540-555 | After `action_remove`: only removable names are removed or referenced, and the others are reported not removed. The database only loses resources, and each removed one is gone. The cookie is kept, or deleted because it named a removed resource. |
| FolderViews.ResolveAll | folder_views.py:615 | The cookie's paths are the absolute paths of the names, one per name, in order. |
| FolderViews.PickForPaste | folder_views.py:601-640 | A missing id gives the lookup error of the first id that does not resolve (all ids before it resolve) and keeps the cookie. No permitted id gives MSG_NONE_SELECTED and keeps the cookie. Otherwise the cookie holds the absolute paths of exactly the permitted ids, flagged cut or copy. A changed cookie only ever names permitted ids. |
| FolderViews.PickedPaths | folder_views.py:606-615 | Every path put in the cookie is that of an id the user is permitted on. |
| FolderViews.PickedAny | folder_views.py:606-612 | The filtered list is empty exactly when the user is permitted on no id. |
| FolderViews.ActionCopy | folder_views.py:601-619 | MSG_COPIED and a copy cookie (cut false) of the permitted ids. Otherwise MSG_NONE_SELECTED or the lookup error, with the cookie unchanged. |
| FolderViews.ActionCut | folder_views.py:622-640 | MSG_CUT and a cut cookie (cut true) of the ids the user may move. Otherwise MSG_NONE_SELECTED or the lookup error, with the cookie unchanged. |
| FolderViews.PasteOp | folder_views.py:664-679 | The operation for a cookie path: a move when cut and a copy otherwise, from that path to a new child of the folder, named by `generate_name`. With fresh names the target does not exist. |
| FolderViews.PasteOutcomeOf | folder_views.py:655-683 | A cookie path is skipped exactly when its source is gone, left in place exactly when it is a cut whose source is already in the folder, and refused exactly when otherwise the database refuses its operation. Else the operation is done, and its new name reported. |
| FolderViews.PasteRunLists | folder_views.py:651-683 | After the loop: one outcome per cookie path. The pasted list is exactly the names of the cuts left in place and the pastes done, in order. The not-pasted list is exactly the refused sources' names. The database is the old one with the operations of the pastes done applied, in order. |
| FolderViews.PasteRunEach | folder_views.py:655-683 | Each cookie path's outcome is decided on the database as the loop reaches it, after the earlier paths were handled. |
| FolderViews.PasteRunOutcomeAt | folder_views.py:655-683 | The k-th cookie path's outcome is decided on the database left by the first k paths. |
| FolderViews.PasteRunPrefix | folder_views.py:653 | The outcomes for the first cookie paths are the first outcomes of the whole loop. |
| FolderViews.PasteRunLength | folder_views.py:653 | The loop records one outcome per cookie path. |
| FolderViews.PasteNamesCount | folder_views.py:651-683 | Pasted, not pasted and skipped together count the cookie's paths, and there are no more changes than pasted names. |
| FolderViews.PasteRunOps | folder_views.py:664-679 | Every change made is a move (for a cut) or a copy (for a copy) from a cookie path to a new child of the folder, and a cut never moves a child of the folder itself. |
| FolderViews.PasteRunFresh | folder_views.py:664 | With `generate_name` giving fresh names, no change writes over an existing resource. |
| FolderViews.PasteMessages | folder_views.py:697-704 | MSG_RESOURCES_PASTED appears exactly when something was pasted, and MSG_RESOURCES_NOT_PASTED exactly when something was refused. |
| FolderViews.PasteLoop | folder_views.py:651-691 | The loop on the site leaves exactly the database, the two lists, the changes and the per-path outcomes of the specification run. |
| FolderViews.ActionPaste | folder_views.py:644-706 | An empty cookie gives MSG_NO_PASTE and changes nothing. Otherwise the state and lists are the specification run's. The database is the old one with the changes applied, each a move (cut) or copy from a cookie path into the folder, onto a fresh name when `generate_name` gives one, the messages are those of the two lists, and a cut deletes the cookie while a copy keeps it. |
| FolderListing.OrOfPhrases | folder_views.py:350-351 | One phrase query per selected value, in order, under an OR. |
| FolderListing.SearchClause | folder_views.py:346-353 | A field gives a clause exactly when its value is non-empty. 'text' gives a text query, a multiple field an OR of phrases, any other field one phrase. |
| FolderListing.GetSearchQuery | folder_views.py:342-354 | The queries are the arguments followed by one clause per filled search field, in schema order. |
| FolderListing.SearchClauseHolds | folder_views.py:347-353 | A multiple field's clause holds exactly when one of the chosen values does. Any other clause holds as its leaf. |
| FolderListing.SearchClausesFrom | folder_views.py:345-354 | At most one clause per field, each the clause of some field. No clause at all exactly when every field is empty. |
| FolderListing.ItemsQuery | folder_views.py:331-339 | The base-path query with the view's depth comes first, and the `is_content` phrase is present exactly when the search is for content only. |
| FolderListing.ItemsQueryHolds | folder_views.py:331-339 | The items query holds exactly when the document is under the folder (within the depth) and, for a content-only search, is content. |
| FolderListing.Combine | folder_views.py:372-375 | A single query is returned as it is. Anything else is wrapped in an AND of exactly those queries. |
| FolderListing.CombineHolds | folder_views.py:372-375 | The combined query holds exactly when every query does. |
| FolderListing.GetItemsQueryHolds | folder_views.py:357-375 | `get_items`' query holds exactly when the arguments, the items query and every search clause hold. |
| FolderListing.SortAndBatch | folder_views.py:443-464 | The custom sort is used exactly when a `get_key_sorted_by_` key exists. Otherwise the catalog sorts and batches. An unbatched custom sort keeps every result. |
| FolderListing.SortAndBatchPage | folder_views.py:453-460 | A custom page holds results only, at most `size` of them when a size is given, and its k-th item is item start+k of the sorted results. |
| FolderListing.SortAndBatchSorted | folder_views.py:456 | For a total preorder key, the custom page is in key order, reversed for `reverse`. |
| FolderListing.WindowFacts | folder_views.py:457-460 | `items[start:start+size]` (or `items[start:]`) holds items only, at most `size` of them, item start+k at position k. |
| FolderListing.ColumnHead | folder_views.py:779-808 | A checkbox head is shown only with actions. An untitled column has no head. An unsortable column has a plain head. A sortable head links to a sort by its own column, with order 'none' exactly when the table is not sorted by it. |
| FolderListing.SortToggle | folder_views.py:794-802 | Following a head's link sorts by that column. The first click sorts 'down'. Each further click flips `reverse`. The order shows 'up' exactly when the previous link asked for reverse. |
| FolderListing.TableHeadsFacts | folder_views.py:778-808 | At most one head per column. A head showing an order is that of the sorted column. |
| FolderListing.GetTableHeadAsWritten | folder_views.py:771-808 | As written, the method builds the heads and returns nothing. |
| FolderListing.TableHeadsPerColumn | folder_views.py:778-808 | There is exactly one head per column that has one (a titled column, the checkbox only with actions), in column order, and the k-th head is that column's head. |
| FolderListing.GetTableHead | folder_views.py:771-808 | The intended result: one head per shown column, in column order, each that column's head. |
| FolderListing.TableHeadLost | folder_views.py:771-808 | For one sortable titled column, the intended result has its head, and the method as written returns None. |
| Rest.PutFacts | rest.py:44 | Assigning a key in a dict keeps the keys distinct, and adds an entry only for a new key. |
| Rest.BuildDictFacts | rest.py:44 | The dict comprehension has distinct keys, holds pairs from its input only, and is never longer than its input. |
| Rest.BuildDictOfDistinct | rest.py:44 | On pairs with distinct keys, the dict comprehension is the identity. |
| Rest.FixJsonFixed | rest.py:32-45 | `fix_json` leaves no unicode string anywhere in the tree. |
| Rest.FixJsonOfFixed | rest.py:32-45 | On a tree without unicode strings, `fix_json` changes nothing. |
| Rest.FixJsonIdempotent | rest.py:32-45 | `fix_json` applied twice is `fix_json` once. |
| Rest.FixJsonShape | rest.py:38-45 | A unicode string becomes its UTF-8 bytes. A list is fixed element by element. A dict keeps at most its entries, and all of them when the fixed keys stay distinct. Anything else is returned as it is. |
| Rest.PropertyJson | rest.py:48-62 | The dict always has 'value'. Without parameters it is just the encoded value. With parameters, each parameter of the schema that is set is encoded under its name, and nothing else is added. |
| Rest.PropertyToJson | rest.py:48-62 | The method computes the property's JSON dict. |
| Rest.AddParameters | rest.py:57-60 | The parameter loop adds exactly the set parameters of the schema, encoded, to the value entry. |
| Rest.PropertyJsonPointwise | rest.py:53-62 | A dict with those keys and values is the property's JSON. |
| Rest.FieldToJson | rest.py:65-80 | There is JSON exactly for a metadata field with a stored property. A single property gives one dict, a list one dict per element, a dict one per value. |
| Rest.AddFieldsKeys | rest.py:104-107 | The representation's keys are the starting keys plus the fields with JSON. Each such field maps to its JSON, and every other key keeps its value. |
| Rest.AddFieldsTo | rest.py:104-107 | The loop over the field names builds the representation. |
| Rest.RestGet | rest.py:98-115 | The representation is 'format' with the class id, plus the fields with JSON. |
| Rest.RestGetKeys | rest.py:102-107 | The representation has 'format' and only fields with JSON. Every field with JSON is there with its JSON. 'format' keeps the class id unless a field of that name overrides it. |
| Rest.QueryItems | rest.py:194-202 | One item per search result, in order, holding its abspath plus the requested fields with JSON. |
| Rest.RestQuery | rest.py:188-191 | The query loop folds the URI parameters into the base-path query. |
| Rest.QueryFoldHolds | rest.py:188-191 | The query holds exactly when the document is under the resource and matches every URI parameter except 'fields'. |
| Rest.SetValueFor | rest.py:128-135 | Each change sets the field to the decoded value, in the language given by 'lang' when present and not null (a null 'lang' is `None`, as when it is absent), with every other parameter passed unchanged and 'lang' not among them. |
| Rest.SetValueRestores | rest.py:133 | Popping 'lang' loses nothing: putting it back (a missing language as JSON null) gives the change's parameters. |
| Rest.Target.ModifyResource | rest.py:127-135 | Every change, in order, is applied as its `set_value` call. |
| CsvTable.GetColumnsPlain | csv.py:56-60 | Without a schema, one column per cell of the first line, named and titled by its position. No lines means no columns. |
| CsvTable.SchemaColumnsFacts | csv.py:62-73 | With a schema, the columns are the schema's columns except the IntegerKey ones, in order, each titled by its datatype's translated title or by its name. |
| CsvTable.RowCellsSome | csv.py:119-126 | A row gives a table row exactly when every shown column can be read from it. |
| CsvTable.RowCellsKeys | csv.py:119-126 | A table row has exactly the shown columns as keys. |
| CsvTable.RowCellsValues | csv.py:119-126 | Each column shows its cell, or the enumerate's title for an enumerate column. |
| CsvTable.NumberRows | csv.py:113-127 | The view's loop gives the batch's rows numbered from `batchstart`, or fails on a row that cannot be read. |
| CsvTable.BatchFacts | csv.py:89-127 | A batch holds at most 50 lines. From a non-negative start, its k-th row is line start+k, with id str(start+k) and index start+k. |
| CsvTable.IdsDistinct | csv.py:115 | Distinct rows get distinct ids, because `int(str(n)) == n`. |
| CsvTable.RowLeOrder | csv.py:133 | Comparing rows by a key is a total preorder. |
| CsvTable.ArrangeFails | csv.py:132-133 | Sorting fails (KeyError) exactly when a row lacks the key asked for. |
| CsvTable.ArrangeKeeps | csv.py:132-133 | Sorting is a permutation of the rows, and with no `sortby` the rows are left as they are. |
| CsvTable.ArrangeSorted | csv.py:133 | Sorted rows are in key order, descending exactly when `sortorder` is 'down'. |
| CsvTable.WidgetExactlyOne | csv.py:166-176 | Each field is exactly one of selection box, checkbox and text input, with an enumerate before a boolean before an input. |
| CsvTable.FormsAgree | csv.py:155-238 | The add form has one field per column, with no value. The edit form exists exactly when the row exists and each of its cells can be read, and it has the same fields, each holding that row's cell for its column. |
| CsvTable.DeleteRowsSub | csv.py:143-148 | Deleting rows keeps only rows of the table. |
| CsvTable.DeleteRowsKeeps | csv.py:143-148 | Every row whose index was not asked for stays. |
| CsvTable.DeleteRowsExact | csv.py:143-148 | Deleting keeps exactly the rows whose index was not asked for, in their order: the j-th row left is the row at the j-th surviving index, and the surviving indices are every index not asked for, increasing. |
| CsvTable.DeleteRowsNone | csv.py:143-148 | Ids that name no row change nothing. |
| CsvTable.SetValues | csv.py:248-251 | The column loop succeeds exactly when the row is readable. It writes each column's form value into that column's cell and leaves the other cells as they were. |
| CsvTable.CsvHandler.View | csv.py:84-139 | Deletion is offered exactly when there are lines and the user may edit. The columns are 'index' then the shown columns. The rows are the batch's numbered rows, sorted as asked. |
| CsvTable.CsvHandler.AddRowAction | csv.py:186-197 | The handler gains one line, holding the form's value for each column. It is marked changed, and the answer is "New row added". |
| CsvTable.CsvHandler.DelRowAction | csv.py:143-148 | The handler's lines lose the rows asked for, and it is marked changed. |
| CsvTable.CsvHandler.EditRow | csv.py:242-254 | A missing or unreadable row raises. Otherwise that row's columns take the form's values, every other row stays, and the handler is marked changed. |
| ResourceViews.ChainFacts | resource_views.py:145-157 | The breadcrumb runs from the root to the target, each entry the parent of the next. |
| ResourceViews.Crumbs | resource_views.py:145-157 | The walk up from the target ends exactly when the root is the top of the tree or the root's parent lies on the target's path. It then yields every ancestor of the target from the root's level down to the target. |
| ResourceViews.BreadcrumbTargetFacts | resource_views.py:136-142 | A given `target` always resolves. A relative one without '..' names something under the root. Without one, the target is the start folder, or, when the start is not a folder, its parent: the start without its last segment, and none for the root. |
| ResourceViews.InsertFoldersFirst | resource_views.py:196 | Inserting into folders-then-others puts a folder first and any other item first among the others. |
| ResourceViews.SortFoldersFirst | resource_views.py:196 | The stable reverse sort on `is_folder` puts the folders first and otherwise keeps the order. |
| ResourceViews.BreadcrumbItems | resource_views.py:160-196 | The items are the visible children, folders first, each group in search order. |
| ResourceViews.VisibleFacts | resource_views.py:163-166 | The items are exactly the children the user may view. |
| ResourceViews.GetBreadcrumb | resource_views.py:136-207 | The view answers exactly when a given target exists (`get_resource` raises otherwise) and the walk ends, with its target, the chain from the root and the target's items. |
| ResourceViews.GetScripts | resource_views.py:284-287 | With no mode, the base scripts. With a mode, the base scripts followed by that mode's scripts. An unknown mode raises. |
| ResourceViews.AdditionalJavascript | resource_views.py:290-295 | Nothing unless the mode is 'input'. Otherwise the template filled with `str(target_id)`. |
| ResourceViews.IsCompatible | resource_views.py:317-323 | The file's class is compatible exactly when it is a subclass of one of the filter types. |
| ResourceViews.ActionUpload | resource_views.py:298-343 | A bad name, a missing container (`get_resource` raises), a name clash and a wrong type each stop the upload, checked in that order, and leave the database unchanged. Otherwise the file becomes a new child of the target folder, and the mode's scripts are added. |
| ResourceViews.PageTypeModes | resource_views.py:421-431 | 'tiny_mce' gives a web page and 'wiki' a wiki page. Any other mode raises. |
| ResourceViews.LoginRedirectFacts | resource_views.py:479-487 | The user goes back to the referrer, unless there is none or it is the login page itself, and then to './'. The redirect never goes back to ';login'. |
| ResourceViews.LoginContext.Login | resource_views.py:454-489 | An unknown user or a wrong password gives its error and changes no session state. Otherwise the auth cookie is set, the user is logged in, "Welcome!" is shown and the user is redirected. |

## Left out

- Rendering is left out: templates (`stl`), URLs and `uri.replace`, icons, titles, `reduce_string`, the batch widget, and the HTML of messages. Messages are datatype constructors, and names stand for the message arguments.
- The catalog is left out. A query is a value, and what it means is stated by `Catalog.Holds` over the meaning of its leaves. The Xapian sort and batch is the `CatalogPage` request.
- `json.dumps` and `json.loads` are left out. A JSON dict is a list of pairs in the dict's own order.
- These helpers are parameters of the model: UTF-8 encoding, datatype encode/decode, `gettext`, `checkid`, `generate_name`, `get_uri_path`, `FileName.decode` and the `%` fill of `additional_javascript`.
- Access control, `ConsistencyError` and `user.authenticate` are parameters (predicates). The user is not modelled.
- Python integers are unbounded, like Dafny's.
- I/O, the response headers (Content-Type, Last-Modified) and the clock (`mtime`) are left out.
- The workflow reset of a pasted copy (folder_views.py:687-691) is left out: metadata is not modelled.
- `set_value` and `make_resource` are left out as behaviour. `_modify_resource` records the calls it makes, and the upload records the new path only.
- `Rest_View.POST`, `PUT`, `DELETE` and `action_rename` are left out. They were not part of the modelled core.
- The `get_field(name) is None` crash of `_modify_resource` is left out: every changed name is assumed to have a field.
- The cookie's paths are a list of absolute paths, compared as lists rather than as strings.
- In-place sorts (`ids.sort()`, `rows.sort`, `items.sort`) are modelled on sequence values, as a stable insertion sort.
- A dict's iteration order is taken to be the order of the schema or parameter list given to the model.
- FolderViews.RenameRunBuckets: states a bound, not a partition. A path whose name does not change is skipped without being recorded.
- CsvTable: a schema that names a column without a datatype is excluded by `WellFormed` and `CsvHandler.Valid()`, so the KeyError that `handler.schema[name]` raises then (csv.py:64) is not modelled.
- CsvTable: cells are text. Typed values are compared as text when sorting, and the form gives a column's value as text (a missing value is whatever `form` yields).
- CsvTable: the handler's `add_row`, `del_rows` and `set_changed` are assumed to append, remove by index and set a flag. `get_row` is Python indexing, negative indices included.
- CsvTable.CsvHandler.EditRow: when a cell cannot be read part way through, the cells written before the error stay written, as they do in place in the source.
- CsvTable.CsvHandler.View: for a negative `batchstart`, the rows' ids and indices are not related to their positions in the table (as in the source, `index` starts negative).
- CsvTable.EditRowForm: the row's value is carried by every widget. The source passes it to an enumerate's options, as a checkbox's selection, or encoded as an input's value.
- ResourceViews: resources are identified by their paths. The search's class filter is the `children` parameter, and image thumbnails are not modelled.
- ResourceViews.ActionUpload: the javascript returned and the resource action appended to the path are left out.
- ResourceViews.LoginContext.Login: the message text is left out, and `set_auth_cookie` is recorded as the (user, password) pair.
- `DBResource_AddLink.action_add_resource` is not modelled. Only its `get_page_type` is.
- Tree.Walk: '..' at the top of the tree stays at the top. What the path library does there is not part of this model.
- FolderViews.ZoomNext: `next_size is max_size` (an identity test) is modelled as `==`. The two agree when the size steps are increasing, so that no earlier step equals the largest one.
- FolderViews.RenameStep, FolderViews.RemoveStep: when a lookup fails part way (an IndexError or LookupError), the changes made before it stay. In the source the exception propagates and whether they are kept depends on the server's transaction handling, which is not modelled.
- ResourceViews.GetBreadcrumb: the root and the start resource are assumed to exist. Only a given `target` is looked up.

## Findings

| source | as written | input that shows it | evidently intended | confidence | as-written member | corrected member |
|---|---|---|---|---|---|---|
| folder_views.py:771-808 | `get_table_head` builds `columns_ns` and falls off the end, so it returns None | one column ('title', 'Title', sortable), no actions, no sort | return `columns_ns`, one head per shown column | not executed | FolderListing.GetTableHeadAsWritten (with FolderListing.TableHeadLost) | FolderListing.GetTableHead |
