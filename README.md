# HDXObject lifecycle and list reconciliation, in Dafny

This project models the core of the `HDXObject` base class of the HDX Python API, the
client-side object model over the CKAN-based Humanitarian Data Exchange. Resources, gallery
items and datasets all build on it. It covers two parts.

- **The lifecycle of one object.** An object holds two dictionaries: `data`, the current
  metadata, and `old_data`, the previous one (`None` until the first rotation). Reading,
  loading, creating, updating and deleting check their preconditions locally. They then call
  the remote site. Reading, loading, saving and deleting either leave both dictionaries alone
  or rotate them (`old_data := data`, `data := the site's answer`). Updating loads (a
  rotation), merges into `data`, checks and writes, and a raise after the load keeps what was
  done up to it. Creating an object whose id the site already knows becomes that
  merge-and-update.
- **The list helpers a dataset uses for its resources and gallery items.**
  `_addupdate_hdxobject` and `_separate_hdxobjects` match records by an id field, merge into
  the first match or append, and never remove an element. `_convert_hdxobjects` and
  `_copy_hdxobjects` return a new list of the elements' dictionaries, in order, and leave the
  given list alone.

Layout:

- `values.dfy` (module `Values`): the metadata values (`Value`, `Data`), Python truthiness
  (`Falsy`), the errors raised (`Error`) and `Status` (returned or raised).
- `lifecycle.dfy` (module `Lifecycle`): the lifecycle as pure functions (`Read`, `Load`,
  `CheckExisting`, `CheckRequired`, `CheckLoadExisting`, `Save`, `MergeUpdate`, `Update`,
  `Create`, `Delete`) of the two snapshots and of the site's answers, with lemmas about them.
- `reconcile.dfy` (module `Reconcile`): the list helpers as pure functions (`AddUpdate`,
  `Separate`, and their loops `AddUpdateFrom`, `ProbeFrom`, `AbsorbFrom`, `AppendFrom`), the
  reference definitions `Absorbed` and `Unmatched`, and lemmas.
- `hdxobject.dfy` (module `HdxObject`): the class `HDXObject`, with fields `data` and
  `oldData` and one method per helper of the source. It also holds the class `EntityList`, the
  Python list the helpers change in place. These methods are proved equal to the pure
  function of the same operation: `ReadFromHdx` (`Read`), `LoadFromHdx` (`Load`),
  `CheckExistingObject` (`CheckExisting`), `CheckLoadExistingObject` (`CheckLoadExisting`),
  `CheckRequiredFields` (`CheckRequired`), `MergeHdxUpdate` (`MergeUpdate`), `UpdateInHdx`
  (`Update`), `SaveToHdx` (`Save`), `CreateInHdx` (`Create`), `DeleteFromHdx` (`Delete`),
  `AddUpdateHdxObject` (`AddUpdate`) and `SeparateHdxObjects` (`Separate`). The constructor,
  `UpdateFromStatic`, `WriteToHdx`, `ConvertHdxObjects` and `CopyHdxObjects` have no pure
  counterpart and state their results directly.

Some things are parameters of the model:

- The remote site (`ckanapi.RemoteCKAN.call_action`) is a parameter
  `remote: Request -> Outcome`. An outcome is `Found(result)`, `NotFound` or `Failed`.
  Methods report the calls they made in a ghost out-parameter `calls`, so "before any remote
  call" reads `calls == []`.
- `merge_two_dictionaries` lives in a file that is not part of this model. It is a parameter
  `merge: (Data, Data) -> Data`, and the model assumes nothing about it. The one behaviour the
  tests show is that scalars set in the second argument win. It is the named hypothesis
  `LocalScalarsWin`, used only by `LocalScalarsReachSite`.
- The per-type configuration is `Config`: the `actions()` table, `required_fields` and
  `ignore_on_update`.
- Exceptions are a `Status` out-parameter: `Done` or `Raised(error)`. A caller that gets
  `Raised` returns at once and keeps the state it had at that point, as Python does.

Three behaviours of the code are easy to miss:

- **A failed update does not restore the pre-call state.** The load at
  hdx/data/hdxobject.py:121-122 has already rotated the snapshots, and line 195 has already
  merged `data`. So when the required-field check after the merge raises
  (`FailedUpdateCheckKeepsMerge`), or the update write fails (`FailedUpdateWriteKeepsMerge`),
  `data` stays merged and `old_data` is the data held before the call.
- **After a successful update, `old_data` is the merged data that was sent**
  (hdx/data/hdxobject.py:254). It is not the data the object held before the call
  (`WritesRotate`).
- **Create sends the whole current dictionary** (hdx/data/hdxobject.py:251, 285), whatever
  fields it holds (`CreateOtherwiseCreates`).

## Model

| member | source | states |
|---|---|---|
| `HdxObject.HDXObject.constructor` | hdx/data/hdxobject.py:48-53 | a new object holds the initial dictionary and no previous one |
| `HdxObject.HDXObject.UpdateFromStatic` | hdx/data/hdxobject.py:63-83 | the static mapping is merged into `data`; `old_data` is untouched |
| `HdxObject.HDXObject.ReadFromHdx` | hdx/data/hdxobject.py:85-107 | an empty (falsy) identifier raises before any remote call; otherwise one show call is made (or the replacement action); found gives the record, not found is an ordinary absent answer, any other failure raises |
| `Lifecycle.Read` | hdx/data/hdxobject.py:85-107 | the read as a function of the id and the site: an empty id raises with no call; otherwise one show call (or the replacement action), whose answer is the record, "absent", or a raise |
| `Lifecycle.ReadOutcomes` | hdx/data/hdxobject.py:96-107 | the same classification of a read, stated of the pure `Read`: empty id raises with no call, not found is absent and not an error, failure raises exactly when the site fails |
| `HdxObject.HDXObject.LoadFromHdx` | hdx/data/hdxobject.py:109-124 | returns true exactly when the read found the object, and the new snapshots are those of `Load` |
| `Lifecycle.Load` | hdx/data/hdxobject.py:109-124 | the load: a found record rotates the snapshots (`old_data` the pre-call `data`, `data` the record); otherwise the snapshots stay and the read's status is passed on |
| `Lifecycle.LoadRotation` | hdx/data/hdxobject.py:119-124 | a successful load sets `old_data` to the pre-call `data` and `data` to the loaded record; a not-found or failed load leaves both snapshots unchanged |
| `HdxObject.HDXObject.CheckExistingObject` | hdx/data/hdxobject.py:140-144 | raises "no data" on an empty dictionary, "missing id field" when the id field is absent, and returns otherwise |
| `Lifecycle.CheckExisting` | hdx/data/hdxobject.py:140-144 | the existence check as a function of `data`: no data, then a missing id field, raise in that order |
| `Lifecycle.CheckLoadExisting` | hdx/data/hdxobject.py:146-158 | when the existence check and load succeed, `old_data` is the pre-call `data` |
| `HdxObject.HDXObject.CheckLoadExistingObject` | hdx/data/hdxobject.py:146-158 | the existence check, then a load of the id held in `data`; a not-found load raises "no existing object" |
| `HdxObject.HDXObject.CheckRequiredFields` | hdx/data/hdxobject.py:172-183 | returns exactly when every configured required field is in `data` or ignored; otherwise raises naming a required field that is neither, and changes nothing |
| `Lifecycle.FirstMissing` | hdx/data/hdxobject.py:181-183 | the first configured required field, in configuration order, that is neither in `data` nor ignored |
| `Lifecycle.CheckRequired` | hdx/data/hdxobject.py:172-183 | the required-field check raises naming the first missing field, and returns when there is none |
| `Lifecycle.FirstMissingIff` | hdx/data/hdxobject.py:181-183 | the first missing field is absent exactly when all required fields are present or ignored, and when present it is required, absent and not ignored |
| `HdxObject.HDXObject.MergeHdxUpdate` | hdx/data/hdxobject.py:185-197 | `data` becomes `merge(data, old_data)`, the required fields are checked with `ignore_on_update`, and the result is written with the update action |
| `Lifecycle.MergeUpdate` | hdx/data/hdxobject.py:185-197 | merge-and-update from given snapshots: `data` merged with `old_data`, checked with `ignore_on_update` (a raise keeps the merged data), then saved with the update action |
| `Lifecycle.UpdateSendsMergedData` | hdx/data/hdxobject.py:185-197 | when the object is on the site, update makes exactly two calls: the show call and an update call whose payload is the loaded record merged with the local data |
| `Lifecycle.LocalScalarsReachSite` | hdx/data/hdxobject.py:195-197 | if merge lets the second argument's scalars win, every scalar field set locally reaches the site unchanged in the update payload |
| `HdxObject.HDXObject.UpdateInHdx` | hdx/data/hdxobject.py:208-220 | check-and-load, then merge-and-update, with the snapshots and calls of `Update` |
| `Lifecycle.Update` | hdx/data/hdxobject.py:146-197 | the update: check-and-load, stopping at its raise, then merge-and-update from the snapshots the load left, with the calls of both in order |
| `Lifecycle.UpdateRefusals` | hdx/data/hdxobject.py:96-158 | update raises with no remote call and unchanged snapshots on empty data, a missing id field or an empty id; a failed show call raises "read failed", and an id the site does not know raises "no existing object", each after that one show call and with unchanged snapshots |
| `Lifecycle.FailedUpdateCheckKeepsMerge` | hdx/data/hdxobject.py:185-197 | when the merged data lacks a required field not excused by `ignore_on_update`, update raises after the show call with no write, leaving `data` merged and `old_data` as the pre-call data |
| `Lifecycle.FailedUpdateWriteKeepsMerge` | hdx/data/hdxobject.py:185-257 | when the update write fails, update raises but leaves `old_data` as the pre-call data and `data` as the merged data: the pre-call state is not restored |
| `HdxObject.HDXObject.WriteToHdx` | hdx/data/hdxobject.py:222-238 | one call of the action with the given payload; the site's result on success, and any exception becomes "write failed" |
| `HdxObject.HDXObject.SaveToHdx` | hdx/data/hdxobject.py:240-257 | the snapshots after a write are those of `Save` |
| `Lifecycle.Save` | hdx/data/hdxobject.py:222-257 | the save: one write of the current data; the site's answer rotates the snapshots, any failure raises "write failed" with the snapshots as they were |
| `Lifecycle.SaveRotation` | hdx/data/hdxobject.py:251-257 | a successful write sets `old_data` to the data sent and `data` to the site's answer; a failed write raises with both snapshots as they were |
| `Lifecycle.WritesRotate` | hdx/data/hdxobject.py:251-255 | after any successful create, update or delete, the last remote call succeeded, `old_data` is its payload and `data` is its result |
| `HdxObject.HDXObject.CreateInHdx` | hdx/data/hdxobject.py:268-285 | required fields first, then the merge-and-update path if the id is on the site (a KeyError when the site's record lacks the id field), else the create action; the snapshots and calls of `Create` |
| `Lifecycle.Create` | hdx/data/hdxobject.py:268-285 | the create: required fields first; with an id, a load, whose raise stops it; a loaded id raises KeyError when the loaded record lacks the id field (the warning at line 282 reads it) and otherwise goes to merge-and-update; an unknown id (or no id) the current data is written with the create action |
| `Lifecycle.CreateChecksFirst` | hdx/data/hdxobject.py:280 | a create with a missing required field raises before any remote call, with the snapshots unchanged |
| `Lifecycle.CreateOnExistingIsUpdate` | hdx/data/hdxobject.py:280-283 | with complete required fields, creating an object whose id the site knows, and whose record on the site carries the id field, is the same operation as updating it: same snapshots, calls and status |
| `Lifecycle.CreateLoadedWithoutIdRaises` | hdx/data/hdxobject.py:280-282 | when the site's record for a known id lacks the id field, create raises KeyError after the load has rotated the snapshots, with no write |
| `Lifecycle.CreateOtherwiseCreates` | hdx/data/hdxobject.py:281-285 | with complete required fields and no id, or an id the site does not know, create sends the current data to the create action (after the show call when an id is present) |
| `Lifecycle.CreateReadFailureRaises` | hdx/data/hdxobject.py:281 | a create whose id is present and non-empty but whose show call fails raises "read failed" from the load after that one call, with no write and the snapshots unchanged |
| `Lifecycle.CreateWithEmptyIdRaises` | hdx/data/hdxobject.py:281 | a create whose id field holds an empty value raises "empty identifier" from the read, with no remote call and no write |
| `HdxObject.HDXObject.DeleteFromHdx` | hdx/data/hdxobject.py:296-308 | the snapshots and calls of `Delete` |
| `Lifecycle.Delete` | hdx/data/hdxobject.py:296-308 | the delete: a missing id field raises with no call; otherwise the current data is written with the delete action |
| `Lifecycle.DeleteNeedsId` | hdx/data/hdxobject.py:306-308 | delete raises with no remote call when the id field is missing, and otherwise sends the current data to the delete action without loading first |
| `HdxObject.HDXObject.AddUpdateHdxObject` | hdx/data/hdxobject.py:323-344 | the list after the loop with the found flag is the one `AddUpdate` gives, and so is the KeyError on a missing id |
| `Reconcile.AddUpdateFrom` | hdx/data/hdxobject.py:337-344 | the loop of add-or-update from one position on: a missing id raises KeyError, the first equal id is merged in place, and reaching the end appends the record |
| `Reconcile.AddUpdate` | hdx/data/hdxobject.py:323-344 | add-or-update as a function of the list: the loop from the first element |
| `Reconcile.AddUpdateMergesFirstMatch` | hdx/data/hdxobject.py:337-342 | when element k is the first whose id matches, only element k is merged and the length is unchanged |
| `Reconcile.AddUpdateAppendsUnmatched` | hdx/data/hdxobject.py:343-344 | when no element's id matches, the record is appended at the end and the other elements are unchanged |
| `Reconcile.AddUpdateShape` | hdx/data/hdxobject.py:337-344 | in every case either nothing changes (KeyError), exactly one record is appended, or exactly one element is merged in place; no element is removed |
| `HdxObject.HDXObject.ConvertHdxObjects` | hdx/data/hdxobject.py:346-358 | a new list of the same length whose element i is element i's dictionary; the input list is not modified |
| `HdxObject.HDXObject.CopyHdxObjects` | hdx/data/hdxobject.py:360-375 | a fresh list of the same length whose element i equals element i's dictionary; the input list is not modified |
| `HdxObject.HDXObject.FindIncoming` | hdx/data/hdxobject.py:398-401 | the inner loop over the incoming records returns the answer of `ProbeFrom` from the first record on |
| `Reconcile.ProbeFrom` | hdx/data/hdxobject.py:398-401 | the inner loop finds the first incoming record with the given id, and every record before it has a different id; no match means none has it; a KeyError means some record lacks the id |
| `HdxObject.HDXObject.SeparateHdxObjects` | hdx/data/hdxobject.py:377-405 | the data, list and status after the two loops and the deletion are those of `Separate`; `old_data` is untouched |
| `Reconcile.AbsorbFrom` | hdx/data/hdxobject.py:394-401 | the first loop from one position on: each element's id is read (KeyError) and hashed (TypeError), and the element is merged with the first incoming record with that id |
| `Reconcile.AppendFrom` | hdx/data/hdxobject.py:402-404 | the second loop from one position on: each incoming id is read and hashed, and a record whose id is not among the existing ids is appended |
| `Reconcile.Separate` | hdx/data/hdxobject.py:377-405 | separate as a function of the data and the list: nothing to do for an absent or empty key, a TypeError or KeyError for a value that is not a list of records, the two loops, then the key removed |
| `Reconcile.SeparateNoop` | hdx/data/hdxobject.py:392-393 | an absent key, or a key with an empty value, changes neither the data (the key stays) nor the list |
| `Reconcile.SeparateReconciles` | hdx/data/hdxobject.py:392-405 | with a non-empty list under the key: existing elements keep their positions and count and each absorbs the first incoming record with its id; the incoming records whose ids are not among the existing ids follow, in incoming order; the key is removed; it succeeds whenever all ids are present and hashable; on a raise the key stays |
| `Reconcile.AbsorbFromSpec` | hdx/data/hdxobject.py:395-401 | the first loop keeps the list's length and merges each element with its first matching incoming record |
| `Reconcile.AppendFromSpec` | hdx/data/hdxobject.py:402-404 | the second loop keeps the existing prefix and appends exactly the unmatched records, in order |
| `Reconcile.IdSetMembers` | hdx/data/hdxobject.py:394-397 | the set built in the first loop holds exactly the ids of the pre-existing elements |
| `Reconcile.UnmatchedMembers` | hdx/data/hdxobject.py:402-404 | the appended records are exactly the incoming ones whose id is not among the existing ids, each as many times as it occurs among the incoming records; the others do not occur at all |
| `Reconcile.SecondMatchIgnored` | hdx/data/hdxobject.py:398-404 | a second incoming record with an existing element's id is neither merged (only the first is) nor appended |

## Left out

- Building `ckanapi.RemoteCKAN`, `call_action` and the fixed `requests_kwargs` credentials
  are left out. The site is the `remote` parameter, a deterministic function of the request:
  the site's own state changing between calls is not modelled.
- A site answer that is not a dictionary (for example a null result) is not represented;
  `Found` carries a dictionary.
- `update_yaml` / `update_json` read a file through loaders that are not part of this model.
  `UpdateFromStatic` takes the mapping read as an argument and merges it in.
- `merge_two_dictionaries` and `hdx/utilities/*` are not part of this model. Merge is an
  opaque parameter, so no property here depends on how it combines nested lists.
- Log output (`logger.warning`) and the text of the error messages are left out; errors are
  the constructors of `Error`.
- In `_write_to_hdx`, the message formats `self.data[id_field_name]`. When that field is
  absent, Python raises KeyError instead of HDXError. The model reports `WriteFailed` in
  every case.
- The `else` branch of `_save_to_hdx` is not modelled, because `_write_to_hdx` never
  returns False.
- The abstract methods, `UserDict` plumbing, `get_old_data_dict` (a plain accessor of
  `oldData`) and `_underlying_object` are left out.
- `check_required_fields` is taken to delegate to `_check_required_fields` with the object's
  own configuration. The extra checks a dataset makes on its resources (in `dataset.py`) are
  not part of this model. The same goes for the Dataset, Resource and GalleryItem classes.
- Element objects are held as their dictionaries (value semantics). Sharing one element object
  between two lists is not modelled. Neither is the difference between `_convert_hdxobjects`
  (returns the elements' own dictionaries) and `_copy_hdxobjects` (deep copies).
- `Value` has no floating-point numbers and no lists of non-dictionaries. Ids are compared
  structurally, so Python's cross-type equalities such as `1 == True` are not modelled.
