/** The read/create/update/delete lifecycle of an HDX object, as pure functions of its two
    snapshots (`data` and `old_data`) and of the answers the remote CKAN site gives. */
module Lifecycle {
  import opened Values

  /** What `call_action` does with one request: returns a result, raises NotFound, or
      raises any other exception. */
  datatype Outcome = Found(result: Data) | NotFound | Failed

  /** One remote call: the CKAN action name and the payload sent with it. */
  datatype Request = Request(action: string, payload: Data)

  /** The table `actions()` of an object type. */
  datatype ActionNames = ActionNames(show: string, create: string, update: string, delete: string)
  {
    function Of(w: Write): string
    {
      match w
      case CreateWrite => create
      case UpdateWrite => update
      case DeleteWrite => delete
    }
  }

  /** The per-type configuration: actions, `required_fields` and `ignore_on_update`. */
  datatype Config = Config(actions: ActionNames, requiredFields: seq<string>, ignoreOnUpdate: seq<string>)

  /** The current `data` and the previous `old_data` (None until the first rotation). */
  datatype Snapshots = Snapshots(data: Data, oldData: Option<Data>)

  /** The value of a read that did not raise: the object, or "not found". */
  datatype Lookup = Loaded(record: Data) | Absent

  datatype Reply = Reply(lookup: Lookup, calls: seq<Request>, status: Status)

  /** What an operation leaves behind: the snapshots, the remote calls it made in order,
      and whether it returned or raised. */
  datatype Effect = Effect(after: Snapshots, calls: seq<Request>, status: Status)

  /** `first` followed by `second`, where `second` starts from `first.after`. */
  function Then(first: Effect, second: Effect): Effect
  {
    Effect(second.after, first.calls + second.calls, second.status)
  }

  function ShowRequest(cfg: Config, id: Value, action: Option<string>): Request
  {
    Request(match action case Some(a) => a case None => cfg.actions.show, map["id" := id])
  }

  /** `_read_from_hdx`. */
  function Read(cfg: Config, remote: Request -> Outcome, id: Value, action: Option<string>): Reply
  {
    if Falsy(id) then Reply(Absent, [], Raised(EmptyIdentifier))
    else
      var req := ShowRequest(cfg, id, action);
      match remote(req)
      case Found(d) => Reply(Loaded(d), [req], Done)
      case NotFound => Reply(Absent, [req], Done)
      case Failed => Reply(Absent, [req], Raised(ReadFailed))
  }

  /** The boolean `_load_from_hdx` returns. */
  predicate Loads(cfg: Config, remote: Request -> Outcome, id: Value)
  {
    Read(cfg, remote, id, None).lookup.Loaded?
  }

  /** `_load_from_hdx`. */
  function Load(cfg: Config, remote: Request -> Outcome, s: Snapshots, id: Value): Effect
  {
    var rep := Read(cfg, remote, id, None);
    match rep.lookup
    case Loaded(d) => Effect(Snapshots(d, Some(s.data)), rep.calls, rep.status)
    case Absent => Effect(s, rep.calls, rep.status)
  }

  /** `_check_existing_object`. */
  function CheckExisting(data: Data, idFieldName: string): Status
  {
    if |data| == 0 then Raised(NoData)
    else if idFieldName !in data then Raised(MissingIdField(idFieldName))
    else Done
  }

  /** The first configured required field that is neither in `data` nor ignored. */
  function FirstMissing(required: seq<string>, data: Data, ignore: seq<string>): Option<string>
  {
    if required == [] then None
    else if required[0] !in data && required[0] !in ignore then Some(required[0])
    else FirstMissing(required[1..], data, ignore)
  }

  /** `_check_required_fields`. */
  function CheckRequired(data: Data, required: seq<string>, ignore: seq<string>): Status
  {
    match FirstMissing(required, data, ignore)
    case None => Done
    case Some(f) => Raised(MissingRequiredField(f))
  }

  /** `_check_load_existing_object`. */
  function CheckLoadExisting(cfg: Config, remote: Request -> Outcome, s: Snapshots, idFieldName: string): (r: Effect)
    ensures r.status.Done? ==> r.after.oldData == Some(s.data)
  {
    var chk := CheckExisting(s.data, idFieldName);
    if chk.Raised? then Effect(s, [], chk)
    else
      var l := Load(cfg, remote, s, s.data[idFieldName]);
      if l.status.Done? && !Loads(cfg, remote, s.data[idFieldName]) then Effect(l.after, l.calls, Raised(NoExistingObject))
      else l
  }

  /** `_save_to_hdx` (with `_write_to_hdx`): any exception from the write becomes WriteFailed. */
  function Save(cfg: Config, remote: Request -> Outcome, s: Snapshots, w: Write): Effect
  {
    var req := Request(cfg.actions.Of(w), s.data);
    match remote(req)
    case Found(d) => Effect(Snapshots(d, Some(s.data)), [req], Done)
    case _ => Effect(s, [req], Raised(WriteFailed(w)))
  }

  /** `_merge_hdx_update`: merge `old_data` into `data`, check with `ignore_on_update`, write. */
  function MergeUpdate(cfg: Config, remote: Request -> Outcome, merge: (Data, Data) -> Data, s: Snapshots): Effect
    requires s.oldData.Some?
  {
    var merged := Snapshots(merge(s.data, s.oldData.value), s.oldData);
    var chk := CheckRequired(merged.data, cfg.requiredFields, cfg.ignoreOnUpdate);
    if chk.Raised? then Effect(merged, [], chk)
    else Save(cfg, remote, merged, UpdateWrite)
  }

  /** `_update_in_hdx`. */
  function Update(cfg: Config, remote: Request -> Outcome, merge: (Data, Data) -> Data, s: Snapshots, idFieldName: string): Effect
  {
    var l := CheckLoadExisting(cfg, remote, s, idFieldName);
    if l.status.Raised? then l
    else Then(l, MergeUpdate(cfg, remote, merge, l.after))
  }

  /** `_create_in_hdx`: check required fields; update if the id is already on the site,
      create otherwise. The warning logged before the update reads the id from the loaded
      record, which raises KeyError when the site's record lacks it. */
  function Create(cfg: Config, remote: Request -> Outcome, merge: (Data, Data) -> Data, s: Snapshots, idFieldName: string): Effect
  {
    var chk := CheckRequired(s.data, cfg.requiredFields, []);
    if chk.Raised? then Effect(s, [], chk)
    else if idFieldName in s.data then
      var l := Load(cfg, remote, s, s.data[idFieldName]);
      if l.status.Raised? then l
      else if Loads(cfg, remote, s.data[idFieldName]) then
        if idFieldName !in l.after.data then Effect(l.after, l.calls, Raised(KeyMissing(idFieldName)))
        else Then(l, MergeUpdate(cfg, remote, merge, l.after))
      else Then(l, Save(cfg, remote, s, CreateWrite))
    else Save(cfg, remote, s, CreateWrite)
  }

  /** `_delete_from_hdx`. */
  function Delete(cfg: Config, remote: Request -> Outcome, s: Snapshots, idFieldName: string): Effect
  {
    if idFieldName !in s.data then Effect(s, [], Raised(MissingIdField(idFieldName)))
    else Save(cfg, remote, s, DeleteWrite)
  }

  // ---------------------------------------------------------------------------------------
  // Properties of the lifecycle

  /** A read with an empty identifier raises without calling the site; otherwise exactly one
      show call is made, a not-found answer is an ordinary "absent" result, and any other
      failure raises. */
  lemma ReadOutcomes(cfg: Config, remote: Request -> Outcome, id: Value, action: Option<string>)
    ensures Falsy(id) ==> Read(cfg, remote, id, action) == Reply(Absent, [], Raised(EmptyIdentifier))
    ensures !Falsy(id) ==> Read(cfg, remote, id, action).calls == [ShowRequest(cfg, id, action)]
    ensures !Falsy(id) ==>
      (Read(cfg, remote, id, action).status == Raised(ReadFailed) <==> remote(ShowRequest(cfg, id, action)).Failed?)
    ensures !Falsy(id) ==>
      ((Read(cfg, remote, id, action).status.Done? && Read(cfg, remote, id, action).lookup == Absent)
         <==> remote(ShowRequest(cfg, id, action)).NotFound?)
    ensures !Falsy(id) && remote(ShowRequest(cfg, id, action)).Found? ==>
      Read(cfg, remote, id, action) == Reply(Loaded(remote(ShowRequest(cfg, id, action)).result), [ShowRequest(cfg, id, action)], Done)
  {
  }

  /** A successful load rotates the snapshots; a not-found or failed load leaves both alone. */
  lemma LoadRotation(cfg: Config, remote: Request -> Outcome, s: Snapshots, id: Value)
    ensures Loads(cfg, remote, id) ==>
      Load(cfg, remote, s, id).status.Done? &&
      Load(cfg, remote, s, id).after == Snapshots(remote(ShowRequest(cfg, id, None)).result, Some(s.data))
    ensures !Loads(cfg, remote, id) ==> Load(cfg, remote, s, id).after == s
  {
  }

  /** A write that succeeds stores the sent payload as `old_data` and the site's answer as
      `data`; a write that fails raises with both snapshots as they were. */
  lemma SaveRotation(cfg: Config, remote: Request -> Outcome, s: Snapshots, w: Write)
    ensures Save(cfg, remote, s, w).calls == [Request(cfg.actions.Of(w), s.data)]
    ensures remote(Request(cfg.actions.Of(w), s.data)).Found? ==>
      Save(cfg, remote, s, w) == Effect(Snapshots(remote(Request(cfg.actions.Of(w), s.data)).result, Some(s.data)), [Request(cfg.actions.Of(w), s.data)], Done)
    ensures !remote(Request(cfg.actions.Of(w), s.data)).Found? ==>
      Save(cfg, remote, s, w).status == Raised(WriteFailed(w)) && Save(cfg, remote, s, w).after == s
  {
  }

  /** `_check_required_fields` raises exactly when some required field is neither present
      nor ignored, and it names such a field. */
  lemma {:induction false} FirstMissingIff(required: seq<string>, data: Data, ignore: seq<string>)
    ensures FirstMissing(required, data, ignore).None? <==> forall f :: f in required ==> f in data || f in ignore
    ensures FirstMissing(required, data, ignore).Some? ==>
      var f := FirstMissing(required, data, ignore).value; f in required && f !in data && f !in ignore
  {
    if required != [] {
      FirstMissingIff(required[1..], data, ignore);
      assert required == [required[0]] + required[1..];
    }
  }

  /** Update refuses, before any remote call and without touching the snapshots, when there
      is no data, no id field or an empty id; a failed show call, or an id the site does not
      know, raises after that one call, again with both snapshots as they were. */
  lemma UpdateRefusals(cfg: Config, remote: Request -> Outcome, merge: (Data, Data) -> Data, s: Snapshots, idFieldName: string)
    ensures |s.data| == 0 ==> Update(cfg, remote, merge, s, idFieldName) == Effect(s, [], Raised(NoData))
    ensures |s.data| > 0 && idFieldName !in s.data ==>
      Update(cfg, remote, merge, s, idFieldName) == Effect(s, [], Raised(MissingIdField(idFieldName)))
    ensures idFieldName in s.data && Falsy(s.data[idFieldName]) ==>
      Update(cfg, remote, merge, s, idFieldName) == Effect(s, [], Raised(EmptyIdentifier))
    ensures idFieldName in s.data && !Falsy(s.data[idFieldName]) && remote(ShowRequest(cfg, s.data[idFieldName], None)).Failed? ==>
      Update(cfg, remote, merge, s, idFieldName) == Effect(s, [ShowRequest(cfg, s.data[idFieldName], None)], Raised(ReadFailed))
    ensures idFieldName in s.data && !Falsy(s.data[idFieldName]) && remote(ShowRequest(cfg, s.data[idFieldName], None)).NotFound? ==>
      Update(cfg, remote, merge, s, idFieldName) == Effect(s, [ShowRequest(cfg, s.data[idFieldName], None)], Raised(NoExistingObject))
  {
  }

  /** The update path when the object is on the site: local data is merged into what was
      loaded (local edits go in as the merge's second argument), checked, and sent. */
  lemma UpdateSendsMergedData(cfg: Config, remote: Request -> Outcome, merge: (Data, Data) -> Data, s: Snapshots, idFieldName: string)
    requires idFieldName in s.data && Loads(cfg, remote, s.data[idFieldName])
    ensures var loaded := remote(ShowRequest(cfg, s.data[idFieldName], None)).result;
      var merged := merge(loaded, s.data);
      CheckRequired(merged, cfg.requiredFields, cfg.ignoreOnUpdate).Done? ==>
        Update(cfg, remote, merge, s, idFieldName).calls ==
          [ShowRequest(cfg, s.data[idFieldName], None), Request(cfg.actions.update, merged)]
  {
  }

  /** The source does not restore the pre-call state when the update write fails: the
      snapshots have already been rotated by the load and `data` already merged. */
  lemma FailedUpdateWriteKeepsMerge(cfg: Config, remote: Request -> Outcome, merge: (Data, Data) -> Data, s: Snapshots, idFieldName: string)
    requires idFieldName in s.data && Loads(cfg, remote, s.data[idFieldName])
    requires var merged := merge(remote(ShowRequest(cfg, s.data[idFieldName], None)).result, s.data);
      CheckRequired(merged, cfg.requiredFields, cfg.ignoreOnUpdate).Done? &&
      !remote(Request(cfg.actions.update, merged)).Found?
    ensures var merged := merge(remote(ShowRequest(cfg, s.data[idFieldName], None)).result, s.data);
      Update(cfg, remote, merge, s, idFieldName).status == Raised(WriteFailed(UpdateWrite)) &&
      Update(cfg, remote, merge, s, idFieldName).after == Snapshots(merged, Some(s.data))
  {
  }

  /** When the merged data lacks a required field that `ignore_on_update` does not excuse,
      update raises with no write: `data` stays merged and `old_data` is the pre-call data. */
  lemma FailedUpdateCheckKeepsMerge(cfg: Config, remote: Request -> Outcome, merge: (Data, Data) -> Data, s: Snapshots, idFieldName: string)
    requires idFieldName in s.data && Loads(cfg, remote, s.data[idFieldName])
    ensures var merged := merge(remote(ShowRequest(cfg, s.data[idFieldName], None)).result, s.data);
      CheckRequired(merged, cfg.requiredFields, cfg.ignoreOnUpdate).Raised? ==>
        Update(cfg, remote, merge, s, idFieldName) ==
          Effect(Snapshots(merged, Some(s.data)), [ShowRequest(cfg, s.data[idFieldName], None)],
                 CheckRequired(merged, cfg.requiredFields, cfg.ignoreOnUpdate))
  {
  }

  /** Delete raises before any remote call when the id field is missing, and otherwise sends
      the whole current data to the delete action. */
  lemma DeleteNeedsId(cfg: Config, remote: Request -> Outcome, s: Snapshots, idFieldName: string)
    ensures idFieldName !in s.data ==>
      Delete(cfg, remote, s, idFieldName) == Effect(s, [], Raised(MissingIdField(idFieldName)))
    ensures idFieldName in s.data ==>
      Delete(cfg, remote, s, idFieldName).calls == [Request(cfg.actions.delete, s.data)]
  {
  }

  /** Create checks the required fields before any remote call. */
  lemma CreateChecksFirst(cfg: Config, remote: Request -> Outcome, merge: (Data, Data) -> Data, s: Snapshots, idFieldName: string)
    requires FirstMissing(cfg.requiredFields, s.data, []).Some?
    ensures Create(cfg, remote, merge, s, idFieldName) ==
      Effect(s, [], Raised(MissingRequiredField(FirstMissing(cfg.requiredFields, s.data, []).value)))
  {
  }

  /** Creating an object whose id the site already knows is the same operation as updating it. */
  lemma CreateOnExistingIsUpdate(cfg: Config, remote: Request -> Outcome, merge: (Data, Data) -> Data, s: Snapshots, idFieldName: string)
    requires CheckRequired(s.data, cfg.requiredFields, []).Done?
    requires idFieldName in s.data && Loads(cfg, remote, s.data[idFieldName])
    requires idFieldName in remote(ShowRequest(cfg, s.data[idFieldName], None)).result
    ensures Create(cfg, remote, merge, s, idFieldName) == Update(cfg, remote, merge, s, idFieldName)
  {
  }

  /** When the site's record for a known id lacks the id field, create raises KeyError after
      the load has rotated the snapshots, and writes nothing. */
  lemma CreateLoadedWithoutIdRaises(cfg: Config, remote: Request -> Outcome, merge: (Data, Data) -> Data, s: Snapshots, idFieldName: string)
    requires CheckRequired(s.data, cfg.requiredFields, []).Done?
    requires idFieldName in s.data && Loads(cfg, remote, s.data[idFieldName])
    requires idFieldName !in remote(ShowRequest(cfg, s.data[idFieldName], None)).result
    ensures Create(cfg, remote, merge, s, idFieldName) ==
      Effect(Snapshots(remote(ShowRequest(cfg, s.data[idFieldName], None)).result, Some(s.data)),
             [ShowRequest(cfg, s.data[idFieldName], None)], Raised(KeyMissing(idFieldName)))
  {
  }

  /** Otherwise create issues the create action with the current data, after a show call
      only when an id is present. */
  lemma CreateOtherwiseCreates(cfg: Config, remote: Request -> Outcome, merge: (Data, Data) -> Data, s: Snapshots, idFieldName: string)
    requires CheckRequired(s.data, cfg.requiredFields, []).Done?
    requires idFieldName !in s.data ||
      (!Falsy(s.data[idFieldName]) && remote(ShowRequest(cfg, s.data[idFieldName], None)).NotFound?)
    ensures Create(cfg, remote, merge, s, idFieldName) ==
      Then(Effect(s, if idFieldName in s.data then [ShowRequest(cfg, s.data[idFieldName], None)] else [], Done),
           Save(cfg, remote, s, CreateWrite))
  {
  }

  /** A create whose id field holds an empty value raises without writing anything. */
  lemma CreateWithEmptyIdRaises(cfg: Config, remote: Request -> Outcome, merge: (Data, Data) -> Data, s: Snapshots, idFieldName: string)
    requires CheckRequired(s.data, cfg.requiredFields, []).Done?
    requires idFieldName in s.data && Falsy(s.data[idFieldName])
    ensures Create(cfg, remote, merge, s, idFieldName) == Effect(s, [], Raised(EmptyIdentifier))
  {
  }

  /** A create whose show call fails raises from the load after that one call, without
      writing anything and with the snapshots as they were. */
  lemma CreateReadFailureRaises(cfg: Config, remote: Request -> Outcome, merge: (Data, Data) -> Data, s: Snapshots, idFieldName: string)
    requires CheckRequired(s.data, cfg.requiredFields, []).Done?
    requires idFieldName in s.data && !Falsy(s.data[idFieldName])
    requires remote(ShowRequest(cfg, s.data[idFieldName], None)).Failed?
    ensures Create(cfg, remote, merge, s, idFieldName) ==
      Effect(s, [ShowRequest(cfg, s.data[idFieldName], None)], Raised(ReadFailed))
  {
  }

  /** Scalar fields that the merge's second argument sets win; the only behaviour of
      `merge_two_dictionaries` the model relies on, and only where a lemma says so. */
  ghost predicate LocalScalarsWin(merge: (Data, Data) -> Data)
  {
    forall base: Data, local: Data, k: string {:trigger merge(base, local), local[k]} ::
      k in local && !local[k].Dict? && !local[k].Records? ==> k in merge(base, local) && merge(base, local)[k] == local[k]
  }

  /** When merge lets local scalars win, every scalar field set locally before an update
      reaches the site unchanged in the update payload. */
  lemma LocalScalarsReachSite(cfg: Config, remote: Request -> Outcome, merge: (Data, Data) -> Data, s: Snapshots, idFieldName: string, k: string)
    requires LocalScalarsWin(merge)
    requires idFieldName in s.data && Loads(cfg, remote, s.data[idFieldName])
    requires CheckRequired(merge(remote(ShowRequest(cfg, s.data[idFieldName], None)).result, s.data), cfg.requiredFields, cfg.ignoreOnUpdate).Done?
    requires k in s.data && !s.data[k].Dict? && !s.data[k].Records?
    ensures |Update(cfg, remote, merge, s, idFieldName).calls| == 2
    ensures var payload := Update(cfg, remote, merge, s, idFieldName).calls[1].payload;
      k in payload && payload[k] == s.data[k]
  {
    UpdateSendsMergedData(cfg, remote, merge, s, idFieldName);
    var loaded := remote(ShowRequest(cfg, s.data[idFieldName], None)).result;
    assert k in merge(loaded, s.data) && merge(loaded, s.data)[k] == s.data[k];
  }

  /** Every successful write (create, update or delete) leaves `old_data` equal to the data
      it sent and `data` equal to the site's answer to that request. */
  lemma WritesRotate(cfg: Config, remote: Request -> Outcome, merge: (Data, Data) -> Data, s: Snapshots, idFieldName: string, e: Effect)
    requires e == Create(cfg, remote, merge, s, idFieldName) || e == Update(cfg, remote, merge, s, idFieldName) || e == Delete(cfg, remote, s, idFieldName)
    requires e.status.Done?
    ensures |e.calls| > 0
    ensures var last := e.calls[|e.calls| - 1];
      remote(last).Found? && e.after == Snapshots(remote(last).result, Some(last.payload))
  {
  }
}
