/** The HDXObject base class: an object's current and previous metadata dictionaries, the
    helpers that read, create, update and delete it on the remote site, and the helpers that
    reconcile the lists of HDX objects a dataset owns. */
module HdxObject {
  import opened Values
  import opened Lifecycle
  import opened Reconcile

  /** A Python list of HDX objects that the helpers change in place; each element is held as
      its dictionary. */
  class EntityList {
    var items: seq<Data>

    constructor (items: seq<Data>)
      ensures this.items == items
    {
      this.items := items;
    }
  }

  class HDXObject {
    var data: Data
    var oldData: Option<Data>
    const config: Config

    ghost function State(): Snapshots
      reads this
    {
      Snapshots(data, oldData)
    }

    /** `__init__`: the initial dictionary, and no previous one yet. */
    constructor (config: Config, initialData: Data)
      ensures this.config == config
      ensures data == initialData && oldData == None
    {
      this.config := config;
      data := initialData;
      oldData := None;
    }

    /** `update_yaml` / `update_json`: merge the mapping read from the file into `data`. */
    method UpdateFromStatic(merge: (Data, Data) -> Data, given: Data)
      modifies this
      ensures data == merge(old(data), given) && oldData == old(oldData)
    {
      data := merge(data, given);
    }

    /** `_read_from_hdx`: an empty identifier raises before the site is asked; not found is an
        ordinary answer; any other failure raises. */
    method ReadFromHdx(remote: Request -> Outcome, id: Value, action: Option<string>)
      returns (lookup: Lookup, status: Status, ghost calls: seq<Request>)
      ensures Falsy(id) ==> status == Raised(EmptyIdentifier) && calls == []
      ensures !Falsy(id) ==> calls == [ShowRequest(config, id, action)]
      ensures !Falsy(id) ==> match remote(ShowRequest(config, id, action))
        case Found(d) => lookup == Loaded(d) && status == Done
        case NotFound => lookup == Absent && status == Done
        case Failed => status == Raised(ReadFailed)
      ensures Reply(lookup, calls, status) == Read(config, remote, id, action)
    {
      if Falsy(id) {
        return Absent, Raised(EmptyIdentifier), [];
      }
      var req := ShowRequest(config, id, action);
      calls := [req];
      match remote(req)
      case Found(d) => lookup, status := Loaded(d), Done;
      case NotFound => lookup, status := Absent, Done;
      case Failed => lookup, status := Absent, Raised(ReadFailed);
    }

    /** `_load_from_hdx`: on success `old_data` takes the current data and `data` the loaded
        record; otherwise nothing changes. */
    method LoadFromHdx(remote: Request -> Outcome, id: Value) returns (loaded: bool, status: Status, ghost calls: seq<Request>)
      modifies this
      ensures loaded == Loads(config, remote, id)
      ensures Effect(State(), calls, status) == Load(config, remote, old(State()), id)
    {
      var lookup;
      lookup, status, calls := ReadFromHdx(remote, id, None);
      loaded := lookup.Loaded?;
      if loaded {
        oldData := Some(data);
        data := lookup.record;
      }
    }

    /** `_check_existing_object`. */
    method CheckExistingObject(idFieldName: string) returns (status: Status)
      ensures |data| == 0 ==> status == Raised(NoData)
      ensures |data| > 0 && idFieldName !in data ==> status == Raised(MissingIdField(idFieldName))
      ensures |data| > 0 && idFieldName in data ==> status == Done
      ensures status == CheckExisting(data, idFieldName)
    {
      if |data| == 0 {
        return Raised(NoData);
      }
      if idFieldName !in data {
        return Raised(MissingIdField(idFieldName));
      }
      return Done;
    }

    /** `_check_load_existing_object`. */
    method CheckLoadExistingObject(remote: Request -> Outcome, idFieldName: string) returns (status: Status, ghost calls: seq<Request>)
      modifies this
      ensures Effect(State(), calls, status) == CheckLoadExisting(config, remote, old(State()), idFieldName)
    {
      status := CheckExistingObject(idFieldName);
      if status.Raised? {
        calls := [];
        return;
      }
      var loaded;
      loaded, status, calls := LoadFromHdx(remote, data[idFieldName]);
      if status.Done? && !loaded {
        status := Raised(NoExistingObject);
      }
    }

    /** `_check_required_fields`: raises, naming the first such field, exactly when a
        configured required field is neither in `data` nor ignored. */
    method CheckRequiredFields(ignoreFields: seq<string>) returns (status: Status)
      ensures status.Done? <==> forall f :: f in config.requiredFields ==> f in data || f in ignoreFields
      ensures status.Raised? ==>
        status.error.MissingRequiredField? &&
        status.error.field in config.requiredFields && status.error.field !in data && status.error.field !in ignoreFields
      ensures status == CheckRequired(data, config.requiredFields, ignoreFields)
    {
      FirstMissingIff(config.requiredFields, data, ignoreFields);
      var required := config.requiredFields;
      var i := 0;
      while i < |required|
        invariant i <= |required|
        invariant FirstMissing(required[i..], data, ignoreFields) == FirstMissing(required, data, ignoreFields)
      {
        var field := required[i];
        assert required[i..] == [field] + required[i + 1..];
        if field !in data && field !in ignoreFields {
          return Raised(MissingRequiredField(field));
        }
        i := i + 1;
      }
      return Done;
    }

    /** `_merge_hdx_update`: merge the previous data into the current data, check the required
        fields less `ignore_on_update`, and write the result with the update action. */
    method MergeHdxUpdate(remote: Request -> Outcome, merge: (Data, Data) -> Data) returns (status: Status, ghost calls: seq<Request>)
      requires oldData.Some?
      modifies this
      ensures Effect(State(), calls, status) == MergeUpdate(config, remote, merge, old(State()))
    {
      data := merge(data, oldData.value);
      status := CheckRequiredFields(config.ignoreOnUpdate);
      if status.Raised? {
        calls := [];
        return;
      }
      status, calls := SaveToHdx(remote, UpdateWrite);
    }

    /** `_update_in_hdx`. */
    method UpdateInHdx(remote: Request -> Outcome, merge: (Data, Data) -> Data, idFieldName: string) returns (status: Status, ghost calls: seq<Request>)
      modifies this
      ensures Effect(State(), calls, status) == Update(config, remote, merge, old(State()), idFieldName)
    {
      status, calls := CheckLoadExistingObject(remote, idFieldName);
      if status.Raised? {
        return;
      }
      ghost var first := calls;
      status, calls := MergeHdxUpdate(remote, merge);
      calls := first + calls;
    }

    /** `_write_to_hdx`: one call of the action; every exception it raises becomes WriteFailed. */
    method WriteToHdx(remote: Request -> Outcome, w: Write, payload: Data) returns (result: Data, status: Status, ghost calls: seq<Request>)
      ensures remote(Request(config.actions.Of(w), payload)).Found? ==>
        status == Done && result == remote(Request(config.actions.Of(w), payload)).result
      ensures !remote(Request(config.actions.Of(w), payload)).Found? ==> status == Raised(WriteFailed(w))
      ensures calls == [Request(config.actions.Of(w), payload)]
    {
      var req := Request(config.actions.Of(w), payload);
      calls := [req];
      match remote(req)
      case Found(d) => result, status := d, Done;
      case _ => result, status := map[], Raised(WriteFailed(w));
    }

    /** `_save_to_hdx`: after a successful write `old_data` is the data sent and `data` the
        site's answer; a failed write raises before either is assigned. */
    method SaveToHdx(remote: Request -> Outcome, w: Write) returns (status: Status, ghost calls: seq<Request>)
      modifies this
      ensures Effect(State(), calls, status) == Save(config, remote, old(State()), w)
    {
      var result;
      result, status, calls := WriteToHdx(remote, w, data);
      if status.Done? {
        oldData := Some(data);
        data := result;
      }
    }

    /** `_create_in_hdx`: required fields first; an id the site already knows turns the create
        into the merge-and-update path. */
    method CreateInHdx(remote: Request -> Outcome, merge: (Data, Data) -> Data, idFieldName: string) returns (status: Status, ghost calls: seq<Request>)
      modifies this
      ensures Effect(State(), calls, status) == Create(config, remote, merge, old(State()), idFieldName)
    {
      status := CheckRequiredFields([]);
      if status.Raised? {
        calls := [];
        return;
      }
      var loaded := false;
      ghost var first: seq<Request> := [];
      if idFieldName in data {
        loaded, status, first := LoadFromHdx(remote, data[idFieldName]);
        if status.Raised? {
          calls := first;
          return;
        }
      }
      if loaded && idFieldName !in data {
        status, calls := Raised(KeyMissing(idFieldName)), first;
        return;
      }
      if loaded {
        status, calls := MergeHdxUpdate(remote, merge);
      } else {
        status, calls := SaveToHdx(remote, CreateWrite);
      }
      calls := first + calls;
    }

    /** `_delete_from_hdx`: the id field must be present; the object need not have been loaded. */
    method DeleteFromHdx(remote: Request -> Outcome, idFieldName: string) returns (status: Status, ghost calls: seq<Request>)
      modifies this
      ensures Effect(State(), calls, status) == Delete(config, remote, old(State()), idFieldName)
    {
      if idFieldName !in data {
        return Raised(MissingIdField(idFieldName)), [];
      }
      status, calls := SaveToHdx(remote, DeleteWrite);
    }

    /** `_addupdate_hdxobject`: merge the incoming record into the first element with the same
        id, or append it when there is none. */
    method AddUpdateHdxObject(list: EntityList, idField: string, incoming: Data, merge: (Data, Data) -> Data) returns (status: Status)
      modifies list
      ensures ListRun(list.items, status) == AddUpdate(old(list.items), idField, incoming, merge)
    {
      var found := false;
      var i := 0;
      while i < |list.items|
        invariant i <= |list.items|
        invariant list.items == old(list.items) && !found
        invariant AddUpdateFrom(list.items, i, idField, incoming, merge) == AddUpdate(old(list.items), idField, incoming, merge)
      {
        var element := list.items[i];
        if idField !in element || idField !in incoming {
          return Raised(KeyMissing(idField));
        }
        if element[idField] == incoming[idField] {
          list.items := list.items[i := merge(element, incoming)];
          found := true;
          break;
        }
        i := i + 1;
      }
      if !found {
        list.items := list.items + [incoming];
      }
      status := Done;
    }

    /** `_convert_hdxobjects`: a new list of the elements' dictionaries, in order. */
    method ConvertHdxObjects(list: EntityList) returns (dicts: seq<Data>)
      ensures |dicts| == |list.items|
      ensures forall k :: 0 <= k < |dicts| ==> dicts[k] == list.items[k]
    {
      dicts := [];
      var i := 0;
      while i < |list.items|
        invariant i <= |list.items|
        invariant dicts == list.items[..i]
      {
        dicts := dicts + [list.items[i]];
        i := i + 1;
      }
    }

    /** `_copy_hdxobjects`: a new list holding a copy of every element, in order; the given
        list is left alone. */
    method CopyHdxObjects(list: EntityList) returns (copy: EntityList)
      ensures fresh(copy)
      ensures copy.items == list.items
    {
      var copies: seq<Data> := [];
      var i := 0;
      while i < |list.items|
        invariant i <= |list.items|
        invariant copies == list.items[..i]
      {
        copies := copies + [list.items[i]];
        i := i + 1;
      }
      copy := new EntityList(copies);
    }

    /** The inner loop of `_separate_hdxobjects`: the first incoming record whose id equals
        `name`, reading each id on the way (KeyError when one is absent). */
    static method FindIncoming(incoming: seq<Data>, idField: string, name: Value) returns (probe: Probe)
      ensures probe == ProbeFrom(incoming, 0, idField, name)
    {
      var j := 0;
      while j < |incoming|
        invariant j <= |incoming|
        invariant ProbeFrom(incoming, j, idField, name) == ProbeFrom(incoming, 0, idField, name)
      {
        if idField !in incoming[j] {
          return ProbeRaised(KeyMissing(idField));
        }
        if name == incoming[j][idField] {
          return MatchAt(j);
        }
        j := j + 1;
      }
      return NoMatchFound;
    }

    /** `_separate_hdxobjects`: absorb the records held under `key` into `list`, then delete
        `key` from `data`. */
    method SeparateHdxObjects(list: EntityList, key: string, idField: string, merge: (Data, Data) -> Data) returns (status: Status)
      modifies this, list
      ensures Separation(data, list.items, status) == Separate(old(data), old(list.items), key, idField, merge)
      ensures oldData == old(oldData)
    {
      if key !in data || Falsy(data[key]) {
        return Done;
      }
      if !data[key].Records? {
        return Raised(
          if |list.items| > 0 && idField !in list.items[0] then KeyMissing(idField)
          else if |list.items| > 0 && !Hashable(list.items[0][idField]) then Unhashable
          else NotRecords);
      }
      var incoming := data[key].items;
      ghost var items0 := list.items;
      var names: set<Value> := {};
      var i := 0;
      while i < |list.items|
        invariant i <= |list.items| == |items0|
        invariant data == old(data) && oldData == old(oldData)
        invariant list.items[i..] == items0[i..]
        invariant names == IdSet(items0[..i], idField)
        invariant AbsorbFrom(list.items, i, incoming, idField, merge) == AbsorbFrom(items0, 0, incoming, idField, merge)
      {
        var element := list.items[i];
        if idField !in element {
          return Raised(KeyMissing(idField));
        }
        var name := element[idField];
        if !Hashable(name) {
          return Raised(Unhashable);
        }
        assert items0[..i + 1][..i] == items0[..i];
        assert items0[i] == element;
        names := names + {name};
        var probe := FindIncoming(incoming, idField, name);
        match probe {
          case ProbeRaised(e) =>
            return Raised(e);
          case MatchAt(j) =>
            assert list.items[i + 1..] == items0[i + 1..] by {
              assert list.items[i + 1..] == list.items[i..][1..];
              assert items0[i + 1..] == items0[i..][1..];
            }
            var merged := list.items[i := merge(element, incoming[j])];
            assert merged[i + 1..] == list.items[i + 1..];
            list.items := merged;
          case NoMatchFound =>
        }
        i := i + 1;
      }
      assert items0[..i] == items0;
      ghost var absorbed := list.items;
      var j := 0;
      while j < |incoming|
        invariant j <= |incoming|
        invariant data == old(data) && oldData == old(oldData)
        invariant AppendFrom(list.items, incoming, j, idField, names) == AppendFrom(absorbed, incoming, 0, idField, names)
      {
        var record := incoming[j];
        if idField !in record {
          return Raised(KeyMissing(idField));
        }
        if !Hashable(record[idField]) {
          return Raised(Unhashable);
        }
        if record[idField] !in names {
          list.items := list.items + [record];
        }
        j := j + 1;
      }
      data := data - {key};
      status := Done;
    }
  }
}
