/**
 * The in-memory model and blob registry of models/models.py (class `ModelData`).
 *
 * Models are kept by name; blobs (the content-addressed layer files) by name, each with
 * the list of model names that use it. Observer notifications are recorded in a log
 * instead of being dispatched. File-system facts that `set_backup_status` looks up are
 * passed in as parameters.
 */
module Registry {
  import opened Wrappers
  import opened Text

  datatype BackupStatus = BackupStatus(
    modelName: string,
    backupPath: Option<string>,
    backupStatus: bool,
    zipFile: Option<string>,
    zipMd5: Option<string>,
    size: Option<int>)

  datatype Blob = Blob(name: string, size: Option<int>, md5: Option<string>, path: Option<string>, models: seq<string>)

  datatype LLMModel = LLMModel(
    modelPath: Option<string>,
    name: string,
    description: string,
    llm: string,
    version: string,
    manifest: Option<string>,
    blobs: Option<seq<string>>,
    bkStatus: Option<BackupStatus>)

  /** What `_notify_observers` is asked to deliver, in order. */
  datatype Notification =
    | SetModelNote(model: LLMModel)
    | DeleteModelNote(deleted: LLMModel)
    | SetBlobNote(blob: Blob)
    | SetBackupStatusNote(status: BackupStatus)
    | InitializedNote(value: bool)

  predicate NoDuplicates(s: seq<string>)
  {
    forall i, j :: 0 <= i < j < |s| ==> s[i] != s[j]
  }

  // ---------------------------------------------------------------------------------------
  // Blob back-references

  /** `Blob.append_model`: the name joins the list unless it is already there. */
  function AppendModel(b: Blob, name: string): (r: Blob)
    ensures r.(models := b.models) == b
    ensures forall m :: m in r.models <==> m in b.models || m == name
    ensures NoDuplicates(b.models) ==> NoDuplicates(r.models)
    ensures name in b.models ==> r == b
  {
    if name in b.models then b else b.(models := b.models + [name])
  }

  /** `list.remove(x)`: the first occurrence of x is dropped. */
  function RemoveFirst(s: seq<string>, x: string): (r: seq<string>)
    ensures x !in s ==> r == s
    ensures x in s ==> |r| == |s| - 1
    ensures forall y :: y in r ==> y in s
    ensures forall y :: y in s && y != x ==> y in r
    ensures NoDuplicates(s) ==> NoDuplicates(r) && x !in r
  {
    if s == [] then []
    else if s[0] == x then s[1..]
    else
      var t := RemoveFirst(s[1..], x);
      assert NoDuplicates(s) ==> s[0] !in s[1..];
      [s[0]] + t
  }

  /**
   * `list.remove(x)` drops the FIRST occurrence: the one at the returned position k, with
   * no x before it; the names before and after k keep their order.
   */
  lemma {:induction false} RemoveFirstAt(s: seq<string>, x: string) returns (k: nat)
    requires x in s
    ensures k < |s| && s[k] == x && x !in s[..k]
    ensures RemoveFirst(s, x) == s[..k] + s[k + 1..]
  {
    if s[0] == x {
      k := 0;
    } else {
      var k' := RemoveFirstAt(s[1..], x);
      k := k' + 1;
      assert s[..k] == [s[0]] + s[1..][..k'];
      assert s[k + 1..] == s[1..][k' + 1..];
    }
  }

  /** `Blob.remove_model`: a listed name is removed; an unlisted one changes nothing. */
  function RemoveModel(b: Blob, name: string): (r: Blob)
    ensures r.(models := b.models) == b
    ensures name !in b.models ==> r == b
    ensures NoDuplicates(b.models) ==> name !in r.models && NoDuplicates(r.models)
    ensures forall m :: m != name ==> (m in r.models <==> m in b.models)
  {
    if name in b.models then b.(models := RemoveFirst(b.models, name)) else b
  }

  /** Removing a name just appended restores the blob. */
  lemma RemoveUndoesAppend(b: Blob, name: string)
    requires name !in b.models
    ensures RemoveModel(AppendModel(b, name), name) == b
  {
    var s := b.models + [name];
    if s[0] == name {
      assert b.models == [];
    } else {
      RemoveFirstOfLast(b.models, name);
    }
  }

  lemma {:induction false} RemoveFirstOfLast(s: seq<string>, x: string)
    requires x !in s
    ensures RemoveFirst(s + [x], x) == s
  {
    if s != [] {
      assert (s + [x])[1..] == s[1..] + [x];
      RemoveFirstOfLast(s[1..], x);
    }
  }

  /** A blob that `set_model` creates for a name it has not seen. */
  function NewBlob(name: string): Blob
  {
    Blob(name, None, None, None, [])
  }

  /** One iteration of the loop in `set_model`: the blob exists and lists the model. */
  function AttachBlob(blobs: map<string, Blob>, b: string, name: string): (r: map<string, Blob>)
    ensures b in r && name in r[b].models
    ensures b in blobs ==> forall m :: m in blobs[b].models ==> m in r[b].models
    ensures forall k :: k != b ==> (k in r <==> k in blobs)
    ensures forall k :: k != b && k in blobs ==> r[k] == blobs[k]
  {
    blobs[b := AppendModel(if b in blobs then blobs[b] else NewBlob(b), name)]
  }

  /** The whole loop of `set_model` over the model's blob names. */
  function AttachAll(blobs: map<string, Blob>, bs: seq<string>, name: string): (r: map<string, Blob>)
    ensures forall i :: 0 <= i < |bs| ==> bs[i] in r && name in r[bs[i]].models
  {
    if bs == [] then blobs
    else AttachBlob(AttachAll(blobs, bs[..|bs| - 1], name), bs[|bs| - 1], name)
  }

  /**
   * After the loop every named blob exists and lists the model; no other blob changes;
   * no name leaves a blob's list; each blob still carries its own name.
   */
  lemma {:induction false} AttachAllEffect(blobs: map<string, Blob>, bs: seq<string>, name: string)
    ensures var r := AttachAll(blobs, bs, name);
      && (forall b :: b in bs ==> b in r && name in r[b].models)
      && (forall b :: b in r <==> b in blobs || b in bs)
      && (forall b :: b in blobs && b !in bs ==> r[b] == blobs[b])
      && (forall b, m :: b in blobs && m in blobs[b].models ==> m in r[b].models)
      && (forall b :: b in r ==> r[b].name == (if b in blobs then blobs[b].name else b))
  {
    if bs != [] {
      var init := bs[..|bs| - 1];
      AttachAllEffect(blobs, init, name);
      forall b | b in bs
        ensures b in init || b == bs[|bs| - 1]
      {
        var k :| 0 <= k < |bs| && bs[k] == b;
        if k < |bs| - 1 {
          assert init[k] == b;
        }
      }
    }
  }

  lemma AttachAllStep(blobs: map<string, Blob>, bs: seq<string>, i: nat, name: string)
    requires i < |bs|
    ensures AttachAll(blobs, bs[..i + 1], name) == AttachBlob(AttachAll(blobs, bs[..i], name), bs[i], name)
  {
    assert bs[..i + 1][..i] == bs[..i];
  }

  /** Every blob a stored model names is registered and lists that model. */
  ghost predicate BackReferences(models: map<string, LLMModel>, blobs: map<string, Blob>)
  {
    forall n, i :: n in models && models[n].blobs.Some? && 0 <= i < |models[n].blobs.value| ==>
      models[n].blobs.value[i] in blobs && n in blobs[models[n].blobs.value[i]].models
  }

  /** Registering a model's blobs keeps every back-reference and adds the model's own. */
  lemma AttachKeepsBackReferences(models: map<string, LLMModel>, blobs: map<string, Blob>, model: LLMModel)
    requires BackReferences(models, blobs) && model.blobs.Some?
    ensures BackReferences(models[model.name := model], AttachAll(blobs, model.blobs.value, model.name))
  {
    var models', blobs' := models[model.name := model], AttachAll(blobs, model.blobs.value, model.name);
    AttachAllEffect(blobs, model.blobs.value, model.name);
    forall n, i | n in models' && models'[n].blobs.Some? && 0 <= i < |models'[n].blobs.value|
      ensures models'[n].blobs.value[i] in blobs' && n in blobs'[models'[n].blobs.value[i]].models
    {
      if n != model.name {
        var b := models[n].blobs.value[i];
        assert b in blobs && n in blobs[b].models;
      }
    }
  }

  /** A model stored without blobs keeps every other model's back-references. */
  lemma StoreKeepsBackReferences(models: map<string, LLMModel>, blobs: map<string, Blob>, model: LLMModel)
    requires BackReferences(models, blobs) && model.blobs.None?
    ensures BackReferences(models[model.name := model], blobs)
  {
  }

  // ---------------------------------------------------------------------------------------
  // Backup status

  /**
   * The part of `set_backup_status` before the lock: when the archive named by `zip_file`
   * exists (its size is `onDisk`), record the size and, for a finished backup without a
   * checksum, the checksum taken from the archive name.
   */
  function PrepareStatus(status: BackupStatus, onDisk: Option<int>): (r: BackupStatus)
    ensures r.(size := status.size, zipMd5 := status.zipMd5) == status
    ensures status.zipFile.None? || status.zipFile == Some("") || onDisk.None? ==> r == status
    ensures status.zipFile.Some? && status.zipFile != Some("") && onDisk.Some? ==>
      && r.size == onDisk
      && r.zipMd5 == (if status.backupStatus && status.zipMd5.None? then Some(Md5FromZipName(status.zipFile.value))
                      else status.zipMd5)
  {
    if status.zipFile.Some? && status.zipFile.value != "" && onDisk.Some? then
      var sized := status.(size := onDisk);
      if status.backupStatus && status.zipMd5.None? then sized.(zipMd5 := Some(Md5FromZipName(status.zipFile.value)))
      else sized
    else status
  }

  /** The model `set_backup_status` creates for an unknown name: `llm` and `version` from `name:tag`. */
  function Placeholder(name: string, status: BackupStatus): (m: LLMModel)
    ensures m.name == name && m.description == name && m.bkStatus == Some(status)
    ensures m.blobs.None? && m.modelPath.None? && m.manifest.None?
    ensures ':' !in m.llm && m.llm <= name
    ensures ':' in name ==> ':' !in m.version
    ensures ':' !in name ==> m.llm == name && m.version == "latest"
  {
    LLMModel(None, name, name, BeforeFirst(name, ':'),
             if ':' in name then AfterLast(name, ':') else "latest",
             None, None, Some(status))
  }

  /** For a `name:tag` reference the placeholder's llm and version rebuild the name. */
  lemma PlaceholderSplitsReference(name: string, status: BackupStatus)
    requires OccursOnce(name, ':')
    ensures Placeholder(name, status).llm + ":" + Placeholder(name, status).version == name
  {
    SplitOnceRejoins(name, ':');
  }

  /** The stored model after `set_model`: a missing backup status is taken from the old entry. */
  function Merged(models: map<string, LLMModel>, model: LLMModel): (r: LLMModel)
    ensures r.(bkStatus := model.bkStatus) == model
    ensures model.bkStatus.Some? ==> r.bkStatus == model.bkStatus
    ensures model.bkStatus.None? && model.name in models ==> r.bkStatus == models[model.name].bkStatus
    ensures model.bkStatus.None? && model.name !in models ==> r.bkStatus.None?
  {
    if model.name in models && model.bkStatus.None? then model.(bkStatus := models[model.name].bkStatus) else model
  }

  class ModelData {
    var models: map<string, LLMModel>
    var blobs: map<string, Blob>
    var initialized: bool
    /** The `_called` attribute that `call_once` sets on the object. */
    var called: bool
    var notes: seq<Notification>

    ghost predicate Valid()
      reads this
    {
      && (forall n :: n in models ==> models[n].name == n)
      && (forall b :: b in blobs ==> blobs[b].name == b)
      && BackReferences(models, blobs)
    }

    /** The bare object `__new__` allocates, before `_init` runs. */
    constructor ()
      ensures Valid() && !called
      ensures models == map[] && blobs == map[] && !initialized && notes == []
    {
      models := map[];
      blobs := map[];
      initialized := false;
      called := false;
      notes := [];
    }

    /** `_init` under `call_once`: runs the first time only; a later call changes nothing. */
    method Init() returns (ran: bool)
      requires Valid()
      modifies this
      ensures Valid() && called
      ensures ran == !old(called)
      ensures ran ==> models == map[] && blobs == map[] && !initialized && notes == old(notes)
      ensures !ran ==> models == old(models) && blobs == old(blobs) && initialized == old(initialized) && notes == old(notes)
    {
      if called {
        return false;
      }
      called := true;
      models := map[];
      blobs := map[];
      initialized := false;
      ran := true;
    }

    /**
     * `set_model`: the model is stored under its name, keeping the old backup status when
     * the new one is None; then every blob it names is registered and lists it. A model
     * whose `blobs` is None is stored and then raises TypeError from the loop.
     */
    method SetModel(model: LLMModel) returns (r: Result<()>)
      requires Valid()
      modifies this`models, this`blobs, this`notes
      ensures Valid()
      ensures models == old(models)[model.name := Merged(old(models), model)]
      ensures model.blobs.None? ==> r == Err(TypeError) && blobs == old(blobs) && notes == old(notes)
      ensures model.blobs.Some? ==>
        && r == Ok(())
        && blobs == AttachAll(old(blobs), model.blobs.value, model.name)
        && notes == old(notes) + [SetModelNote(Merged(old(models), model))]
    {
      var stored := Merged(models, model);
      if model.blobs.None? {
        StoreKeepsBackReferences(models, blobs, stored);
        models := models[model.name := stored];
        return Err(TypeError);
      }
      AttachKeepsBackReferences(models, blobs, stored);
      AttachAllEffect(blobs, model.blobs.value, model.name);
      models := models[model.name := stored];
      AttachBlobs(model.blobs.value, model.name);
      notes := notes + [SetModelNote(stored)];
      r := Ok(());
    }

    /** The loop of `set_model` over the model's blob names (models/models.py:154-161). */
    method AttachBlobs(bs: seq<string>, name: string)
      modifies this`blobs
      ensures blobs == AttachAll(old(blobs), bs, name)
    {
      var i := 0;
      while i < |bs|
        invariant 0 <= i <= |bs|
        invariant blobs == AttachAll(old(blobs), bs[..i], name)
      {
        var b := bs[i];
        AttachAllStep(old(blobs), bs, i, name);
        if b !in blobs {
          blobs := blobs[b := NewBlob(b)];
          blobs := blobs[b := AppendModel(blobs[b], name)];
        } else {
          blobs := blobs[b := AppendModel(blobs[b], name)];
        }
        i := i + 1;
      }
      assert bs[..|bs|] == bs;
    }

    /** `delete_model`: the entry goes if present; observers are notified either way. */
    method DeleteModel(model: LLMModel)
      requires Valid()
      modifies this`models, this`notes
      ensures Valid()
      ensures models == old(models) - {model.name}
      ensures notes == old(notes) + [DeleteModelNote(model)]
    {
      models := models - {model.name};
      notes := notes + [DeleteModelNote(model)];
    }

    /**
     * `set_backup_status`: prepares the status from the archive on disk, creates a
     * placeholder model for an unknown name, and always sets the model's backup status.
     * `onDisk` is the archive's size when `zip_file` exists.
     */
    method SetBackupStatus(status: BackupStatus, onDisk: Option<int>)
      requires Valid()
      modifies this`models, this`notes
      ensures Valid()
      ensures var s := PrepareStatus(status, onDisk);
        var name := status.modelName;
        && name in models && models[name].bkStatus == Some(s)
        && (name !in old(models) ==>
              && models == old(models)[name := Placeholder(name, s)]
              && notes == old(notes) + [SetModelNote(Placeholder(name, s))])
        && (name in old(models) ==>
              && models == old(models)[name := old(models)[name].(bkStatus := Some(s))]
              && notes == old(notes) + [SetBackupStatusNote(s)])
    {
      var s := PrepareStatus(status, onDisk);
      var name := s.modelName;
      if name !in models {
        var model := Placeholder(name, s);
        models := models[name := model];
        notes := notes + [SetModelNote(model)];
      } else {
        models := models[name := models[name].(bkStatus := Some(s))];
        notes := notes + [SetBackupStatusNote(s)];
      }
    }

    /** `set_blob`: an existing blob takes the new size, md5 and path and keeps its models. */
    method SetBlob(blob: Blob)
      requires Valid()
      modifies this`blobs, this`notes
      ensures Valid()
      ensures blob.name in old(blobs) ==>
        blobs == old(blobs)[blob.name := old(blobs)[blob.name].(size := blob.size, md5 := blob.md5, path := blob.path)]
      ensures blob.name !in old(blobs) ==> blobs == old(blobs)[blob.name := blob]
      ensures notes == old(notes) + [SetBlobNote(blob)]
    {
      if blob.name in blobs {
        blobs := blobs[blob.name := blobs[blob.name].(size := blob.size, md5 := blob.md5, path := blob.path)];
      } else {
        blobs := blobs[blob.name := blob];
      }
      notes := notes + [SetBlobNote(blob)];
    }

    /** `get_blob_size(name)` in bytes: 0 for a missing blob or an unset or zero size. */
    function BlobSize(name: string): (n: int)
      reads this
      ensures name !in blobs || blobs[name].size.None? ==> n == 0
      ensures n != 0 ==> name in blobs && blobs[name].size == Some(n)
      ensures name in blobs && blobs[name].size.Some? ==> n == blobs[name].size.value
    {
      if name !in blobs || blobs[name].size.None? || blobs[name].size.value == 0 then 0
      else blobs[name].size.value
    }

    /** The `initialized` setter: stores the flag and notifies. */
    method SetInitialized(value: bool)
      modifies this`initialized, this`notes
      ensures initialized == value
      ensures notes == old(notes) + [InitializedNote(value)]
    {
      initialized := value;
      notes := notes + [InitializedNote(value)];
    }
  }

  /** The singleton's first construction: `__new__` allocates, then runs `_init` once. */
  method NewModelData() returns (d: ModelData)
    ensures fresh(d) && d.Valid() && d.called
    ensures d.models == map[] && d.blobs == map[] && !d.initialized && d.notes == []
  {
    d := new ModelData();
    var ran := d.Init();
  }
}
