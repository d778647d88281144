/**
 * The older model registry of models.py (class `ModelData`): models by name, backup
 * statuses attached to present models, and observer notifications recorded in a log.
 */
module Legacy {
  import opened Wrappers
  import opened Text

  datatype BackupStatus = BackupStatus(
    modelName: string,
    backupPath: Option<string>,
    backupStatus: bool,
    zipFile: Option<string>,
    zipMd5: Option<string>)

  datatype LLMModel = LLMModel(
    modelPath: string,
    name: string,
    description: string,
    llm: string,
    version: string,
    manifest: string,
    blobs: seq<string>,
    bkStatus: Option<BackupStatus>)

  /** What `_notify_observers` is asked to deliver, in order. */
  datatype Notification =
    | AddModelNote(added: LLMModel)
    | DeleteModelNote(deleted: LLMModel)
    | UpdateModelNote(updated: LLMModel)
    | UpdateBackupStatusNote(status: BackupStatus)
    | InitializedNote(value: bool)

  /**
   * The status `update_backup_status` stores: a finished backup takes its checksum from
   * the archive name; a finished backup without an archive name raises AttributeError.
   */
  function CompletedStatus(status: BackupStatus): (r: Result<BackupStatus>)
    ensures r.Err? <==> status.backupStatus && status.zipFile.None?
    ensures r.Err? ==> r.error == AttributeError
    ensures r.Ok? && !status.backupStatus ==> r.value == status
    ensures r.Ok? && status.backupStatus ==> r.value == status.(zipMd5 := Some(Md5FromZipName(status.zipFile.value)))
  {
    if !status.backupStatus then Ok(status)
    else match status.zipFile
      case None => Err(AttributeError)
      case Some(z) => Ok(status.(zipMd5 := Some(Md5FromZipName(z))))
  }

  /** An archive named `<name>_<md5>.zip` yields exactly that checksum. */
  lemma CompletedStatusReadsChecksum(status: BackupStatus, stem: string, md5: string)
    requires status.backupStatus && status.zipFile == Some(stem + "_" + md5 + ".zip")
    requires '_' !in md5 && '.' !in md5
    ensures CompletedStatus(status).Ok? && CompletedStatus(status).value.zipMd5 == Some(md5)
  {
    assert stem + "_" + md5 + ".zip" == stem + "_" + md5 + "." + "zip";
    Md5FromZipNameRoundTrip(stem, md5, "zip");
  }

  class ModelData {
    var models: map<string, LLMModel>
    var initialized: bool
    var notes: seq<Notification>

    /** Every model is stored under its own name. */
    ghost predicate Valid()
      reads this
    {
      forall n :: n in models ==> models[n].name == n
    }

    constructor ()
      ensures Valid()
      ensures models == map[] && !initialized && notes == []
    {
      models := map[];
      initialized := false;
      notes := [];
    }

    /** `add_model`: stores the model under its name, replacing any previous one. */
    method AddModel(model: LLMModel)
      requires Valid()
      modifies this`models, this`notes
      ensures Valid()
      ensures models == old(models)[model.name := model]
      ensures notes == old(notes) + [AddModelNote(model)]
    {
      models := models[model.name := model];
      notes := notes + [AddModelNote(model)];
    }

    /** `delete_model`: a present model is removed and announced; an absent one changes nothing. */
    method DeleteModel(model: LLMModel)
      requires Valid()
      modifies this`models, this`notes
      ensures Valid()
      ensures models == old(models) - {model.name}
      ensures model.name in old(models) ==> notes == old(notes) + [DeleteModelNote(model)]
      ensures model.name !in old(models) ==> notes == old(notes)
    {
      if model.name in models {
        models := models - {model.name};
        notes := notes + [DeleteModelNote(model)];
      }
    }

    /** `update_model`: the same store as `add_model`, announced as an update. */
    method UpdateModel(model: LLMModel)
      requires Valid()
      modifies this`models, this`notes
      ensures Valid()
      ensures models == old(models)[model.name := model]
      ensures notes == old(notes) + [UpdateModelNote(model)]
    {
      models := models[model.name := model];
      notes := notes + [UpdateModelNote(model)];
    }

    /**
     * `update_backup_status`: AttributeError for a finished backup without an archive name,
     * then KeyError for an unknown model; otherwise the model's status is replaced.
     */
    method UpdateBackupStatus(status: BackupStatus) returns (r: Result<()>)
      requires Valid()
      modifies this`models, this`notes
      ensures Valid()
      ensures CompletedStatus(status).Err? ==> r == Err(AttributeError) && models == old(models) && notes == old(notes)
      ensures CompletedStatus(status).Ok? && status.modelName !in old(models) ==>
        r == Err(KeyError) && models == old(models) && notes == old(notes)
      ensures CompletedStatus(status).Ok? && status.modelName in old(models) ==>
        var s := CompletedStatus(status).value;
        && r == Ok(())
        && models == old(models)[status.modelName := old(models)[status.modelName].(bkStatus := Some(s))]
        && notes == old(notes) + [UpdateBackupStatusNote(s)]
    {
      var completed := CompletedStatus(status);
      if completed.Err? {
        return Err(AttributeError);
      }
      var s := completed.value;
      if s.modelName !in models {
        return Err(KeyError);
      }
      models := models[s.modelName := models[s.modelName].(bkStatus := Some(s))];
      notes := notes + [UpdateBackupStatusNote(s)];
      r := Ok(());
    }

    /** The `initialized` setter: stores the flag and notifies. */
    method SetInitialized(value: bool)
      modifies this`initialized, this`notes
      ensures initialized == value
      ensures notes == old(notes) + [InitializedNote(value)]
    {
      initialized := value;
      notes := notes + [InitializedNote(value)];
    }
  }
}
