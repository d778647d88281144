/**
 * The pure parts of ollamab.py: the blob digests a model manifest names, the default
 * archive names of the three backup routines, and the guard of `clean_temp_files`.
 *
 * Digests are `algorithm:encoded` strings (the "Digests" section of the OCI image
 * specification's descriptor document); blobs are stored under the same text with the
 * `:` replaced by `-`.
 */
module Manifest {
  import opened Wrappers
  import opened Text

  datatype Layer = Layer(digest: Option<string>)

  /** The parts of a manifest document that are read: the config's digest and the layers. */
  datatype Document = Document(configDigest: Option<string>, layers: seq<Layer>)

  /** What opening and decoding the manifest file gives. */
  datatype FileState =
    | Missing               // os.path.exists is false
    | Unreadable            // open or json.load raises
    | Parsed(doc: Document)

  /** The dictionary `parse_model_file` returns. */
  datatype ModelFile = ModelFile(modelFilePath: string, digests: seq<string>)

  /** The blob file name of a digest. */
  function BlobName(digest: string): (r: string)
    ensures ':' !in r && |r| == |digest|
  {
    Replace(digest, ':', '-')
  }

  /** The digests a manifest names, config first, then layers in order; layers without one are skipped. */
  function RawDigests(doc: Document): (r: seq<string>)
    ensures |r| <= 1 + |doc.layers|
    ensures doc.configDigest.Some? ==> |r| >= 1 && r[0] == doc.configDigest.value
  {
    (if doc.configDigest.Some? then [doc.configDigest.value] else []) + LayerDigests(doc.layers)
  }

  function LayerDigests(layers: seq<Layer>): (r: seq<string>)
    ensures |r| <= |layers|
    ensures (forall i :: 0 <= i < |layers| ==> layers[i].digest.Some?) ==> |r| == |layers|
    ensures forall i :: 0 <= i < |layers| && layers[i].digest.Some? ==> layers[i].digest.value in r
  {
    if layers == [] then []
    else (if layers[0].digest.Some? then [layers[0].digest.value] else []) + LayerDigests(layers[1..])
  }

  /** The generator in `parse_model_file`: each layer's digest, rewritten, in order. */
  function LayerBlobNames(layers: seq<Layer>): (r: seq<string>)
    ensures |r| == |LayerDigests(layers)|
    ensures forall i :: 0 <= i < |r| ==> r[i] == BlobName(LayerDigests(layers)[i])
  {
    if layers == [] then []
    else (if layers[0].digest.Some? then [BlobName(layers[0].digest.value)] else []) + LayerBlobNames(layers[1..])
  }

  /**
   * `parse_model_file(path)`: None for an empty path; None for a missing file (the warning
   * there names an undefined variable, and the NameError is caught); None when reading
   * fails; otherwise the path and the blob names of the digests.
   */
  function ParseModelFile(path: Option<string>, file: FileState): (r: Option<ModelFile>)
    ensures r.Some? <==> path.Some? && path.value != "" && file.Parsed?
    ensures r.Some? ==> r.value.modelFilePath == path.value
    ensures r.Some? ==>
      var raw := RawDigests(file.doc);
      && |r.value.digests| == |raw|
      && forall i :: 0 <= i < |raw| ==> r.value.digests[i] == BlobName(raw[i])
  {
    if path.None? || path.value == "" then None
    else match file
      case Missing => None
      case Unreadable => None
      case Parsed(doc) =>
        var digests := if doc.configDigest.Some? then [BlobName(doc.configDigest.value)] else [];
        Some(ModelFile(path.value, digests + LayerBlobNames(doc.layers)))
  }

  /** At most one digest per layer plus the config's, and none of them contains `:`. */
  lemma ParsedDigestsShape(path: Option<string>, file: FileState)
    requires ParseModelFile(path, file).Some?
    ensures var m := ParseModelFile(path, file).value;
      && |m.digests| <= 1 + |file.doc.layers|
      && forall i :: 0 <= i < |m.digests| ==> ':' !in m.digests[i]
  {
    var raw := RawDigests(file.doc);
    var m := ParseModelFile(path, file).value;
    forall i | 0 <= i < |m.digests|
      ensures ':' !in m.digests[i]
    {
      assert m.digests[i] == BlobName(raw[i]);
    }
  }

  /** An OCI digest `algorithm:encoded` is stored under `algorithm-encoded`. */
  lemma BlobNameOfDigest(algorithm: string, encoded: string)
    requires ':' !in algorithm && ':' !in encoded
    ensures BlobName(algorithm + ":" + encoded) == algorithm + "-" + encoded
  {
    var d := algorithm + ":" + encoded;
    var r := BlobName(d);
    assert forall i :: 0 <= i < |d| ==> d[i] == (if i < |algorithm| then algorithm[i] else if i == |algorithm| then ':' else encoded[i - |algorithm| - 1]);
    assert r == algorithm + "-" + encoded;
  }

  /** Distinct digests of one algorithm name distinct blob files. */
  lemma BlobNamesDistinct(algorithm: string, e1: string, e2: string)
    requires ':' !in algorithm && ':' !in e1 && ':' !in e2 && e1 != e2
    ensures BlobName(algorithm + ":" + e1) != BlobName(algorithm + ":" + e2)
  {
    BlobNameOfDigest(algorithm, e1);
    BlobNameOfDigest(algorithm, e2);
    var a1, a2 := algorithm + "-" + e1, algorithm + "-" + e2;
    assert a1[|algorithm| + 1..] == e1 && a2[|algorithm| + 1..] == e2;
  }

  // ---------------------------------------------------------------------------------------
  // Default archive names

  /**
   * `((seps[-2] + "_") if seps[-2] else '') + seps[-1]`, from the components of the
   * manifest path relative to the models directory; IndexError with fewer than two.
   */
  function ArchiveStem(seps: seq<string>): (r: Result<string>)
    ensures r.Err? <==> |seps| < 2
    ensures r.Err? ==> r.error == IndexError
  {
    if |seps| < 2 then Err(IndexError)
    else
      var parent, leaf := seps[|seps| - 2], seps[|seps| - 1];
      Ok((if parent != "" then parent + "_" else "") + leaf)
  }

  /** The archive name: a non-empty `zip_name` wins; otherwise prefix + stem + extension. */
  function ArchiveName(zipName: Option<string>, prefix: string, seps: seq<string>, extension: string): (r: Result<string>)
    ensures zipName.Some? && zipName.value != "" ==> r == Ok(zipName.value)
    ensures (zipName.None? || zipName.value == "") ==>
      (r.Err? <==> |seps| < 2) && (r.Ok? ==> r.value == prefix + ArchiveStem(seps).value + extension)
  {
    if zipName.Some? && zipName.value != "" then Ok(zipName.value)
    else match ArchiveStem(seps)
      case Ok(stem) => Ok(prefix + stem + extension)
      case Err(e) => Err(e)
  }

  /** `copy_and_zip_model`: no prefix, `.zip`. */
  function CopyArchiveName(zipName: Option<string>, seps: seq<string>): (r: Result<string>)
    ensures (zipName.None? || zipName.value == "") && |seps| >= 2 ==>
      r == Ok(ArchiveStem(seps).value + ".zip")
  {
    assert forall t: string :: "" + t == t;
    ArchiveName(zipName, "", seps, ".zip")
  }

  /** `zip_model`: `backup` (no separator) before the stem, `.zip`. */
  function ZipArchiveName(zipName: Option<string>, seps: seq<string>): (r: Result<string>)
    ensures (zipName.None? || zipName.value == "") && |seps| >= 2 ==>
      r == Ok("backup" + ArchiveStem(seps).value + ".zip")
  {
    ArchiveName(zipName, "backup", seps, ".zip")
  }

  /** `paq_zip_model`: `backup_` before the stem, `.zpaq`; its handler turns IndexError into None. */
  function PaqArchiveName(zipName: Option<string>, seps: seq<string>): (r: Option<string>)
    ensures r.None? <==> (zipName.None? || zipName.value == "") && |seps| < 2
  {
    match ArchiveName(zipName, "backup_", seps, ".zpaq")
    case Ok(name) => Some(name)
    case Err(_) => None
  }

  /** The three default names share one stem and differ only in prefix and extension. */
  lemma DefaultNamesShareStem(seps: seq<string>)
    requires |seps| >= 2
    ensures var stem := ArchiveStem(seps).value;
      && CopyArchiveName(None, seps) == Ok(stem + ".zip")
      && ZipArchiveName(None, seps) == Ok("backup" + stem + ".zip")
      && PaqArchiveName(None, seps) == Some("backup_" + stem + ".zpaq")
  {
    var stem := ArchiveStem(seps).value;
    assert "" + stem + ".zip" == stem + ".zip";
  }

  /** For `.../<model>/<tag>` the stem is `<model>_<tag>`; a bare tag with an empty parent stays alone. */
  lemma StemOfModelAndTag(dirs: seq<string>, model: string, tag: string)
    ensures model != "" ==> ArchiveStem(dirs + [model, tag]) == Ok(model + "_" + tag)
    ensures model == "" ==> ArchiveStem(dirs + [model, tag]) == Ok(tag)
  {
    var seps := dirs + [model, tag];
    assert seps[|seps| - 2] == model && seps[|seps| - 1] == tag;
    assert "" + tag == tag;
  }

  // ---------------------------------------------------------------------------------------
  // Temporary directory cleanup

  /** The guard of `clean_temp_files`: the directory exists and is not the models directory. */
  predicate RemovesTempDir(zipDir: string, modelPath: string, present: bool)
  {
    present && zipDir != modelPath
  }

  /**
   * `clean_temp_files` over a file system given as the set of existing paths: `rmtree`
   * takes the directory and everything under it, when the guard allows.
   */
  function CleanTempFiles(fs: set<string>, zipDir: string, modelPath: string): (r: set<string>)
    ensures r <= fs
    ensures zipDir == modelPath || zipDir !in fs ==> r == fs
    ensures zipDir in fs && zipDir != modelPath ==> zipDir !in r
    ensures forall p :: p in fs && p != zipDir && !(zipDir + "/" <= p) ==> p in r
  {
    if RemovesTempDir(zipDir, modelPath, zipDir in fs) then
      set p | p in fs && p != zipDir && !(zipDir + "/" <= p)
    else fs
  }
}
