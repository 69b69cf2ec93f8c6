/**
  The asset upload manager: its configuration, the decision a path upload
  takes before the backend is called, and the dispatch of one input to the
  path or the stream branch. The file's stat record is an input and the
  backend call is the request the decision hands over.
*/
module Uploader {
  import opened Wrappers
  import Paths
  import Classifier
  import Metadata

  /** Bytes in a mebibyte: the unit MaxAssetSize is compared in. */
  const MiB: int := 1024 * 1024
  /** time.Minute, in nanoseconds as time.Duration counts. */
  const Minute: int := 60 * 1000 * 1000 * 1000

  /** The file mode bits the size check looks at. */
  datatype FileKind = Regular | Directory | Symlink | Irregular

  /** What os.Lstat reports of a path: its size in bytes and its kind. */
  datatype FileInfo = FileInfo(size: int, kind: FileKind)

  /** The outcome of os.Lstat on a path. */
  datatype StatOutcome = Stat(info: FileInfo) | StatFailed(message: string)

  /** The errors of the path branch and the dispatch, with the Go error text of each. */
  datatype UploadError =
      /** "invalid MIME type" */
    | InvalidMimeType
      /** the error os.Lstat returned, passed on unchanged */
    | StatError(message: string)
      /** "max asset size exceeded" */
    | MaxAssetSizeExceeded
      /** "data type not supported for interface" */
    | DataTypeNotSupported
      /** A run-time panic of the Go program, with its panic message. */
    | Panic(reason: string)

  /** uploader.UploadParams as the path branch fills it in. */
  datatype UploadParams<V> = UploadParams(publicId: string, folder: string, metadata: map<string, V>)

  /**
    What is handed to the backend: a path upload with its parameters, or the
    input passed on to the stream branch.
  */
  datatype UploadRequest<V> = PathUpload(file: string, params: UploadParams<V>) | StreamUpload

  /** The dynamic shapes an interface{} argument of UploadSingleFile can take. */
  datatype UploadInput =
    | StringValue(s: string)
      /** A value of a named type whose kind is string, such as `type Path string`. */
    | NamedStringValue(typeName: string, s: string)
      /** A value of another kind that implements io.Reader. */
    | ReaderValue
      /** An untyped nil. */
    | NilValue
      /** Anything else, a []byte among them: a byte slice is not an io.Reader. */
    | OtherValue

  /** The settings of a manager that an upload reads. */
  datatype UploadConfiguration<V> = UploadConfiguration(
    fileTypeSupported: seq<string>,
    maxAssetSize: int,
    maxUploadTimeout: int,
    maxNumberOfConcurrentUploads: int,
    metadata: map<string, V>)

  /** The configuration NewAssetUploadManager sets up. */
  function Defaults<V>(): UploadConfiguration<V> {
    UploadConfiguration(Classifier.DefaultAllowList, 1024 * 4, Minute, 1, map[])
  }

  class AssetUploadManager<V> {
    var fileTypeSupported: seq<string>
    var maxAssetSize: int
    var maxUploadTimeout: int
    var maxNumberOfConcurrentUploads: int
    var metadata: Metadata.Meta<V>

    /**
      The defaults of NewAssetUploadManager: the allow-list built by appending
      the four extension lists to make([]string, 1), 4096 as the size limit,
      one concurrent upload, a one-minute timeout and empty metadata.
    */
    constructor ()
      ensures fresh(metadata)
      ensures Configuration() == Defaults()
    {
      var supported: seq<string> := [""];
      supported := supported + Classifier.ImageExtensions;
      supported := supported + Classifier.AudioExtensions;
      supported := supported + Classifier.VideoExtensions;
      supported := supported + Classifier.DocumentExtensions;
      fileTypeSupported := supported;
      maxAssetSize := 1024 * 4;
      metadata := new Metadata.Meta();
      maxNumberOfConcurrentUploads := 1;
      maxUploadTimeout := Minute;
    }

    /** The manager's current settings, metadata included. */
    function Configuration(): UploadConfiguration<V>
      reads this, metadata
    {
      UploadConfiguration(fileTypeSupported, maxAssetSize, maxUploadTimeout,
                          maxNumberOfConcurrentUploads, metadata.entries)
    }
  }

  /**
    NewAssetUploadManager: a manager with the defaults, or the error of the
    backend client constructor (given here as clientError).
  */
  method NewAssetUploadManager<V>(clientError: Option<string>) returns (r: Result<AssetUploadManager<V>, string>)
    ensures r.Failure? <==> clientError.Some?
    ensures r.Failure? ==> r.error == clientError.value
    ensures r.Success? ==> fresh(r.value) && fresh(r.value.metadata)
    ensures r.Success? ==> r.value.Configuration() == Defaults()
  {
    var am := new AssetUploadManager<V>();
    if clientError.Some? {
      return Failure(clientError.value);
    }
    return Success(am);
  }

  /** The size check's first half: more MiB than the limit allows. */
  predicate ExceedsMaxAssetSize(size: int, maxAssetSize: int) {
    size > maxAssetSize * MiB
  }

  /**
    uploadBasedOnFilePath: the allow-list is checked on the extension before
    the stat, a stat error is passed on, a size over the limit is refused only
    for a file that is neither a directory nor a regular file, and otherwise
    the path is uploaded under its base name into the extension's folder
    with the manager's metadata.
  */
  function UploadBasedOnFilePath<V>(config: UploadConfiguration<V>, path: string, lstat: StatOutcome): (r: Result<UploadRequest<V>, UploadError>)
    ensures r == Failure(InvalidMimeType) <==> !Classifier.IsSupported(config.fileTypeSupported, Paths.Extension(path))
    ensures r.Failure? && r.error.StatError? <==>
              Classifier.IsSupported(config.fileTypeSupported, Paths.Extension(path)) && lstat.StatFailed?
    ensures r.Failure? && r.error.StatError? ==> r.error.message == lstat.message
    ensures r == Failure(MaxAssetSizeExceeded) <==>
              Classifier.IsSupported(config.fileTypeSupported, Paths.Extension(path)) && lstat.Stat? &&
              ExceedsMaxAssetSize(lstat.info.size, config.maxAssetSize) &&
              lstat.info.kind != Directory && lstat.info.kind != Regular
    ensures r.Failure? ==> !r.error.DataTypeNotSupported? && !r.error.Panic?
    ensures r.Success? ==> r.value.PathUpload? && r.value.file == path
    ensures r.Success? ==> r.value.params.publicId == Paths.Base(path) && r.value.params.publicId != []
    ensures r.Success? ==> r.value.params.folder == Classifier.LogicalFolder(Paths.Extension(path))
    ensures r.Success? ==> r.value.params.folder in Classifier.Folders
    ensures r.Success? ==> r.value.params.metadata == config.metadata
  {
    var base := Paths.Base(path);
    var extension := Paths.Extension(path);
    if !Classifier.IsSupported(config.fileTypeSupported, extension) then
      Failure(InvalidMimeType)
    else
      match lstat
      case StatFailed(message) => Failure(StatError(message))
      case Stat(info) =>
        if ExceedsMaxAssetSize(info.size, config.maxAssetSize) && !(info.kind == Directory || info.kind == Regular) then
          Failure(MaxAssetSizeExceeded)
        else
          Success(PathUpload(path, UploadParams(base, Classifier.LogicalFolder(extension), config.metadata)))
  }

  /**
    UploadSingleFile: a value of kind string takes the path branch (and a
    named string type then fails the branch's type assertion), a reader
    takes the stream branch, nil panics on reflect.TypeOf(nil).Kind(), and
    anything else is refused.
  */
  function UploadSingleFile<V>(config: UploadConfiguration<V>, file: UploadInput, lstat: StatOutcome): (r: Result<UploadRequest<V>, UploadError>)
    ensures file.StringValue? ==> r == UploadBasedOnFilePath(config, file.s, lstat)
    ensures r.Success? && r.value.PathUpload? ==> file == StringValue(r.value.file)
    ensures r == Success(StreamUpload) <==> file.ReaderValue?
    ensures r == Failure(DataTypeNotSupported) <==> file.OtherValue?
    ensures r.Failure? && r.error.Panic? <==> file.NilValue? || file.NamedStringValue?
  {
    match file
    case StringValue(s) => UploadBasedOnFilePath(config, s, lstat)
    case NamedStringValue(typeName, _) =>
      Failure(Panic("interface conversion: interface {} is " + typeName + ", not string"))
    case NilValue => Failure(Panic("runtime error: invalid memory address or nil pointer dereference"))
    case ReaderValue => Success(StreamUpload)
    case OtherValue => Failure(DataTypeNotSupported)
  }

  /** A path whose extension is not allowed is refused whatever the stat would say. */
  lemma RejectedBeforeStat<V>(config: UploadConfiguration<V>, path: string, s1: StatOutcome, s2: StatOutcome)
    requires !Classifier.IsSupported(config.fileTypeSupported, Paths.Extension(path))
    ensures UploadBasedOnFilePath(config, path, s1) == UploadBasedOnFilePath(config, path, s2) == Failure(InvalidMimeType)
  {
  }

  /** A regular file or a directory of an allowed extension is uploaded whatever its size. */
  lemma RegularFilesAndDirectoriesPassSizeCheck<V>(config: UploadConfiguration<V>, path: string, info: FileInfo)
    requires Classifier.IsSupported(config.fileTypeSupported, Paths.Extension(path))
    requires info.kind == Regular || info.kind == Directory
    ensures UploadBasedOnFilePath(config, path, Stat(info)).Success?
  {
  }

  /** Within the limit, any kind of file of an allowed extension is uploaded. */
  lemma SmallFilesPassSizeCheck<V>(config: UploadConfiguration<V>, path: string, info: FileInfo)
    requires Classifier.IsSupported(config.fileTypeSupported, Paths.Extension(path))
    requires !ExceedsMaxAssetSize(info.size, config.maxAssetSize)
    ensures UploadBasedOnFilePath(config, path, Stat(info)).Success?
  {
  }

  /**
    The default allow-list holds "", so under the defaults a path without an
    extension is never refused as an invalid MIME type.
  */
  lemma DefaultsAdmitExtensionlessPaths<V>(path: string, lstat: StatOutcome)
    requires Paths.Extension(path) == []
    ensures UploadBasedOnFilePath(Defaults<V>(), path, lstat) != Failure(InvalidMimeType)
  {
    Classifier.DefaultAllowListContents();
  }

  /** Under the defaults exactly the extensions of the folder table and "" are admitted. */
  lemma DefaultsAdmitListedExtensions<V>(path: string, lstat: StatOutcome)
    ensures UploadBasedOnFilePath(Defaults<V>(), path, lstat) != Failure(InvalidMimeType) <==>
              Paths.Extension(path) == [] || Paths.Extension(path) in Classifier.ExtensionMap()
  {
    Classifier.DefaultAllowListContents();
  }

  /** Under the defaults the size limit is 4096 MiB, that is 4 GiB. */
  lemma DefaultLimitIsFourGiB<V>(size: int)
    ensures ExceedsMaxAssetSize(size, Defaults<V>().maxAssetSize) <==> size > 4 * 1024 * 1024 * 1024
  {
  }

  /** The names the path branch derives from "photos/cat.png". */
  lemma CatPngNames()
    ensures Paths.Extension("photos/cat.png") == "png"
    ensures Paths.Base("photos/cat.png") == "cat.png"
  {
    Paths.ExtensionAfterDot("photos/cat.png", 3);
    Paths.BaseOfEntry("photos", "cat.png");
    assert "photos" + "/" + "cat.png" == "photos/cat.png";
  }

  /** A regular "photos/cat.png" is uploaded as "cat.png" into "images". */
  lemma UploadCatPng<V>(size: int)
    ensures UploadBasedOnFilePath(Defaults<V>(), "photos/cat.png", Stat(FileInfo(size, Regular)))
         == Success(PathUpload("photos/cat.png", UploadParams("cat.png", Classifier.Images, map[])))
  {
    CatPngNames();
    Classifier.DefaultAllowListIsCaseSensitive();
    Classifier.PngIsImage();
    RegularFilesAndDirectoriesPassSizeCheck(Defaults<V>(), "photos/cat.png", FileInfo(size, Regular));
  }

  /** The allow-list is case-sensitive: "photo.PNG" is refused under the defaults. */
  lemma UploadUpperCasePngRefused<V>(lstat: StatOutcome)
    ensures UploadBasedOnFilePath(Defaults<V>(), "photo.PNG", lstat) == Failure(InvalidMimeType)
  {
    Paths.ExtensionAfterDot("photo.PNG", 3);
    Classifier.DefaultAllowListIsCaseSensitive();
  }
}
