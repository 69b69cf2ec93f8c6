/**
  The extension tables of the uploader: which logical folder an extension is
  routed to, and whether an allow-list admits an extension.
*/
module Classifier {

  const ImageExtensions: seq<string> := ["jpg", "jpeg", "png", "gif", "svg", "ico"]
  const VideoExtensions: seq<string> := ["mp4", "webm", "ogg", "ogv", "avi", "mov"]
  const AudioExtensions: seq<string> := ["mp3", "wav", "ogg", "oga", "m4a"]
  /** "csv" is listed twice, as in documentExtensions. */
  const DocumentExtensions: seq<string> := [
    "pdf", "doc", "docx", "xls", "xlsx", "odf", "ppt", "pptx",
    "txt", "rtf", "csv", "odt", "html", "htm", "xml", "json", "yaml", "js", "yml",
    "md", "markdown", "csv", "tsv", "css", "less", "scss", "sass", "styl", "stylus"
  ]

  const Audio := "audio"
  const Images := "images"
  const Videos := "videos"
  const Documents := "documents"
  const Others := "others"

  /** The five logical folders an asset can be routed to. */
  const Folders: set<string> := {Audio, Images, Videos, Documents, Others}

  /** The static extension -> folder table; "ogg" is an audio extension here. */
  function ExtensionMap(): map<string, string> {
    map[
      "mp3" := Audio, "wav" := Audio, "ogg" := Audio, "oga" := Audio, "m4a" := Audio,
      "jpg" := Images, "jpeg" := Images, "png" := Images, "gif" := Images,
      "svg" := Images, "ico" := Images,
      "mp4" := Videos, "webm" := Videos, "ogv" := Videos, "avi" := Videos, "mov" := Videos,
      "pdf" := Documents, "doc" := Documents, "docx" := Documents, "xls" := Documents,
      "xlsx" := Documents, "odf" := Documents, "ppt" := Documents, "pptx" := Documents,
      "txt" := Documents, "rtf" := Documents, "csv" := Documents, "odt" := Documents,
      "html" := Documents, "htm" := Documents, "xml" := Documents, "json" := Documents,
      "yaml" := Documents, "js" := Documents, "yml" := Documents, "md" := Documents,
      "markdown" := Documents, "tsv" := Documents, "css" := Documents, "less" := Documents,
      "scss" := Documents, "sass" := Documents, "styl" := Documents, "stylus" := Documents
    ]
  }

  /**
    getLogicalFolderBasedOnExtension: the folder the table gives the
    extension (looked up exactly as given), "others" for any extension the
    table does not list.
  */
  function LogicalFolder(ext: string): (folder: string)
    ensures folder in Folders
    ensures ext in ExtensionMap() ==> folder == ExtensionMap()[ext]
    ensures folder == Others <==> ext !in ExtensionMap()
  {
    if ext in ExtensionMap() then ExtensionMap()[ext] else Others
  }

  /**
    A reference routing written from the four extension lists alone, audio
    taking precedence.
  */
  function FolderByLists(ext: string): string {
    if ext in AudioExtensions then Audio
    else if ext in ImageExtensions then Images
    else if ext in VideoExtensions then Videos
    else if ext in DocumentExtensions then Documents
    else Others
  }

  /** Every audio extension is routed to "audio". */
  lemma AudioExtensionsRouted(ext: string)
    requires ext in AudioExtensions
    ensures LogicalFolder(ext) == Audio
  {
    assert ext in ExtensionMap() && ExtensionMap()[ext] == Audio;
  }

  /** Every image extension is routed to "images". */
  lemma ImageExtensionsRouted(ext: string)
    requires ext in ImageExtensions
    ensures LogicalFolder(ext) == Images
  {
  }

  /** Every video extension but "ogg" is routed to "videos". */
  lemma VideoExtensionsRouted(ext: string)
    requires ext in VideoExtensions && ext != "ogg"
    ensures LogicalFolder(ext) == Videos
  {
  }

  /** Every document extension is routed to "documents". */
  lemma DocumentExtensionsRouted(ext: string)
    requires ext in DocumentExtensions
    ensures LogicalFolder(ext) == Documents
  {
  }

  /** An extension on none of the four lists is routed to "others". */
  lemma UnlistedExtensionsRouted(ext: string)
    requires ext !in AudioExtensions && ext !in ImageExtensions
    requires ext !in VideoExtensions && ext !in DocumentExtensions
    ensures LogicalFolder(ext) == Others
  {
    if ext in ExtensionMap() {
      DefaultAllowListContents();
      assert false;
    }
  }

  /** The table routes every extension as the four lists do, audio first. */
  lemma LogicalFolderFollowsLists(ext: string)
    ensures LogicalFolder(ext) == FolderByLists(ext)
  {
    if ext in AudioExtensions {
      AudioExtensionsRouted(ext);
    } else if ext in ImageExtensions {
      ImageExtensionsRouted(ext);
    } else if ext in VideoExtensions {
      VideoExtensionsRouted(ext);
    } else if ext in DocumentExtensions {
      DocumentExtensionsRouted(ext);
    } else {
      UnlistedExtensionsRouted(ext);
    }
  }

  /** "ogg" is listed both as a video and as an audio extension. */
  lemma OggIsListedTwice()
    ensures "ogg" in VideoExtensions && "ogg" in AudioExtensions
  {
  }

  /** The table sends "ogg" to "audio". */
  lemma OggIsAudio()
    ensures LogicalFolder("ogg") == Audio
  {
    assert "ogg" in ExtensionMap() && ExtensionMap()["ogg"] == Audio;
  }

  /** "png" is an image extension. */
  lemma PngIsImage()
    ensures LogicalFolder("png") == Images
  {
    assert "png" in ExtensionMap() && ExtensionMap()["png"] == Images;
  }

  /** The lookup is case-sensitive: "PNG" goes to "others". */
  lemma UpperCasePngIsOther()
    ensures LogicalFolder("PNG") == Others
  {
    assert "PNG" !in ExtensionMap();
  }

  /** slices.Contains. */
  function Contains(s: seq<string>, x: string): (found: bool)
    ensures found <==> x in s
  {
    if s == [] then false else s[0] == x || Contains(s[1..], x)
  }

  /**
    isFileSupported: an empty allow-list admits every extension, any other
    admits exactly the extensions it lists verbatim.
  */
  function IsSupported(allowList: seq<string>, ext: string): (ok: bool)
    ensures ok <==> allowList == [] || ext in allowList
  {
    |allowList| == 0 || Contains(allowList, ext)
  }

  /**
    The allow-list a new manager starts with: make([]string, 1) leaves one
    empty string in front of the appended image, audio, video and document
    extensions.
  */
  const DefaultAllowList: seq<string> :=
    [""] + ImageExtensions + AudioExtensions + VideoExtensions + DocumentExtensions

  /**
    The default allow-list is not empty, begins with "", and admits the
    empty extension and exactly the extensions the folder table lists.
  */
  lemma DefaultAllowListContents()
    ensures |DefaultAllowList| == 47 && DefaultAllowList[0] == ""
    ensures IsSupported(DefaultAllowList, "")
    ensures forall ext :: ext in ExtensionMap() ==> IsSupported(DefaultAllowList, ext)
    ensures forall ext :: IsSupported(DefaultAllowList, ext) ==> ext == "" || ext in ExtensionMap()
  {
  }

  /** Under the defaults the allow-list is as case-sensitive as the table. */
  lemma DefaultAllowListIsCaseSensitive()
    ensures IsSupported(DefaultAllowList, "png")
    ensures !IsSupported(DefaultAllowList, "PNG")
  {
    DefaultAllowListContents();
    assert "PNG" !in ExtensionMap();
  }
}
