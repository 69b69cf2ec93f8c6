# kloudinary upload manager — a Dafny model

kloudinary wraps the Cloudinary upload API in an `AssetUploadManager`. For
each file path, the manager checks the path's extension against an
allow-list. It then checks the file's stat record and size, and uploads the
file under its base name into a logical folder ("audio", "images", "videos",
"documents" or "others") chosen from the extension. A stream input instead
skips the allow-list, stat and size checks: it is uploaded under a random
UUID into a folder chosen by sniffing its first bytes. Every upload carries
the manager's metadata map.

This project models the sequential core of that manager and of its generic
helpers:

- `Classifier` (classifier.dfy):
  - the four extension lists and the extension → folder table;
  - the folder lookup with its "others" fallback;
  - the allow-list test;
  - the default allow-list that the constructor builds.
- `Metadata` (metadata.dfy): `Meta`, a class over a map whose keys `Add`
  and `Remove` lower-case. Both update the map in place.
- `Paths` (paths.dfy): `filepath.Base` and `filepath.Ext` on '/'-separated
  paths, as the path branch uses them.
- `Uploader` (uploader.dfy):
  - the manager's configuration and its defaults;
  - `uploadBasedOnFilePath` as a decision. It takes the path and the outcome
    of `os.Lstat` on it, and returns either an error or the upload request
    handed to the backend;
  - the dispatch of `UploadSingleFile` on the dynamic shape of its argument.
- `Utils` (utils.dfy):
  - `Map` and `Filter` as loops that append to a result, each proved against
    a specification;
  - `ExtractFromMap` as a loop that writes in place into a map shared by
    reference (`MapRef`).
- `Wrappers` (wrappers.dfy): `Option` and `Result`.

Behaviour of the code as written that the model keeps:

- The default allow-list starts with an empty string. `make([]string, 1)`
  leaves one element before the appends. So under the defaults, a path with
  no extension passes the allow-list check (`DefaultsAdmitExtensionlessPaths`).
- The default `MaxAssetSize` is 4096, and the size check compares it with
  the size in MiB. The default limit is therefore 4 GiB, not the 4 MB the
  comment beside it announces (`DefaultLimitIsFourGiB`).
- The size check refuses an oversized file only when the file is neither a
  directory nor a regular file. An oversized regular file or directory is
  uploaded. The model keeps this as written
  (`RegularFilesAndDirectoriesPassSizeCheck`).
- "ogg" appears in both the video and the audio lists. The table routes it
  to "audio".
- Both the folder lookup and the allow-list are case-sensitive: "PNG" is
  neither admitted by default nor routed to "images".
- The doc comment of `UploadSingleFile` (cloudinary.go:179-180) says the
  input can be a byte slice or a string. A `[]byte` is not an `io.Reader`,
  so the code refuses it with "data type not supported for interface"
  (cloudinary.go:193-195). The model follows the code: a byte slice is an
  `OtherValue`.
- The extension is taken with `filepath.Ext` on the whole path, not on the
  base name. The two differ only for paths that end in a separator, which
  have no extension.

## Model

| member | source | states |
|---|---|---|
| Classifier.LogicalFolder | cloudinary.go:171-177 | the folder is always one of the five logical folders; a listed extension gets exactly its table entry; the result is "others" exactly when the table does not list the extension |
| Classifier.AudioExtensionsRouted | cloudinary.go:27-81 | every extension on the audio list is routed to "audio" |
| Classifier.ImageExtensionsRouted | cloudinary.go:27-81 | every extension on the image list is routed to "images" |
| Classifier.VideoExtensionsRouted | cloudinary.go:27-81 | every extension on the video list except "ogg" is routed to "videos" |
| Classifier.DocumentExtensionsRouted | cloudinary.go:27-81 | every extension on the document list is routed to "documents" |
| Classifier.UnlistedExtensionsRouted | cloudinary.go:27-81 | an extension on none of the four lists is routed to "others" |
| Classifier.LogicalFolderFollowsLists | cloudinary.go:27-81 | the table agrees, for every extension, with a routing written from the four lists with audio taking precedence |
| Classifier.OggIsListedTwice | cloudinary.go:29-30 | "ogg" is on both the video and the audio list |
| Classifier.OggIsAudio | cloudinary.go:39 | "ogg" is routed to "audio" |
| Classifier.PngIsImage | cloudinary.go:44 | "png" is routed to "images" |
| Classifier.UpperCasePngIsOther | cloudinary.go:172 | the lookup is exact: "PNG" is routed to "others" |
| Classifier.Contains | cloudinary.go:166 | slices.Contains is true exactly when the element is in the slice |
| Classifier.IsSupported | cloudinary.go:165-167 | an extension is admitted exactly when the allow-list is empty or holds it verbatim |
| Classifier.DefaultAllowListContents | cloudinary.go:135-141 | the default allow-list has 47 entries, begins with "", admits "", admits every extension of the table, and admits nothing else |
| Classifier.DefaultAllowListIsCaseSensitive | cloudinary.go:166 | under the defaults "png" is admitted and "PNG" is not |
| Metadata.ToLower | cloudinary.go:92 | lowering keeps the length and lowers each character |
| Metadata.ToLowerIsLower | cloudinary.go:92-97 | a lowered key has no upper-case letter, lowering twice is lowering once, and a key is unchanged by lowering exactly when it has no upper-case letter |
| Metadata.Meta.constructor | cloudinary.go:145 | a new Meta has no entries |
| Metadata.Meta.Has | cloudinary.go:86-89 | has is true exactly when the key, as given, is stored |
| Metadata.Meta.Add | cloudinary.go:91-94 | the new map is the old one with the value under the lower-cased key; keys stay lower-case |
| Metadata.Meta.Remove | cloudinary.go:96-101 | the new map is the old one without the lower-cased key; keys stay lower-case |
| Metadata.AddOverwrites | cloudinary.go:91-94 | after Add the lower-cased key holds the value, overwriting any earlier one, and every other key keeps its presence and value |
| Metadata.AddKeepsKeysLowerCase | cloudinary.go:92-93 | Add keeps every stored key lower-case |
| Metadata.RemoveDeletes | cloudinary.go:96-101 | after Remove the lower-cased key is absent, every other key keeps its presence and value, and Remove of an absent key changes nothing |
| Metadata.RemoveIsIdempotent | cloudinary.go:96-101 | removing a key twice is removing it once |
| Metadata.RemoveUndoesAdd | cloudinary.go:91-101 | Remove with any spelling that lowers like the added key leaves the original map without that key |
| Metadata.AddFooRemoveUpperFoo | cloudinary.go:91-101 | Add("Foo", v) then Remove("FOO") leaves no "foo" key; Add stores "foo" and not "Foo" |
| Paths.TrimTrailingSeparators | cloudinary.go:296 | the result is a prefix of the path, everything dropped is a separator, and it does not end in one |
| Paths.LastElement | cloudinary.go:296 | the result is the longest suffix free of separators |
| Paths.LastElementIsLongest | cloudinary.go:296 | no separator-free suffix is longer than the last element |
| Paths.Base | cloudinary.go:296 | the base name is never empty and is "." for the empty path; it is "/" exactly when the path consists of separators only, and otherwise it is the last element of the path with its trailing separators dropped |
| Paths.BaseOfName | cloudinary.go:296 | a single element, followed by any number of separators, is its own base name |
| Paths.BaseOfEntry | cloudinary.go:296 | the base name of dir/name is name |
| Paths.Ext | cloudinary.go:298 | the result is a suffix of the path, is empty or starts with '.', has no further '.' or separator, and is empty only when every '.' of the path is followed by a separator |
| Paths.Extension | cloudinary.go:298 | the dot-less extension is a suffix of the path free of '.' and of separators |
| Paths.ExtensionOfBase | cloudinary.go:296-298 | for a path that does not end in a separator, the extension is a proper suffix of the base name, preceded there by '.' when it is not empty |
| Paths.ExtAfterDot | cloudinary.go:298 | when a '.' precedes a final run free of '.' and separators, Ext is that '.' and that run |
| Paths.ExtensionAfterDot | cloudinary.go:298 | in the same case the dot-less extension is that run |
| Uploader.AssetUploadManager.constructor | cloudinary.go:134-147 | a new manager has the default configuration: the default allow-list, a limit of 4096, a one-minute timeout, one concurrent upload and fresh empty metadata |
| Uploader.NewAssetUploadManager | cloudinary.go:128-161 | fails with the client's error exactly when the client cannot be made; otherwise returns a fresh manager with the defaults |
| Uploader.UploadBasedOnFilePath | cloudinary.go:293-329 | "invalid MIME type" exactly when the extension is not admitted; a stat error, passed on, exactly when the extension is admitted and the stat fails; "max asset size exceeded" exactly when the extension is admitted and an over-limit file is neither a directory nor a regular file; otherwise a path upload with the base name as public id, the extension's folder and the manager's metadata |
| Uploader.UploadSingleFile | cloudinary.go:181-199 | a string takes the path branch; only a string can lead to a path upload; only a reader leads to the stream branch; "data type not supported" exactly for a value that is neither; a nil or a named string type panics |
| Uploader.RejectedBeforeStat | cloudinary.go:298-306 | an extension that is not admitted is refused whatever the stat would report |
| Uploader.RegularFilesAndDirectoriesPassSizeCheck | cloudinary.go:311-318 | a regular file or directory with an admitted extension is uploaded whatever its size |
| Uploader.SmallFilesPassSizeCheck | cloudinary.go:311-318 | any file within the limit with an admitted extension is uploaded |
| Uploader.DefaultsAdmitExtensionlessPaths | cloudinary.go:136-141 | under the defaults a path without an extension is never refused as an invalid MIME type |
| Uploader.DefaultsAdmitListedExtensions | cloudinary.go:136-141 | under the defaults a path passes the allow-list exactly when its extension is empty or listed in the table |
| Uploader.DefaultLimitIsFourGiB | cloudinary.go:143 | under the defaults a file exceeds the limit exactly when it is over 4 GiB |
| Uploader.UploadCatPng | cloudinary.go:296-328 | a regular "photos/cat.png" is uploaded as "cat.png" into "images" with the default (empty) metadata |
| Uploader.UploadUpperCasePngRefused | cloudinary.go:298-302 | "photo.PNG" is refused as an invalid MIME type under the defaults |
| Utils.Map | utils.go:3-9 | the result has the input's length and holds fn of each element at the same index |
| Utils.Filter | utils.go:25-33 | the result is the order-preserving selection of the elements that satisfy fn |
| Utils.FilteredIsSubsequence | utils.go:25-33 | the filtered slice is a subsequence of the input |
| Utils.FilteredSatisfies | utils.go:25-33 | the filtered slice is no longer than the input, and each of its elements satisfies fn |
| Utils.FilteredCounts | utils.go:25-33 | each element satisfying fn occurs as often as in the input; every other element is absent |
| Utils.FilteredIsIdempotent | utils.go:25-33 | filtering the result again with fn changes nothing |
| Utils.ExtractFromMap | utils.go:17-23 | data is left unchanged, also when it is the result map itself, and the result map becomes its old contents with every selected entry of data written in |
| Utils.ExtractedContents | utils.go:17-23 | each selected key holds data's value; each other key of the result keeps its prior value; no key is removed |
| Utils.ExtractedFromSelf | utils.go:17-23 | extracting from a map into itself leaves it as it was |

## Left out

- `UploadMultipleFiles` (cloudinary.go:231-271) is not modelled. Its substance is goroutines, a channel used as a semaphore, a wait group and a collector goroutine.
- The stream branch `upload` (cloudinary.go:273-291) is not modelled. It reads the stream, sniffs the content type through the filetype library, and draws a random UUID. `UploadSingleFile` returns `StreamUpload` where it would call it.
- The Cloudinary client is not modelled: `NewFromParams`, `Upload.Upload`, `Upload.Destroy` (`DestroyAsset`) and `TransformImage`. Its constructor's failure is an input of `NewAssetUploadManager`. The upload call is replaced by the request it would receive.
- `os.Lstat` is not modelled. Its outcome is an input (`StatOutcome`).
- The context, the timeout and the measured latency of an upload are not modelled. The `cld` field is not modelled either.
- `ForEach` (utils.go:11-15) is not modelled: it only runs a callback for its side effects.
- The tests of cloudinary_test.go are not modelled: they need Cloudinary credentials and the network.
- Utils.Map, Utils.Filter: the callback is a pure Dafny function. A Go callback that has side effects, or panics, is not modelled. The nil slice Go returns for an empty input is modelled as the empty sequence.
- Utils.ExtractFromMap: visits the keys in an unspecified order, as Go's `range` does. With a pure fn the final map does not depend on that order.
- Uploader.UploadBasedOnFilePath: the float comparison `float64(size)/(1024*1024) > float64(MaxAssetSize)` is modelled as the exact integer comparison `size > MaxAssetSize * 1024 * 1024`. The two agree whenever both values are exactly representable in float64, that is, below 2^53 in magnitude. float64 rounding of larger int64 values is not modelled.
- Uploader.UploadSingleFile: the Go program panics in two cases, which the model returns as a `Panic` error:
  - on a nil argument, through `reflect.TypeOf(nil).Kind()`;
  - on a value of a named string type, through the type assertion `file.(string)`.

  The panic messages are Go's. The type name in the type-assertion message is whatever name the input carries.

  Which of the other values implement `io.Reader` is given by the input's shape.
- Paths.Base, Paths.Ext: model `filepath.Base` and `filepath.Ext` for '/' as the only separator. Windows volume names and '\\' separators are not modelled.
- Utils.ExtractFromMap, Metadata.Meta.Add: Go's nil maps are not modelled. `MapRef` and `Meta` are never null. In Go, writing to a nil map panics with "assignment to entry in nil map". So `ExtractFromMap` into a nil result panics as soon as `fn` selects an entry (utils.go:20), and `Add` on a nil `Meta` panics (cloudinary.go:93). A nil `Meta` can be the zero value, or the result of a caller setting the exported `Metadata` field to nil. `has` and `Remove` on a nil `Meta` do not panic.
- Metadata.ToLower: lowers the ASCII letters only. `strings.ToLower` also maps the other Unicode upper-case letters.
- Metadata.Meta: the stored values are of one type parameter `V` rather than `interface{}`.
