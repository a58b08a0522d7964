# imageup in Dafny

imageup is a small HTTP service. It takes one uploaded image and a list of
size configurations, and stores one derivative per size in a Google Cloud
Storage bucket. Each derivative is corrected for its EXIF orientation,
resized with Fill or Fit, and given a time-and-UUID name and a public URL.
The service also deletes stored objects by name. This project models the
service's decision logic and proves what it promises:

- `naming.dfy` and `stamp.dfy`: how an object is named, its public URL and
  its Cache-Control value. This is the MIME-to-format table, `FileName` and
  its timestamp, the URL built from `BUCKET_ID`, and the value built from
  `CACHE_MAX_AGE`.
- `orientation.dfy` and `geometry.dfy`: `GetOrientation` over the result
  of EXIF decoding (tag 0x0112 of the Exif standard, JEITA CP-3451 /
  CIPA DC-008), and the orientation switch and Fill/Fit choice of
  `Manipulate`. A picture is a grid with the usual flips and rotations.
  Each switch case is checked against the meaning the Exif standard gives
  its code.
- `storage.dfy` and `upload.dfy`: `UploadFile` as a step-by-step method
  over a bucket and an object writer. It is proved against the function
  `UploadOutcome`, which gives what one upload returns and stores. Its
  writing half, from the creation of the writer to the last close, is
  the method `WriteObject`.
- `handler.dfy` and `text.dfy`: `handleRequest` and `removeAll`. This
  covers method dispatch, DELETE (split on commas, trim, one removal
  request per name, 200), and POST. POST validates the request, uploads
  one derivative per size in order and rolls back at the first failure.
- `config.dfy`: `GetEnv` and `ImageConfig`.

The environment is a map from names to values. The clock reading, the UUID
and what storage and the encoder do are parameters. A POST receives one
`Attempt` per turn. An attempt records whether the seek succeeds, the clock
reading, the UUID, whether encoding succeeds and whether the backend
accepts the object. Removal requests are appended to a log in the bucket.
`Remaining` is the set of objects left once every requested removal has
run.

## Model

| member | source | states |
|---|---|---|
| Config.GetEnv | imageup.go:50-55 | a key that is set yields its value, even an empty one; only an unset key yields the fallback |
| Naming.FormatOf | gcp.go:133-139 | "image/png" gives PNG, "image/gif" gives GIF, and every other MIME type gives JPEG: "image/jpeg", "image/jpg", and also any unlisted type, because a map miss yields the zero Format, which is JPEG |
| Naming.FileName | gcp.go:23-35 | a name exactly for JPEG and PNG, 24 characters plus the UUID, built on the timestamp as written (12-hour hour); any other format, GIF included, gives the error naming that format |
| Naming.FileNameRoundTrip | gcp.go:23-31 | a name as written reads back as its UUID, its format and the clock reading with the hour on the 12-hour clock: the date, minute and second are kept, whether the hour was before or after noon is not |
| Naming.SortableFileName | gcp.go:23-35 | FileName with the corrected (24-hour) timestamp: the same success and error cases and the same length |
| Naming.SortableFileNameRoundTrip | gcp.go:23-31 | a corrected name reads back as exactly the clock reading, the UUID and the format it was made from |
| Naming.FileNamesCollide | gcp.go:23-31 | as written, the same UUID and format twelve hours apart on one day give the same name |
| Naming.FileNameContainsExtension | gcp_test.go:20-35 | a JPEG name holds "jpg" and a PNG name holds "png" |
| Naming.GifHasNoName | gcp.go:32-33 | a "image/gif" upload maps to GIF, and FileName refuses GIF |
| Naming.NamesSortByTime | gcp.go:24-31 | with the corrected timestamp (SortableFileName), a name made at an earlier second sorts before one made later, whatever the UUIDs and formats |
| Naming.BucketOf | gcp.go:148 | the bucket is BUCKET_ID as set, even when empty, and "default" only when BUCKET_ID is unset |
| Naming.PublicURL | gcp.go:146-150 | the URL is the storage host, the bucket, "/" and the name, and the name can be read back from it |
| Naming.PublicURLInjective | gcp.go:146-150 | two objects of one bucket share a URL only if they share a name |
| Naming.CacheControl | gcp.go:177-180 | the value starts with "public, max-age=" and ends with CACHE_MAX_AGE, or is "public, max-age=86400" when that is unset |
| Stamp.Hour12 | gcp.go:25 | Go's "03" layout element prints the hour on a 12-hour clock, 1 to 12, congruent to the hour modulo 12 |
| Stamp.Timestamp12 | gcp.go:25 | the timestamp as written, with layout "2006-01-02-03-04-05": 19 characters |
| Stamp.Timestamp12RoundTrip | gcp.go:25 | the timestamp as written reads back as the date, the hour on the 12-hour clock, the minute and the second |
| Stamp.Timestamp | gcp.go:25 | the corrected timestamp, with layout "2006-01-02-15-04-05": 19 characters from which the clock reading reads back |
| Stamp.TimestampRoundTrip | gcp.go:25 | the six zero-padded fields parse back to the clock reading |
| Stamp.TimestampSorts | gcp.go:25 | corrected timestamps compare as strings exactly as the clock readings compare in time |
| Stamp.TimestampInjective | gcp.go:25 | distinct clock readings give distinct corrected timestamps |
| Stamp.TimestampPrefix12 | gcp.go:25 | two as-written timestamps of one day compare by their 12-hour field first |
| Stamp.Timestamp12Collides | gcp.go:25 | as written, 01:00:00 and 13:00:00 of one day give the same timestamp |
| Stamp.Timestamp12Unsorted | gcp.go:25 | as written, 13:00:00 sorts before 12:00:00 of the same day |
| Geometry.FlipH | gcp.go:86 | mirror left to right: same dimensions, column x taken from column width-1-x |
| Geometry.FlipV | gcp.go:93 | mirror top to bottom: same dimensions, row y taken from row height-1-y |
| Geometry.Rotate180 | gcp.go:88 | half turn: same dimensions, each pixel taken from the opposite corner |
| Geometry.Rotate90 | gcp.go:99-101 | quarter turn counter-clockwise: width and height swap, row y column x taken from row x column width-1-y |
| Geometry.Rotate270 | gcp.go:94-96 | quarter turn clockwise: width and height swap, row y column x taken from row height-1-x column y |
| Geometry.QuarterTurnsCancel | gcp.go:94-101 | Rotate90 and Rotate270 undo each other |
| Geometry.SelfInverse | gcp.go:86-93 | FlipH, FlipV and Rotate180 each undo themselves |
| Geometry.HalfTurn | gcp.go:86-101 | both flips together are a half turn, and so are two quarter turns |
| Orientation.GetOrientation | gcp.go:39-50 | unreadable metadata reads as 1 with no error; decoded metadata without the tag reads as 1 with an error; a present tag gives its first integer unchecked, or 0 when it is not an integer |
| Orientation.TagInt | gcp.go:48 | `tag.Int(0)` with its error dropped: a tag decoded as integers gives its first value, a tag of any other type gives 0 |
| Orientation.AnyCodeGetsThrough | gcp.go:48-49 | every integer, including codes outside 1..8, comes out of GetOrientation without an error |
| Orientation.Upright | gcp.go:84-102 | the upright image for each code: codes 5 to 8 swap width and height, the other codes keep them, and codes outside 2..8 leave the image as stored |
| Orientation.NoMetadataNoTransform | gcp.go:40-47 | missing metadata or a missing tag leaves the image as stored |
| Orientation.CorrectionInvertible | gcp.go:84-102 | every correction is undone by the correction of its inverse code: 6 and 8 undo each other, every other code undoes itself |
| Orientation.Code2 | gcp.go:85-86 | the case for code 2, FlipH, gives the upright image |
| Orientation.Code3 | gcp.go:87-88 | the case for code 3, Rotate180, gives the upright image |
| Orientation.Code4 | gcp.go:89-91 | the case for code 4, FlipH then Rotate180, gives the upright image |
| Orientation.Code5 | gcp.go:92-94 | the case for code 5, FlipV then Rotate270, gives the upright image |
| Orientation.Code6 | gcp.go:95-96 | the case for code 6, Rotate270, gives the upright image |
| Orientation.Code7 | gcp.go:97-99 | the case for code 7, FlipV then Rotate90, gives the upright image |
| Orientation.Code8 | gcp.go:100-101 | the case for code 8, Rotate90, gives the upright image |
| Orientation.Manipulate | gcp.go:77-118 | a decode failure is an error and nothing else runs; otherwise the result is the upright image, resized by a centred Fill exactly when Fill is set (Fit otherwise), at the configured width and height |
| Storage.Remaining | gcp.go:64-74 | a name remains exactly when it is stored and no removal was requested for it |
| Storage.Bucket.RequestRemoval | imageup.go:68 | the request is appended to the removal log, and the objects are unchanged until it runs |
| Storage.Writer.constructor | gcp.go:169-171 | a new writer for a name, with no fields set and nothing encoded |
| Storage.Writer.Encode | gcp.go:182 | the encoder's outcome is returned, and on success the encoded image becomes the writer's content; the fields are unchanged |
| Storage.Writer.Close | gcp.go:184-192 | whenever the backend accepts the close, the object is committed under the writer's name with its fields and whatever content it holds, none at all after a failed Encode; otherwise nothing changes |
| Upload.UploadFile | gcp.go:131-201 | result and new bucket as UploadOutcome gives them: the bucket changes as AfterUpload says for that outcome, and no removal is requested |
| Upload.WriteObject | gcp.go:169-192 | a public writer with the given metadata: a failed Encode is reported with what its close committed, a refused close after a good Encode is the close error, and any accepted close commits the object, with the image only if Encode succeeded |
| Upload.LeftoverIff | gcp.go:182-186 | a failed upload leaves an object behind exactly when Encode failed after the file was named, opened and decoded and the backend accepted the unchecked close; that object is public, under the upload's name, with its Content-Type and Cache-Control and no image |
| Upload.GifNeverUploads | gcp.go:137-144 | a GIF upload fails with the unsupported-format error before anything is opened or written |
| Upload.UploadSucceedsIff | gcp.go:141-192 | an upload succeeds exactly when the format is JPEG or PNG, the file opens and decodes, encoding succeeds and the backend accepts the object |
| Upload.OrientationNeverAborts | gcp.go:159-160 | the orientation metadata never changes whether an upload succeeds, its error or the config it returns |
| Upload.UploadedShape | gcp.go:194-200 | the returned config has the fresh name, which reads back as the attempt's UUID, the format and the clock reading with its hour on the 12-hour clock; the public URL of that name; the input's name, width and height; and Fill false. The stored object is public, with the declared Content-Type, the configured Cache-Control and the upright image |
| Text.Split | imageup.go:78 | strings.Split on one character: at least one piece, and no piece holds the separator |
| Text.JoinSplit | imageup.go:78 | joining the pieces with the separator gives back the input |
| Text.SplitCount | imageup.go:78 | there is one more piece than there are separators |
| Text.TrimLeft | imageup.go:79 | a suffix of the input that does not start with white space, with only white space cut |
| Text.TrimRight | imageup.go:79 | a prefix of the input that does not end with white space, with only white space cut |
| Text.TrimSpaceTrims | imageup.go:79 | TrimSpace gives a slice of the input that neither starts nor ends with white space, with only white space outside it |
| Text.TrimSpaceIdempotent | imageup.go:79 | trimming twice is trimming once |
| Handler.RemoveAll | imageup.go:66-70 | one removal request per entry, in order, and the objects are unchanged |
| Handler.RemovalList | imageup.go:78-79 | one name per comma-separated piece, each piece trimmed |
| Handler.RemovalListShape | imageup.go:78-79 | as many names as commas plus one, empty pieces included, so an empty value asks for one empty name |
| Handler.RequestEach | imageup.go:78-80 | one removal request per name, in order |
| Handler.HandleDelete | imageup.go:77-85 | one removal request per name of the list, in order, and always 200 "file(s) queued to be removed" |
| Handler.FirstFailure | imageup.go:125-147 | the first failed turn, or the number of turns: every earlier turn succeeded |
| Handler.UploadStep | imageup.go:128-138 | a failed seek fails the turn and nothing is stored; otherwise the turn is UploadFile, and the bucket changes as AfterUpload says |
| Handler.RollbackRestores | imageup.go:139-146 | all or nothing for the turns before the failed one: after their removals run, what remains is what remained before the batch, unless a new name was already a remaining object |
| Handler.RollbackKeepsLeftover | imageup.go:139-146 | the exception: when the failed turn left an object behind, what remains after the rollback is what remained before the batch plus that object's name |
| Handler.SuccessMatchesRequest | imageup.go:122-152 | when every turn succeeds there is one config per size, in the order requested, with that size's name, width and height, a name that reads back as its own attempt's UUID and clock reading (12-hour hour), and the public URL of that name |
| Handler.UploadEach | imageup.go:122-150 | the turns run in order and stop at the first failure: the configs of the turns before it are returned in order, along with that failure; the bucket holds exactly their objects, plus the failed turn's leftover if it has one, and no removal has been requested yet |
| Handler.HandlePost | imageup.go:86-152 | no file gives 400; sizes that do not parse, or no sizes, give 406 with code 400, and storage is untouched in these cases. Otherwise, if every turn succeeds, the answer is 201 with the returned configs and nothing is removed. At the first failed turn, removal is requested for exactly the files uploaded earlier, in order, the failed turn's leftover (if any) stays, and the answer is 400 "error seeking file" or "unknown error while uploading", with no list |
| Handler.HandleRequest | imageup.go:73-161 | DELETE gets HandleDelete's contract and POST gets HandlePost's, in full; any other method gets 405 "fail" and storage is untouched |

## Left out

- The Google Cloud Storage client (`configureStorage`, the bucket handle,
  `Delete`) is a bucket object holding a map of objects and a log of
  removal requests. Whether a removal succeeds is never seen by the caller,
  so the model does not decide it. `Remaining` says what is left if every
  removal runs.
- The goroutines of `removeAll` and of DELETE are not modelled as
  concurrent. Each removal is a request appended to the log in issue
  order. The order in which the deletions actually run is not modelled.
- Pixel resampling in `imaging.Fill` and `imaging.Fit` (Lanczos, floating
  point) is not modelled. A resize is kept as a symbolic operation on the
  upright picture.
- EXIF and image decoding (`exif.Decode`, `x.Get`, `tag.Int`,
  `imaging.Decode`) are inputs. Their results are an `ExifData` value and
  an optional picture. `GetDimensions` is not part of this model. The core
  never calls it.
- `uuid.NewV4` and `time.Now` are parameters of each attempt. Names are
  unique only as far as the UUIDs are. RollbackRestores therefore assumes
  that no new name was already a remaining object.
- Clock readings are limited to years 0 to 9999, the range Go's "2006"
  layout element prints as four digits.
- Text.TrimSpace works on characters with Go's `unicode.IsSpace` set. The
  byte-level handling of invalid UTF-8 is not modelled.
- HTTP and JSON plumbing is reduced to the status code and the payload
  chosen: `jsonResponse`, `FormFile`, the CORS header, `json.Unmarshal` of
  "sizes" (an input, or None when it fails), `ListenAndServe` and `main`.
- `seekBack` inside UploadFile (gcp.go:162) is left out. Its error is
  ignored there, and the file is seen as the same contents after it. The
  seek of the POST loop (imageup.go:128) is modelled as one way a turn can
  fail.
- `defer f.Close()` and the file handle's lifetime are not modelled.
- After a failed Encode, gcp.go:184 closes the writer and ignores the
  result. When the backend accepts that close, the object is committed
  but never enters the list of uploaded files, so the POST rollback does
  not remove it. All or nothing therefore holds only for the turns before
  the failed one (RollbackRestores, RollbackKeepsLeftover). What a failing
  encoder wrote before failing is not modelled: such an object has no
  content.
- An Exif tag decoded as integers always holds at least one value here.
  An integer tag with no values is not modelled.
- The two Go files are divergent drafts. imageup.go:138 calls
  `UploadFile(file, conf, handle)` and imageup.go:68 calls `RemoveFile`,
  while gcp.go declares `UploadFile(config, fh)` and `RemoveFileFromGCP`.
  The handler is modelled against the gcp.go UploadFile, preceded by the
  loop's seek.
- The code has no check that width and height are positive, so the model
  has none either. Zero and negative sizes pass through to the symbolic
  resize.
- `examples/node/imageup.js` is not part of this model. It is a network
  client.

## Findings

| source | as written | input that shows it | evidently intended | confidence | as-written member | corrected member |
|---|---|---|---|---|---|---|
| gcp.go:25 | the layout "2006-01-02-03-04-05" prints the hour with Go's "03" element, a 12-hour clock with no AM/PM marker | 2024-01-01 01:00:00 and 13:00:00 both give "2024-01-01-01-00-00"; 13:00:00 gives "…-01-00-00", which sorts before noon's "…-12-00-00" | a 24-hour hour ("15"), so that names record the time unambiguously and sort as they were made; UploadFile keeps the layout as written, and SortableFileName is the corrected name | not executed | Naming.FileNamesCollide | Naming.NamesSortByTime |
