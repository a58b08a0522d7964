/** Object naming and the strings UploadFile builds (gcp.go): the MIME type
    table, FileName, the public URL and the Cache-Control value. */
module Naming {
  import opened Basics
  import opened Config
  import opened Stamp

  /** imaging.Format. Its first constant, JPEG, is the zero value, which is
      what a Go map lookup yields for a key the map does not hold. */
  datatype Format = JPEG | PNG | GIF | TIFF | BMP

  /** The literal MIME type table of UploadFile. */
  const Formats: map<string, Format> :=
    map["image/png" := PNG, "image/jpeg" := JPEG, "image/jpg" := JPEG, "image/gif" := GIF]

  /** `formats[mimeType]`: PNG and GIF for exactly their MIME types, and JPEG
      for everything else, including types the table does not list. */
  function FormatOf(mime: string): (f: Format)
    ensures f == PNG <==> mime == "image/png"
    ensures f == GIF <==> mime == "image/gif"
    ensures f == JPEG <==> mime != "image/png" && mime != "image/gif"
  {
    if mime in Formats then Formats[mime] else JPEG
  }

  datatype NameError = UnsupportedFormat(format: Format)

  /** The extension FileName writes for a format, with its dot. */
  function Extension(f: Format): Option<string>
  {
    match f
    case JPEG => Some(".jpg")
    case PNG => Some(".png")
    case _ => None
  }

  /** The format an extension stands for: the inverse of Extension. */
  function FormatOfExtension(ext: string): Option<Format>
  {
    if ext == ".jpg" then Some(JPEG)
    else if ext == ".png" then Some(PNG)
    else None
  }

  /** FileName: `<timestamp>-<uid>.jpg` for JPEG, `<timestamp>-<uid>.png` for
      PNG, and an error naming the format for every other format, GIF
      included. The timestamp is the one gcp.go:25 writes, with the hour on
      the 12-hour clock. The clock reading and the UUID string are
      parameters. */
  function FileName(format: Format, now: Clock, uid: string): (r: Result<string, NameError>)
    requires now.Valid()
    ensures r.Success? <==> format == JPEG || format == PNG
    ensures r.Failure? ==> r.error == UnsupportedFormat(format)
    ensures r.Success? ==> |r.value| == |uid| + 24
  {
    match Extension(format)
    case Some(ext) => Success(Timestamp12(now) + ("-" + uid + ext))
    case None => Failure(UnsupportedFormat(format))
  }

  /** FileName with the corrected timestamp (24-hour hour), under which
      names sort in the order they were made (NamesSortByTime). */
  function SortableFileName(format: Format, now: Clock, uid: string): (r: Result<string, NameError>)
    requires now.Valid()
    ensures r.Success? <==> format == JPEG || format == PNG
    ensures r.Failure? ==> r.error == UnsupportedFormat(format)
    ensures r.Success? ==> |r.value| == |uid| + 24
  {
    match Extension(format)
    case Some(ext) => Success(Timestamp(now) + ("-" + uid + ext))
    case None => Failure(UnsupportedFormat(format))
  }

  /** What a name is made of. */
  datatype NameParts = NameParts(now: Clock, uid: string, format: Format)

  /** Reads the clock reading, the UUID and the format back out of a name. */
  function ParseName(name: string): Option<NameParts>
  {
    if |name| < 24 then None
    else
      match FormatOfExtension(name[|name| - 4..])
      case None => None
      case Some(f) => Some(NameParts(ParseTimestamp(name[..19]), name[20..|name| - 4], f))
  }

  /** A name gives back the UUID, the format, and the clock reading with its
      hour on the 12-hour clock: the date, the minute and the second are
      kept, whether the hour was before or after noon is not. */
  lemma FileNameRoundTrip(format: Format, now: Clock, uid: string)
    requires now.Valid() && FileName(format, now, uid).Success?
    ensures ParseName(FileName(format, now, uid).value) == Some(NameParts(Clock12(now), uid, format))
  {
    var name := FileName(format, now, uid).value;
    var ext := Extension(format).value;
    assert name[..19] == Timestamp12(now);
    Timestamp12RoundTrip(now);
    assert name[20..|name| - 4] == uid;
    assert name[|name| - 4..] == ext;
  }

  /** As written, two uploads with the same UUID and format twelve hours
      apart on one day get the same name. */
  lemma FileNamesCollide(format: Format, now: Clock, uid: string)
    requires now.Valid() && now.hour < 12
    requires format == JPEG || format == PNG
    ensures now.(hour := now.hour + 12).Valid()
    ensures FileName(format, now, uid) == FileName(format, now.(hour := now.hour + 12), uid)
  {
    var later := now.(hour := now.hour + 12);
    assert Hour12(later.hour) == Hour12(now.hour);
  }

  /** A corrected name gives back the clock reading, the UUID and the
      format it was made from. */
  lemma SortableFileNameRoundTrip(format: Format, now: Clock, uid: string)
    requires now.Valid() && SortableFileName(format, now, uid).Success?
    ensures ParseName(SortableFileName(format, now, uid).value) == Some(NameParts(now, uid, format))
  {
    var name := SortableFileName(format, now, uid).value;
    var ext := Extension(format).value;
    assert name[..19] == Timestamp(now);
    assert name[20..|name| - 4] == uid;
    assert name[|name| - 4..] == ext;
  }

  /** s holds t somewhere. */
  ghost predicate Contains(s: string, t: string)
  {
    exists i, j :: 0 <= i <= j <= |s| && s[i..j] == t
  }

  /** The property TestFileName checks: a JPEG name holds "jpg", a PNG name
      holds "png". */
  lemma FileNameContainsExtension(now: Clock, uid: string)
    requires now.Valid()
    ensures Contains(FileName(JPEG, now, uid).value, "jpg")
    ensures Contains(FileName(PNG, now, uid).value, "png")
  {
    var jpg := FileName(JPEG, now, uid).value;
    var png := FileName(PNG, now, uid).value;
    assert jpg[|jpg| - 3..|jpg|] == "jpg";
    assert png[|png| - 3..|png|] == "png";
  }

  /** A GIF upload can never be given a name. */
  lemma GifHasNoName(now: Clock, uid: string)
    requires now.Valid()
    ensures FileName(FormatOf("image/gif"), now, uid) == Failure(UnsupportedFormat(GIF))
  {
  }

  /** With the corrected timestamp, names made at different seconds sort in
      the order they were made, whatever their UUIDs and formats. */
  lemma NamesSortByTime(f: Format, g: Format, a: Clock, b: Clock, u: string, v: string)
    requires a.Valid() && b.Valid()
    requires SortableFileName(f, a, u).Success? && SortableFileName(g, b, v).Success?
    requires Before(a, b)
    ensures Less(SortableFileName(f, a, u).value, SortableFileName(g, b, v).value)
  {
    LessAppend(Timestamp(a), Timestamp(b), "-" + u + Extension(f).value, "-" + v + Extension(g).value);
    TimestampSorts(a, b);
  }

  const StorageHost := "https://storage.googleapis.com/"

  /** The bucket UploadFile names in the URL: BUCKET_ID as set, even when
      empty, and "default" only when it is unset. */
  function BucketOf(env: Env): (b: string)
    ensures "BUCKET_ID" in env ==> b == env["BUCKET_ID"]
    ensures "BUCKET_ID" !in env ==> b == "default"
  {
    GetEnv(env, "BUCKET_ID", "default")
  }

  /** The public URL of an object: built from the bucket and the name only,
      so the name can be read back from it (ObjectOfURL). */
  function PublicURL(bucket: string, name: string): (url: string)
    ensures ObjectOfURL(url, bucket) == Some(name)
  {
    var prefix := StorageHost + bucket + "/";
    assert (prefix + name)[..|prefix|] == prefix;
    prefix + name
  }

  /** The object name in a public URL of the given bucket, if it is one. */
  function ObjectOfURL(url: string, bucket: string): Option<string>
  {
    var prefix := StorageHost + bucket + "/";
    if |prefix| <= |url| && url[..|prefix|] == prefix then Some(url[|prefix|..]) else None
  }

  /** Two objects of one bucket have the same URL only if they have the same
      name. */
  lemma PublicURLInjective(bucket: string, a: string, b: string)
    requires PublicURL(bucket, a) == PublicURL(bucket, b)
    ensures a == b
  {
    assert Some(a) == ObjectOfURL(PublicURL(bucket, a), bucket);
  }

  const CachePrefix := "public, max-age="

  /** The Cache-Control value: CACHE_MAX_AGE after "public, max-age=", with
      86400 (one day) when CACHE_MAX_AGE is unset. */
  function CacheControl(env: Env): (v: string)
    ensures |v| >= |CachePrefix| && v[..|CachePrefix|] == CachePrefix
    ensures "CACHE_MAX_AGE" !in env ==> v == "public, max-age=86400"
    ensures "CACHE_MAX_AGE" in env ==> v[|CachePrefix|..] == env["CACHE_MAX_AGE"]
  {
    CachePrefix + GetEnv(env, "CACHE_MAX_AGE", "86400")
  }
}
