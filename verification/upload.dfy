/** UploadFile (gcp.go:131-201): name the object, build its public URL, read
    the orientation, transform the image, fill in the writer and close it,
    returning the new ImageConfig. What the file, the clock, the random
    UUID and the storage backend do during a call are inputs. */
module Upload {
  import opened Basics
  import opened Config
  import opened Stamp
  import opened Naming
  import opened Geometry
  import opened Orientation
  import opened Storage

  /** A well-formed picture of NRGBA pixels, as imaging.Decode returns. */
  type Image = p: Picture<Pixel> | p.Wf() witness Picture(0, 0, [])

  /** A clock reading time.Now can return. */
  type Now = c: Clock | c.Valid() witness Clock(1970, 1, 1, 0, 0, 0)

  /** The uploaded file: its declared Content-Type, whether fh.Open()
      succeeds, what exif.Decode finds in it, and what imaging.Decode makes
      of it (None when decoding fails). */
  datatype Source = Source(
    contentType: string,
    opens: bool,
    exif: ExifData,
    decoded: Option<Image>)

  /** What the world decides during one upload of one size: whether the
      seek back to the start of the file succeeds (handleRequest does this
      before calling UploadFile), the clock reading, the UUID string,
      whether imaging.Encode succeeds and whether the backend accepts the
      object when the writer is closed. */
  datatype Attempt = Attempt(
    seekOk: bool,
    now: Now,
    uid: string,
    encodeOk: bool,
    accepted: bool)

  /** An object a failed upload leaves in the bucket: its name and what was
      committed under it. */
  datatype Leftover = Leftover(name: string, stored: StoredObject)

  /** Why an upload failed. After a failed Encode, UploadFile still closes
      the writer and ignores the result; `leftover` is the object that
      close committed, if the backend accepted it. */
  datatype UploadError =
    | Unsupported(format: Format)
    | OpenFailed
    | DecodeFailed
    | EncodeFailed(leftover: Option<Leftover>)
    | CloseFailed
    | SeekFailed

  /** A successful upload: the ImageConfig returned and the object stored. */
  datatype Uploaded = Uploaded(config: ImageConfig, stored: StoredObject)

  /** What one call of UploadFile returns and stores, as a function of its
      inputs; UploadFile is proved against it. */
  function UploadOutcome(config: ImageConfig, src: Source, env: Env, a: Attempt): Result<Uploaded, UploadError>
  {
    var format := FormatOf(src.contentType);
    match FileName(format, a.now, a.uid)
    case Failure(_) => Failure(Unsupported(format))
    case Success(name) =>
      if !src.opens then Failure(OpenFailed)
      else if src.decoded.None? then Failure(DecodeFailed)
      else if !a.encodeOk then
        Failure(EncodeFailed(
          if a.accepted then Some(Leftover(name, StoredObject(src.contentType, CacheControl(env), true, None)))
          else None))
      else if !a.accepted then Failure(CloseFailed)
      else
        var ot := GetOrientation(src.exif).ot;
        var resize := if config.fill then FillCenter(config.width, config.height)
                      else Fit(config.width, config.height);
        Success(Uploaded(
          ImageConfig(name, config.name, PublicURL(BucketOf(env), name), false, config.width, config.height),
          StoredObject(src.contentType, CacheControl(env), true,
            Some(Encoded(format, Resized(Upright(src.decoded.value, ot), resize))))))
  }

  /** The bucket's objects after an upload with outcome `out`: the new
      object on success, the leftover of a failed Encode when there is one,
      and no change otherwise. */
  function AfterUpload(objects: map<string, StoredObject>, out: Result<Uploaded, UploadError>): map<string, StoredObject>
  {
    match out
    case Success(u) => objects[u.config.fileName := u.stored]
    case Failure(EncodeFailed(Some(l))) => objects[l.name := l.stored]
    case Failure(_) => objects
  }

  /** UploadFile. Its result is UploadOutcome's; the bucket gains the new
      object when the upload succeeds, the leftover when Encode failed and
      the close after it was accepted, and nothing else changes. */
  method UploadFile(config: ImageConfig, src: Source, env: Env, a: Attempt, bucket: Bucket)
    returns (r: Result<ImageConfig, UploadError>)
    modifies bucket
    ensures var out := UploadOutcome(config, src, env, a);
      && (r.Success? <==> out.Success?)
      && (r.Success? ==> r.value == out.value.config)
      && (r.Failure? ==> r.error == out.error)
    ensures bucket.objects == AfterUpload(old(bucket.objects), UploadOutcome(config, src, env, a))
    ensures bucket.removals == old(bucket.removals)
  {
    var mimeType := src.contentType;
    var format := FormatOf(mimeType);

    var named := FileName(format, a.now, a.uid);
    if named.Failure? {
      return Failure(Unsupported(format));
    }
    var name := named.value;

    var publicURL := PublicURL(BucketOf(env), name);

    if !src.opens {
      return Failure(OpenFailed);
    }

    // The error of GetOrientation is dropped: orientation is best effort.
    var ot := GetOrientation(src.exif).ot;

    var img := Manipulate(src.decoded, config, ot);
    if img.None? {
      return Failure(DecodeFailed);
    }

    var failed := WriteObject(bucket, name, mimeType, CacheControl(env), img.value, format, a.encodeOk, a.accepted);
    if failed.Some? {
      return Failure(failed.value);
    }

    return Success(ImageConfig(name, config.name, publicURL, false, config.width, config.height));
  }

  /** The writing half of UploadFile: a public writer with the given
      Content-Type and Cache-Control, imaging.Encode into it, then Close.
      The close after a failed Encode is not checked; what it commits is
      reported as the leftover. Whenever the backend accepts a close, the
      object is committed under `name`, holding the image only if Encode
      succeeded. */
  method WriteObject(bucket: Bucket, name: string, contentType: string, cacheControl: string,
                     image: Resized<Pixel>, format: Format, encodeOk: bool, accepted: bool)
    returns (failed: Option<UploadError>)
    modifies bucket
    ensures failed == if !encodeOk then Some(EncodeFailed(
                        if accepted then Some(Leftover(name, StoredObject(contentType, cacheControl, true, None))) else None))
                      else if !accepted then Some(CloseFailed)
                      else None
    ensures bucket.objects == if accepted
      then old(bucket.objects)[name := StoredObject(contentType, cacheControl, true,
                                                    if encodeOk then Some(Encoded(format, image)) else None)]
      else old(bucket.objects)
    ensures bucket.removals == old(bucket.removals)
  {
    var w := new Writer(bucket, name);
    w.publicRead := true;
    w.contentType := contentType;
    w.cacheControl := cacheControl;

    var encoded := w.Encode(image, format, encodeOk);
    if !encoded {
      // The result of this close is ignored; what it committed is reported.
      var left := w.Close(accepted);
      return Some(EncodeFailed(
        if left then Some(Leftover(name, StoredObject(contentType, cacheControl, true, None))) else None));
    }

    var closed := w.Close(accepted);
    if !closed {
      return Some(CloseFailed);
    }
    return None;
  }

  /** A GIF is never uploaded: FileName refuses it before anything is opened
      or written. */
  lemma GifNeverUploads(config: ImageConfig, src: Source, env: Env, a: Attempt)
    requires src.contentType == "image/gif"
    ensures UploadOutcome(config, src, env, a) == Failure(Unsupported(GIF))
  {
  }

  /** An upload succeeds exactly when the format can be named, the file
      opens and decodes, the encoder succeeds and the backend accepts the
      object; the orientation metadata plays no part in it. */
  lemma UploadSucceedsIff(config: ImageConfig, src: Source, env: Env, a: Attempt)
    ensures UploadOutcome(config, src, env, a).Success? <==>
      && FormatOf(src.contentType) in {JPEG, PNG}
      && src.opens && src.decoded.Some? && a.encodeOk && a.accepted
  {
  }

  /** Orientation never aborts an upload: any metadata gives the same
      result, apart from the pixels stored. */
  lemma OrientationNeverAborts(config: ImageConfig, src: Source, env: Env, a: Attempt, exif: ExifData)
    ensures var here := UploadOutcome(config, src, env, a);
      var there := UploadOutcome(config, src.(exif := exif), env, a);
      && (here.Success? <==> there.Success?)
      && (here.Failure? ==> here.error == there.error)
      && (here.Success? ==> here.value.config == there.value.config)
  {
  }

  /** What a successful upload returns and stores: a fresh name made from
      the clock reading (its hour on the 12-hour clock), the UUID and the
      format; the URL of that name in
      the configured bucket and nothing else; the caller's name, width and
      height; Fill at its zero value; and an object readable by everyone,
      with the declared Content-Type, the configured Cache-Control and the
      image corrected for its orientation. */
  lemma {:induction false} UploadedShape(config: ImageConfig, src: Source, env: Env, a: Attempt)
    requires UploadOutcome(config, src, env, a).Success?
    ensures var u := UploadOutcome(config, src, env, a).value;
      && ParseName(u.config.fileName) == Some(NameParts(Clock12(a.now), a.uid, FormatOf(src.contentType)))
      && u.config.url == StorageHost + BucketOf(env) + "/" + u.config.fileName
      && ObjectOfURL(u.config.url, BucketOf(env)) == Some(u.config.fileName)
      && u.config.name == config.name && u.config.width == config.width && u.config.height == config.height
      && !u.config.fill
      && u.stored.publicRead && u.stored.contentType == src.contentType
      && u.stored.cacheControl == CacheControl(env)
      && u.stored.content.Some?
      && u.stored.content.value.image.oriented == Upright(src.decoded.value, GetOrientation(src.exif).ot)
  {
    FileNameRoundTrip(FormatOf(src.contentType), a.now, a.uid);
  }

  /** A failed upload leaves an object behind exactly when Encode failed
      after the name was made and the file opened and decoded, and the
      backend accepted the close that follows; the object is public, under
      the upload's name, with its metadata and no complete image. */
  lemma LeftoverIff(config: ImageConfig, src: Source, env: Env, a: Attempt)
    ensures var out := UploadOutcome(config, src, env, a);
      (out.Failure? && out.error.EncodeFailed? && out.error.leftover.Some?) <==>
        && FormatOf(src.contentType) in {JPEG, PNG}
        && src.opens && src.decoded.Some? && !a.encodeOk && a.accepted
    ensures var out := UploadOutcome(config, src, env, a);
      out.Failure? && out.error.EncodeFailed? && out.error.leftover.Some? ==>
        out.error.leftover.value ==
          Leftover(FileName(FormatOf(src.contentType), a.now, a.uid).value,
                   StoredObject(src.contentType, CacheControl(env), true, None))
  {
  }
}
