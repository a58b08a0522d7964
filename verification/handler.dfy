/** handleRequest and removeAll (imageup.go): method dispatch, the DELETE
    branch, and the POST branch that uploads one derivative per requested
    size and rolls back on the first failure. HTTP and JSON plumbing is
    reduced to the status code and the payload chosen. */
module Handler {
  import opened Basics
  import opened Config
  import opened Text
  import opened Stamp
  import opened Naming
  import opened Storage
  import opened Upload

  /** The JSON payload: a jsonResp message or the list of uploaded files. */
  datatype Body = Message(code: int, message: string) | Files(files: seq<ImageConfig>)

  /** What jsonResponse writes: the HTTP status and the payload. */
  datatype Response = Response(status: int, body: Body)

  /** The parts of a request handleRequest reads: the method, the "files"
      form value, the "file" form file (None when r.FormFile fails) and the
      "sizes" form value as json.Unmarshal decodes it (None when it
      fails). */
  datatype Request = Request(
    httpMethod: string,
    files: string,
    upload: Option<Source>,
    sizes: Option<seq<ImageConfig>>)

  /** The file names of a list of configs, in order. */
  function FileNames(files: seq<ImageConfig>): (names: seq<string>)
    ensures |names| == |files|
    ensures forall i :: 0 <= i < |files| ==> names[i] == files[i].fileName
  {
    seq(|files|, i requires 0 <= i < |files| => files[i].fileName)
  }

  /** removeAll: one removal request per entry, in order. Each request is
      issued on its own, so one failing does not keep the others from being
      issued. */
  method RemoveAll(bucket: Bucket, files: seq<ImageConfig>)
    modifies bucket
    ensures bucket.removals == old(bucket.removals) + FileNames(files)
    ensures bucket.objects == old(bucket.objects)
  {
    for i := 0 to |files|
      invariant bucket.removals == old(bucket.removals) + FileNames(files[..i])
      invariant bucket.objects == old(bucket.objects)
    {
      assert files[..i + 1] == files[..i] + [files[i]];
      bucket.RequestRemoval(files[i].fileName);
    }
    assert files[..|files|] == files;
  }

  /** The names a DELETE request asks to remove: the "files" value split on
      commas, each piece trimmed. Empty pieces stay in the list. */
  function RemovalList(files: string): (names: seq<string>)
    ensures |names| == |Split(files, ',')|
    ensures forall i :: 0 <= i < |names| ==> names[i] == TrimSpace(Split(files, ',')[i])
  {
    var pieces := Split(files, ',');
    seq(|pieces|, i requires 0 <= i < |pieces| => TrimSpace(pieces[i]))
  }

  /** One name per comma-separated piece: as many names as commas plus one,
      so an empty value still asks to remove one (empty) name. Each name is
      its piece with the surrounding white space cut. */
  lemma RemovalListShape(files: string)
    ensures |RemovalList(files)| == Count(files, ',') + 1
    ensures forall i :: 0 <= i < |RemovalList(files)| ==> IsTrimOf(RemovalList(files)[i], Split(files, ',')[i])
    ensures RemovalList("") == [""]
  {
    SplitCount(files, ',');
    forall i | 0 <= i < |RemovalList(files)|
      ensures IsTrimOf(RemovalList(files)[i], Split(files, ',')[i])
    {
      TrimSpaceTrims(Split(files, ',')[i]);
    }
    assert Split("", ',') == [""];
  }

  const Queued := Response(200, Message(200, "file(s) queued to be removed"))

  /** The DELETE branch: one removal request per name of RemovalList, in
      order, and always 200, whatever becomes of the removals. */
  method HandleDelete(bucket: Bucket, files: string) returns (resp: Response)
    modifies bucket
    ensures resp == Queued
    ensures bucket.removals == old(bucket.removals) + RemovalList(files)
    ensures bucket.objects == old(bucket.objects)
  {
    var names := RemovalList(files);
    RequestEach(bucket, names);
    resp := Queued;
  }

  /** `go RemoveFile(name)` for each name, in order. */
  method RequestEach(bucket: Bucket, names: seq<string>)
    modifies bucket
    ensures bucket.removals == old(bucket.removals) + names
    ensures bucket.objects == old(bucket.objects)
  {
    for i := 0 to |names|
      invariant bucket.removals == old(bucket.removals) + names[..i]
      invariant bucket.objects == old(bucket.objects)
    {
      assert names[..i + 1] == names[..i] + [names[i]];
      bucket.RequestRemoval(names[i]);
    }
    assert names[..|names|] == names;
  }

  /** One turn of the POST loop: the seek, then UploadFile. */
  function StepOutcome(config: ImageConfig, src: Source, env: Env, a: Attempt): Result<Uploaded, UploadError>
  {
    if !a.seekOk then Failure(SeekFailed) else UploadOutcome(config, src, env, a)
  }

  /** What each turn of a batch yields, given its config and its index. */
  type Turns = (ImageConfig, nat) -> Result<Uploaded, UploadError>

  /** The turns of a POST with this file: turn k runs StepOutcome with the
      k-th attempt. */
  function Turn(src: Source, env: Env, attempts: nat -> Attempt): Turns
  {
    (c: ImageConfig, k: nat) => StepOutcome(c, src, env, attempts(k))
  }

  /** The outcome of every turn, the k-th using the k-th attempt. */
  function Outcomes(configs: seq<ImageConfig>, turn: Turns): (rs: seq<Result<Uploaded, UploadError>>)
    ensures |rs| == |configs|
  {
    if configs == [] then []
    else
      var n := |configs| - 1;
      Outcomes(configs[..n], turn) + [turn(configs[n], n)]
  }

  /** The outcome of turn i is what that turn yields. */
  lemma {:induction false} OutcomeAt(configs: seq<ImageConfig>, turn: Turns, i: nat)
    requires i < |configs|
    ensures Outcomes(configs, turn)[i] == turn(configs[i], i)
  {
    var n := |configs| - 1;
    if i < n {
      OutcomeAt(configs[..n], turn, i);
    }
  }

  /** The index of the first failed turn, or the number of turns when none
      failed. */
  function FirstFailure(rs: seq<Result<Uploaded, UploadError>>): (k: nat)
    ensures k <= |rs|
    ensures forall j :: 0 <= j < k ==> rs[j].Success?
    ensures k < |rs| ==> rs[k].Failure?
  {
    if rs == [] then 0
    else if rs[0].Failure? then 0
    else 1 + FirstFailure(rs[1..])
  }

  /** The uploads of a run of successful turns. */
  function Done(rs: seq<Result<Uploaded, UploadError>>): (us: seq<Uploaded>)
    requires forall j :: 0 <= j < |rs| ==> rs[j].Success?
    ensures |us| == |rs|
    ensures forall j :: 0 <= j < |rs| ==> us[j] == rs[j].value
  {
    seq(|rs|, j requires 0 <= j < |rs| => rs[j].value)
  }

  /** The configs UploadFile returned for a list of uploads. */
  function ConfigsOf(us: seq<Uploaded>): (cs: seq<ImageConfig>)
    ensures |cs| == |us|
    ensures forall j :: 0 <= j < |us| ==> cs[j] == us[j].config
  {
    seq(|us|, j requires 0 <= j < |us| => us[j].config)
  }

  /** The bucket's objects after storing a list of uploads in order. */
  function Apply(objects: map<string, StoredObject>, us: seq<Uploaded>): map<string, StoredObject>
  {
    if us == [] then objects
    else
      var last := us[|us| - 1];
      Apply(objects, us[..|us| - 1])[last.config.fileName := last.stored]
  }

  /** Storing a list of uploads adds exactly their names. */
  lemma {:induction false} ApplyKeys(objects: map<string, StoredObject>, us: seq<Uploaded>)
    ensures forall n :: n in Apply(objects, us) <==>
      n in objects || exists j :: 0 <= j < |us| && us[j].config.fileName == n
  {
    if us != [] {
      var init := us[..|us| - 1];
      ApplyKeys(objects, init);
      forall n | n in Apply(objects, us) && n !in objects
        ensures exists j :: 0 <= j < |us| && us[j].config.fileName == n
      {
        if n != us[|us| - 1].config.fileName {
          var j :| 0 <= j < |init| && init[j].config.fileName == n;
          assert us[j] == init[j];
        }
      }
      forall n, j | 0 <= j < |us| && us[j].config.fileName == n
        ensures n in Apply(objects, us)
      {
        if j < |init| {
          assert init[j] == us[j];
        }
      }
    }
  }

  /** All or nothing. When a batch fails after storing some uploads and
      requesting their removal, what remains once the removals have run is
      what remained before the batch, provided no new name was already a
      remaining object (names hold a random UUID; a collision is not
      ruled out, only improbable). */
  lemma RollbackRestores(objects: map<string, StoredObject>, removals: seq<string>, us: seq<Uploaded>)
    requires forall j :: 0 <= j < |us| ==> us[j].config.fileName !in Remaining(objects, removals)
    ensures Remaining(Apply(objects, us), removals + FileNames(ConfigsOf(us))) == Remaining(objects, removals)
  {
    ApplyKeys(objects, us);
    var names := FileNames(ConfigsOf(us));
    forall n | n in Apply(objects, us) && n !in objects
      ensures n in names
    {
      var j :| 0 <= j < |us| && us[j].config.fileName == n;
      assert names[j] == n;
    }
  }

  /** The exception to all or nothing. When the failed turn is an Encode
      whose close was accepted, its object is not among the removals, so it
      outlives the rollback: what remains is what remained before the
      batch plus that object's name (provided the name was new and nobody
      asked to remove it). */
  lemma RollbackKeepsLeftover(objects: map<string, StoredObject>, removals: seq<string>, us: seq<Uploaded>, l: Leftover)
    requires forall j :: 0 <= j < |us| ==> us[j].config.fileName !in Remaining(objects, removals)
    requires l.name !in removals && l.name !in FileNames(ConfigsOf(us))
    ensures Remaining(AfterUpload(Apply(objects, us), Failure(EncodeFailed(Some(l)))), removals + FileNames(ConfigsOf(us)))
         == Remaining(objects, removals) + {l.name}
  {
    RollbackRestores(objects, removals, us);
  }

  /** A batch in which every turn succeeds answers with one config per
      requested size, in the order requested, each carrying that size's
      name, width and height, a name made from its own attempt's clock
      reading (its hour on the 12-hour clock) and UUID, and the public URL
      of that name. */
  lemma {:induction false} SuccessMatchesRequest(configs: seq<ImageConfig>, src: Source, env: Env, attempts: nat -> Attempt)
    requires FirstFailure(Outcomes(configs, Turn(src, env, attempts))) == |configs|
    ensures var out := ConfigsOf(Done(Outcomes(configs, Turn(src, env, attempts))));
      && |out| == |configs|
      && forall i :: 0 <= i < |configs| ==>
        && out[i].name == configs[i].name
        && out[i].width == configs[i].width && out[i].height == configs[i].height
        && !out[i].fill
        && ParseName(out[i].fileName) == Some(NameParts(Clock12(attempts(i).now), attempts(i).uid, FormatOf(src.contentType)))
        && out[i].url == PublicURL(BucketOf(env), out[i].fileName)
  {
    var rs := Outcomes(configs, Turn(src, env, attempts));
    forall i | 0 <= i < |configs|
      ensures var u := rs[i].value.config;
        && u.name == configs[i].name
        && u.width == configs[i].width && u.height == configs[i].height
        && !u.fill
        && ParseName(u.fileName) == Some(NameParts(Clock12(attempts(i).now), attempts(i).uid, FormatOf(src.contentType)))
        && u.url == PublicURL(BucketOf(env), u.fileName)
    {
      OutcomeAt(configs, Turn(src, env, attempts), i);
      UploadedShape(configs[i], src, env, attempts(i));
    }
  }

  const NoFile := Response(400, Message(400, "problem finding the file"))
  const BadSizes := Response(406, Message(400, "there is a problem with the size configuration"))
  const NoSizes := Response(406, Message(400, "there were no size instructions sent with request"))
  const SeekError := Response(400, Message(400, "error seeking file"))
  const UploadError := Response(400, Message(400, "unknown error while uploading"))

  /** What the POST branch answers, and how it takes the bucket from
      `objects0` and `removals0` to `objects` and `removals`. Without a
      file, with sizes that do not parse, or with no sizes, it answers at
      once and touches no storage. Otherwise the turns run in order: when
      all succeed the answer is 201 with one config per size; at the first
      failure removal is requested for exactly the files uploaded by the
      earlier turns, in order, the failed turn's leftover (if any) stays,
      and the answer is 400 with no list. */
  ghost predicate PostAnswered(upload: Option<Source>, sizes: Option<seq<ImageConfig>>, env: Env, attempts: nat -> Attempt,
                               objects0: map<string, StoredObject>, removals0: seq<string>,
                               objects: map<string, StoredObject>, removals: seq<string>, resp: Response)
  {
    && (upload.None? ==> resp == NoFile && objects == objects0 && removals == removals0)
    && (upload.Some? && sizes.None? ==> resp == BadSizes && objects == objects0 && removals == removals0)
    && (upload.Some? && sizes == Some([]) ==> resp == NoSizes && objects == objects0 && removals == removals0)
    && (upload.Some? && sizes.Some? && sizes.value != [] ==>
      var rs := Outcomes(sizes.value, Turn(upload.value, env, attempts));
      var k := FirstFailure(rs);
      var done := Done(rs[..k]);
      && (k == |rs| ==>
            && resp == Response(201, Files(ConfigsOf(done)))
            && objects == Apply(objects0, done)
            && removals == removals0)
      && (k < |rs| ==>
            && resp == (if rs[k].error.SeekFailed? then SeekError else UploadError)
            && objects == AfterUpload(Apply(objects0, done), rs[k])
            && removals == removals0 + FileNames(ConfigsOf(done))))
  }

  /** The POST branch, as PostAnswered describes it. */
  method HandlePost(bucket: Bucket, upload: Option<Source>, sizes: Option<seq<ImageConfig>>,
                    env: Env, attempts: nat -> Attempt)
    returns (resp: Response)
    modifies bucket
    ensures PostAnswered(upload, sizes, env, attempts, old(bucket.objects), old(bucket.removals),
                         bucket.objects, bucket.removals, resp)
  {
    if upload.None? {
      return NoFile;
    }
    var file := upload.value;

    if sizes.None? {
      return BadSizes;
    }
    var configs := sizes.value;

    if |configs| < 1 {
      return NoSizes;
    }

    var uploadedFiles, failed := UploadEach(bucket, configs, file, env, attempts);
    if failed.Some? {
      RemoveAll(bucket, uploadedFiles);
      if failed.value.SeekFailed? {
        return SeekError;
      }
      return UploadError;
    }
    return Response(201, Files(uploadedFiles));
  }

  /** The loop of the POST branch: the turns in order, stopping at the first
      that fails. It returns the configs of the turns that succeeded before
      it and the failure, if any; the bucket holds their objects, plus the
      failed turn's leftover if it has one, and no removal has been
      requested yet. */
  method UploadEach(bucket: Bucket, configs: seq<ImageConfig>, file: Source, env: Env, attempts: nat -> Attempt)
    returns (uploadedFiles: seq<ImageConfig>, failed: Option<UploadError>)
    modifies bucket
    ensures var rs := Outcomes(configs, Turn(file, env, attempts));
      var k := FirstFailure(rs);
      var done := Done(rs[..k]);
      && uploadedFiles == ConfigsOf(done)
      && (failed.None? <==> k == |rs|)
      && (failed.Some? ==> failed.value == rs[k].error)
      && (k == |rs| ==> bucket.objects == Apply(old(bucket.objects), done))
      && (k < |rs| ==> bucket.objects == AfterUpload(Apply(old(bucket.objects), done), rs[k]))
      && bucket.removals == old(bucket.removals)
  {
    ghost var turn := Turn(file, env, attempts);
    ghost var rs := Outcomes(configs, turn);
    uploadedFiles := [];
    ghost var done: seq<Uploaded> := [];

    for i := 0 to |configs|
      invariant i <= FirstFailure(rs)
      invariant done == Done(rs[..i])
      invariant uploadedFiles == ConfigsOf(done)
      invariant bucket.objects == Apply(old(bucket.objects), done)
      invariant bucket.removals == old(bucket.removals)
    {
      ghost var out := rs[i];
      OutcomeAt(configs, turn, i);
      var c := UploadStep(configs[i], i, file, env, attempts, bucket, turn);
      if c.Failure? {
        assert FirstFailure(rs) == i by { FirstFailureAt(rs, i); }
        return uploadedFiles, Some(c.error);
      }

      Grow(rs, i, old(bucket.objects));
      done := done + [out.value];
      uploadedFiles := uploadedFiles + [c.value];
    }
    assert rs[..|rs|] == rs;
    assert FirstFailure(rs) == |rs| by { FirstFailureAt(rs, |rs|); }
    return uploadedFiles, None;
  }

  /** One more successful turn adds its upload to the run, its config to
      the list and its object to the bucket. */
  lemma {:induction false} Grow(rs: seq<Result<Uploaded, UploadError>>, i: nat, objects: map<string, StoredObject>)
    requires i < |rs| && i <= FirstFailure(rs) && rs[i].Success?
    ensures i + 1 <= FirstFailure(rs)
    ensures Done(rs[..i + 1]) == Done(rs[..i]) + [rs[i].value]
    ensures ConfigsOf(Done(rs[..i + 1])) == ConfigsOf(Done(rs[..i])) + [rs[i].value.config]
    ensures Apply(objects, Done(rs[..i + 1]))
         == Apply(objects, Done(rs[..i]))[rs[i].value.config.fileName := rs[i].value.stored]
  {
    assert rs[..i + 1] == rs[..i] + [rs[i]];
    var done := Done(rs[..i + 1]);
    assert done[..|done| - 1] == Done(rs[..i]);
  }

  /** One turn of the POST loop: file.Seek(0, io.SeekStart), then
      UploadFile. */
  method UploadStep(config: ImageConfig, k: nat, src: Source, env: Env, attempts: nat -> Attempt, bucket: Bucket, ghost turn: Turns)
    returns (r: Result<ImageConfig, UploadError>)
    requires turn == Turn(src, env, attempts)
    modifies bucket
    ensures var out := turn(config, k);
      && (r.Success? <==> out.Success?)
      && (r.Success? ==> r.value == out.value.config)
      && (r.Failure? ==> r.error == out.error)
    ensures bucket.objects == AfterUpload(old(bucket.objects), turn(config, k))
    ensures bucket.removals == old(bucket.removals)
  {
    var a := attempts(k);
    if !a.seekOk {
      return Failure(SeekFailed);
    }
    r := UploadFile(config, src, env, a, bucket);
  }

  /** The first failure is at k when every turn before k succeeded and turn
      k, if there is one, failed. */
  lemma {:induction false} FirstFailureAt(rs: seq<Result<Uploaded, UploadError>>, k: nat)
    requires k <= |rs|
    requires forall j :: 0 <= j < k ==> rs[j].Success?
    requires k < |rs| ==> rs[k].Failure?
    ensures FirstFailure(rs) == k
  {
    if rs != [] && k > 0 {
      FirstFailureAt(rs[1..], k - 1);
    }
  }

  const NotAllowed := Response(405, Message(405, "fail"))

  /** handleRequest: DELETE and POST go to their branches, with their
      contracts; any other method is answered 405 and touches no storage. */
  method HandleRequest(bucket: Bucket, req: Request, env: Env, attempts: nat -> Attempt)
    returns (resp: Response)
    modifies bucket
    ensures req.httpMethod == "DELETE" ==>
      && resp == Queued
      && bucket.removals == old(bucket.removals) + RemovalList(req.files)
      && bucket.objects == old(bucket.objects)
    ensures req.httpMethod == "POST" ==>
      PostAnswered(req.upload, req.sizes, env, attempts, old(bucket.objects), old(bucket.removals),
                   bucket.objects, bucket.removals, resp)
    ensures req.httpMethod != "DELETE" && req.httpMethod != "POST" ==>
      resp == NotAllowed && unchanged(bucket)
  {
    if req.httpMethod == "DELETE" {
      resp := HandleDelete(bucket, req.files);
    } else if req.httpMethod == "POST" {
      resp := HandlePost(bucket, req.upload, req.sizes, env, attempts);
    } else {
      resp := NotAllowed;
    }
  }
}
