/** The object store as the pipeline sees it: a bucket holding objects by
    name, a log of removal requests, and the object writer UploadFile fills
    in and closes. The Google Cloud Storage client itself is not modelled;
    this is its observable effect. */
module Storage {
  import opened Basics
  import opened Naming
  import opened Orientation

  /** One pixel of an image.NRGBA, the image type the imaging library
      returns. */
  datatype Pixel = NRGBA(r: bv8, g: bv8, b: bv8, a: bv8)

  /** An image as imaging.Encode wrote it to a writer. */
  datatype Encoded = Encoded(format: Format, image: Resized<Pixel>)

  /** A stored object: its metadata and its content. The content is None
      when the writer was closed without a complete image in it (what a
      failed encoder may have written before failing is not modelled). */
  datatype StoredObject = StoredObject(
    contentType: string,
    cacheControl: string,
    publicRead: bool,
    content: Option<Encoded>)

  /** The names that are left once every requested removal has run. */
  function Remaining(objects: map<string, StoredObject>, removals: seq<string>): (live: set<string>)
    ensures forall n :: n in live <==> n in objects && n !in removals
  {
    set n | n in objects && n !in removals
  }

  class Bucket {
    /** The objects the bucket holds, by name. */
    var objects: map<string, StoredObject>
    /** Every removal requested so far, in order. */
    var removals: seq<string>

    constructor ()
      ensures objects == map[] && removals == []
    {
      objects := map[];
      removals := [];
    }

    /** `go RemoveFile(name)`: the request is issued and nobody waits for it;
        whether the deletion succeeds is never seen by the caller. */
    method RequestRemoval(name: string)
      modifies this
      ensures removals == old(removals) + [name]
      ensures objects == old(objects)
    {
      removals := removals + [name];
    }
  }

  /** obj.NewWriter(ctx): the fields UploadFile sets before writing, and the
      content imaging.Encode writes. Nothing reaches the bucket before
      Close. */
  class Writer {
    const bucket: Bucket
    const name: string
    var publicRead: bool
    var contentType: string
    var cacheControl: string
    var content: Option<Encoded>

    constructor (bucket: Bucket, name: string)
      ensures this.bucket == bucket && this.name == name
      ensures !publicRead && contentType == "" && cacheControl == "" && content == None
    {
      this.bucket := bucket;
      this.name := name;
      publicRead := false;
      contentType := "";
      cacheControl := "";
      content := None;
    }

    /** imaging.Encode(w, img, format); `succeeds` is the encoder's outcome,
        which the model takes as given. */
    method Encode(image: Resized<Pixel>, format: Format, succeeds: bool) returns (ok: bool)
      modifies this
      ensures ok == succeeds
      ensures content == if ok then Some(Encoded(format, image)) else old(content)
      ensures publicRead == old(publicRead) && contentType == old(contentType)
      ensures cacheControl == old(cacheControl)
    {
      ok := succeeds;
      if ok {
        content := Some(Encoded(format, image));
      }
    }

    /** w.Close(): the object is committed under the writer's name, with the
        writer's fields and whatever it holds, when the backend accepts it
        (`accepted`), even when nothing was encoded; otherwise the bucket
        is left as it was. */
    method Close(accepted: bool) returns (ok: bool)
      modifies bucket
      ensures ok == accepted
      ensures bucket.objects == if ok
        then old(bucket.objects)[name := StoredObject(contentType, cacheControl, publicRead, content)]
        else old(bucket.objects)
      ensures bucket.removals == old(bucket.removals)
    {
      ok := accepted;
      if ok {
        bucket.objects := bucket.objects[name := StoredObject(contentType, cacheControl, publicRead, content)];
      }
    }
  }
}
