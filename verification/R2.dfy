/** The bucket as the application sees it through its client (r2/r2.go): keys and the
    metadata of the objects under them. `up` says whether a request is answered. */
module R2 {
  import opened Tracks

  type Bucket = map<string, Meta>

  datatype HeadReply = Object(meta: Meta) | NoObject | NoAnswer

  /** The ways in which a client can write an object. */
  datatype WriteKind = Single | Copied | Multipart

  /** The action R2 announces a write under. */
  function Announced(how: WriteKind): string {
    match how
    case Single => "PutObject"
    case Copied => "CopyObject"
    case Multipart => "CompleteMultipartUpload"
  }

  /** How a DELETE of an object ends for the caller: done, refused before it took effect, or
      done with the reply lost. */
  datatype Removal = Removed | Refused | ReplyLost

  /** The R2 bucket behind its client. */
  class Client {
    var objects: Bucket

    constructor ()
      ensures objects == map[]
    {
      objects := map[];
    }

    method Head(key: string, up: bool) returns (r: HeadReply)
      ensures r == if !up then NoAnswer else if key in objects then Object(objects[key]) else NoObject
    {
      if !up {
        return NoAnswer;
      }
      r := if key in objects then Object(objects[key]) else NoObject;
    }

    /** Deleting a key without an object is no error. */
    method Delete(key: string, how: Removal) returns (failed: bool)
      modifies this
      ensures objects == if how == Refused then old(objects) else old(objects) - {key}
      ensures failed <==> how != Removed
    {
      if how != Refused {
        objects := objects - {key};
      }
      failed := how != Removed;
    }
  }
}
