/** The MinIO storage backend: object URLs are `endpoint/bucket/filename`,
    and deletion recovers the object name from the URL as the text after its
    last '/'. The MinIO client is not modelled; its calls are recorded in a
    log, in order. */
module Storage {

  /** `url.split('/')`: the pieces between the separators, at least one. */
  function Split(s: string): (parts: seq<string>)
    ensures |parts| >= 1
    ensures forall i :: 0 <= i < |parts| ==> '/' !in parts[i]
    decreases |s|
  {
    if '/' !in s then [s]
    else
      var i := FirstSlash(s);
      [s[..i]] + Split(s[i + 1..])
  }

  function FirstSlash(s: string): (i: nat)
    requires '/' in s
    ensures i < |s| && s[i] == '/' && '/' !in s[..i]
  {
    if s[0] == '/' then 0
    else
      assert '/' in s[1..] by {
        var k :| 0 <= k < |s| && s[k] == '/';
        assert s[1..][k - 1] == '/';
      }
      var j := FirstSlash(s[1..]);
      assert s[..j + 1] == [s[0]] + s[1..][..j];
      j + 1
  }

  /** `parts.join('/')` */
  function Join(parts: seq<string>): string
  {
    if |parts| <= 1 then (if parts == [] then "" else parts[0])
    else parts[0] + "/" + Join(parts[1..])
  }

  /** Splitting on '/' and joining back gives the original text. */
  lemma {:induction false} JoinSplit(s: string)
    ensures Join(Split(s)) == s
    decreases |s|
  {
    if '/' in s {
      var i := FirstSlash(s);
      JoinSplit(s[i + 1..]);
      assert s == s[..i] + "/" + s[i + 1..];
    }
  }

  /** `url.split('/').pop()` */
  function LastSegment(url: string): (name: string)
    ensures '/' !in name
  {
    var parts := Split(url);
    parts[|parts| - 1]
  }

  /** The last piece of `prefix + "/" + name` is `name` when `name` has no '/'. */
  lemma {:induction false} SplitAfterSlash(prefix: string, name: string)
    requires '/' !in name
    ensures var parts := Split(prefix + "/" + name);
            parts[|parts| - 1] == name
    decreases |prefix|
  {
    var s := prefix + "/" + name;
    assert s[|prefix|] == '/';
    var i := FirstSlash(s);
    if i == |prefix| {
      assert s[i + 1..] == name;
    } else {
      assert i < |prefix|;
      assert s[i + 1..] == prefix[i + 1..] + "/" + name;
      SplitAfterSlash(prefix[i + 1..], name);
    }
  }

  /** One call on the MinIO client. */
  datatype ClientCall =
    | PutObject(bucket: string, name: string, mimeType: string)
    | RemoveObject(bucket: string, name: string)

  class MinioStorage {
    /** `MINIO_ENDPOINT` as text. */
    const endpoint: string
    /** `MINIO_BUCKET_NAME`, fixed at construction. */
    const bucket: string
    var calls: seq<ClientCall>

    constructor (endpoint: string, bucket: string)
      ensures this.endpoint == endpoint && this.bucket == bucket && calls == []
    {
      this.endpoint := endpoint;
      this.bucket := bucket;
      calls := [];
    }

    /** `endpoint/bucket/filename` */
    function ObjectUrl(filename: string): (url: string)
    {
      endpoint + "/" + bucket + "/" + filename
    }

    /** `uploadFile`: puts the object into the bucket and returns its URL. */
    method UploadFile(filename: string, mimeType: string) returns (url: string)
      modifies this`calls
      ensures url == ObjectUrl(filename)
      ensures calls == old(calls) + [PutObject(bucket, filename, mimeType)]
    {
      calls := calls + [PutObject(bucket, filename, mimeType)];
      url := ObjectUrl(filename);
    }

    /** `deleteFile`: removes the object named by the URL's last segment from the bucket. */
    method DeleteFile(url: string)
      modifies this`calls
      ensures calls == old(calls) + [RemoveObject(bucket, LastSegment(url))]
    {
      calls := calls + [RemoveObject(bucket, LastSegment(url))];
    }
  }

  /** Deleting by an object URL targets the uploaded object whenever its
      name has no '/'. */
  lemma DeleteFindsUpload(s: MinioStorage, filename: string)
    requires '/' !in filename
    ensures LastSegment(s.ObjectUrl(filename)) == filename
  {
    SplitAfterSlash(s.endpoint + "/" + s.bucket, filename);
  }

  /** A name with a '/' is not recovered: the removal targets only its last piece. */
  lemma NestedNameNotRecovered(s: MinioStorage)
    ensures LastSegment(s.ObjectUrl("a/b")) == "b"
  {
    SplitAfterSlash(s.endpoint + "/" + s.bucket + "/a", "b");
    assert s.ObjectUrl("a/b") == (s.endpoint + "/" + s.bucket + "/a") + "/" + "b";
  }

  /** Upload then delete by the returned URL: both calls use the same bucket
      and the same object name. */
  method UploadThenDelete(s: MinioStorage, filename: string, mimeType: string)
    requires '/' !in filename
    modifies s
    ensures s.calls == old(s.calls) + [PutObject(s.bucket, filename, mimeType), RemoveObject(s.bucket, filename)]
  {
    var url := s.UploadFile(filename, mimeType);
    DeleteFindsUpload(s, filename);
    s.DeleteFile(url);
  }
}
