/**
 * The image call of lib/Cloudnary.js: the transformation options built from
 * the requested size and webp flag, the upload to Cloudinary, the download of
 * the transformed image, and the respond-once guard around the caller's
 * callback.
 */
module Cloudinary {
  import opened Common
  import opened Guard

  const TimeoutMessage: string := "Cloudinary optimization timed out"

  /** A value of the options object: a word such as `auto`, or a number of pixels. */
  datatype OptValue = Word(s: string) | Pixels(n: int)

  type Options = map<string, OptValue>

  /** The truthiness of `size`: present and not zero. */
  predicate Sized(size: Option<int>)
  {
    size.Some? && size.value != 0
  }

  /** The upload options for a size and a webp flag. */
  function UploadOptions(size: Option<int>, webpCompression: bool): (r: Options)
    ensures r.Keys <= {"quality", "width", "height", "crop", "fetch_format"}
    ensures "quality" in r && r["quality"] == Word("auto")
    ensures ("width" in r) <==> Sized(size)
    ensures ("height" in r) <==> Sized(size)
    ensures ("crop" in r) <==> Sized(size)
    ensures Sized(size) ==>
      r["width"] == Pixels(size.value) && r["height"] == Pixels(size.value) && r["crop"] == Word("limit")
    ensures ("fetch_format" in r) <==> webpCompression
    ensures webpCompression ==> r["fetch_format"] == Word("auto")
  {
    var fit: Options :=
      if Sized(size) then map["width" := Pixels(size.value), "height" := Pixels(size.value), "crop" := Word("limit")]
      else map[];
    var format: Options := if webpCompression then map["fetch_format" := Word("auto")] else map[];
    map["quality" := Word("auto")] + fit + format
  }

  /** The options object built field by field, as the function does before uploading. */
  method BuildOptions(size: Option<int>, webpCompression: bool) returns (options: Options)
    ensures options == UploadOptions(size, webpCompression)
  {
    options := map["quality" := Word("auto")];
    if size.Some? && size.value != 0 {
      options := options["width" := Pixels(size.value)];
      options := options["height" := Pixels(size.value)];
      options := options["crop" := Word("limit")];
    }
    if webpCompression {
      options := options["fetch_format" := Word("auto")];
    }
  }

  /** What Cloudinary's upload reports on success: the delivered format and the transformed image's URL. */
  datatype Uploaded = Uploaded(format: string, url: string)

  /** What the caller's callback receives on success. */
  datatype CloudinaryData = CloudinaryData(format: string, url: string, imageBody: Option<Bytes>)

  /**
   * One call of the exported function. `upload` is how the upload settles,
   * `download` what the download of the returned URL calls back with, and
   * `timedOutFirst` whether the 20-second timer fires before the upload path
   * completes; otherwise the timer fires last, after being cleared.
   */
  method Optimize(size: Option<int>, webpCompression: bool, upload: Settled<Uploaded>, download: DownloadResult,
                  timedOutFirst: bool)
    returns (options: Options, downloadUrl: Option<string>, forwarded: seq<Completion<CloudinaryData>>)
    ensures options == UploadOptions(size, webpCompression)
    ensures |forwarded| == 1
    ensures downloadUrl.Some? <==> upload.Resolved?
    ensures upload.Resolved? ==> downloadUrl == Some(upload.value.url)
    ensures timedOutFirst ==> forwarded == [Completion(Some(TimeoutMessage), None)]
    ensures !timedOutFirst && upload.Rejected? ==> forwarded == [Completion(Some(upload.message), None)]
    ensures !timedOutFirst && upload.Resolved? ==>
      forwarded == [Completion(download.err, Some(CloudinaryData(upload.value.format, upload.value.url, download.imageBody)))]
  {
    options := BuildOptions(size, webpCompression);
    var completion: Completion<CloudinaryData>;
    match upload {
      case Resolved(Uploaded(format, url)) =>
        downloadUrl := Some(url);
        completion := Completion(download.err, Some(CloudinaryData(format, url, download.imageBody)));
      case Rejected(message) =>
        downloadUrl := None;
        completion := Completion(Some(message), None);
    }
    var events := if timedOutFirst then [Timeout, Complete(completion)] else [Complete(completion), Timeout];
    forwarded := RunGuard(TimeoutMessage, events);
  }
}
