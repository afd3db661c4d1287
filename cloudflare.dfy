/**
 * The image call of lib/Cloudflare.js: the upload to Cloudflare Images, the
 * choice of one delivery variant from the response, the download of that
 * variant's `normal` rendition, and the respond-once guard around the caller's
 * callback.
 */
module Cloudflare {
  import opened Common
  import opened Guard

  const TimeoutMessage: string := "Cloudflare optimization timed out"

  /** `variants && variants.length ? variants.length > 1 ? variants[1] : variants[0] : null`. */
  function SelectVariant(variants: Option<seq<string>>): (r: Option<string>)
    ensures r.None? <==> variants.None? || variants.value == []
    ensures variants.Some? && |variants.value| == 1 ==> r == Some(variants.value[0])
    ensures variants.Some? && |variants.value| > 1 ==> r == Some(variants.value[1])
  {
    if variants.None? || variants.value == [] then None
    else if |variants.value| > 1 then Some(variants.value[1])
    else Some(variants.value[0])
  }

  /** The variant the success path goes on with: a selected variant that is a non-empty string. */
  function UsableVariant(upload: Settled<Option<seq<string>>>): (r: Option<string>)
    ensures r.Some? ==> upload.Resolved? && r.value != [] && SelectVariant(upload.value) == r
    ensures upload.Resolved? && SelectVariant(upload.value).Some? && SelectVariant(upload.value).value != [] ==> r.Some?
  {
    if upload.Resolved? then
      var v := SelectVariant(upload.value);
      if v.Some? && v.value != [] then v else None
    else None
  }

  /** What the caller's callback receives on success: the chosen variant and the downloaded body. */
  datatype CloudflareData = CloudflareData(variant: string, imageBody: Option<Bytes>)

  /**
   * One call of the exported function. `upload` is how the upload request
   * settles (with `response.data?.result?.variants`), `download` what the
   * download of the variant calls back with, and `timedOutFirst` whether the
   * 20-second timer fires before the upload path completes. The timer is the
   * last event when nothing cleared it earlier.
   */
  method Optimize(upload: Settled<Option<seq<string>>>, download: DownloadResult, timedOutFirst: bool)
    returns (downloadUrl: Option<string>, forwarded: seq<Completion<CloudflareData>>)
    ensures |forwarded| == 1
    ensures downloadUrl.Some? <==> UsableVariant(upload).Some?
    ensures downloadUrl.Some? ==> downloadUrl.value == UsableVariant(upload).value + "/normal"
    ensures timedOutFirst || (upload.Resolved? && UsableVariant(upload).None?) ==>
      forwarded == [Completion(Some(TimeoutMessage), None)]
    ensures !timedOutFirst && upload.Rejected? ==> forwarded == [Completion(Some(upload.message), None)]
    ensures !timedOutFirst && UsableVariant(upload).Some? ==>
      forwarded == [Completion(download.err, Some(CloudflareData(UsableVariant(upload).value, download.imageBody)))]
  {
    var completions: seq<GuardEvent<CloudflareData>> := [];
    downloadUrl := None;
    match upload {
      case Resolved(variants) =>
        var variant := SelectVariant(variants);
        if variant.Some? && variant.value != [] {
          downloadUrl := Some(variant.value + "/normal");
          completions := [Complete(Completion(download.err, Some(CloudflareData(variant.value, download.imageBody))))];
        }
      case Rejected(message) =>
        completions := [Complete(Completion(Some(message), None))];
    }
    var events := if timedOutFirst then [Timeout] + completions else completions + [Timeout];
    forwarded := RunGuard(TimeoutMessage, events);
  }
}
