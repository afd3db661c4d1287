# storage-api gateway model

A Dafny model of the core of `storage-api`. The service is an Express
gateway. It stores store (tenant) files on DigitalOcean Spaces through the S3
API and has image variants produced by Cloudflare Images or Cloudinary.

Every network call is a parameter here: a storage put is a success flag, the
provider's answer is a settled value, and a download is the pair it calls back
with. What remains is the gateway's own logic:

- **Object keys** (`Keys`, with the JavaScript string behaviour in `Text`):
  - the upload key `@v3/<directory>/<timestamp>-<name>` with its sanitising
    filters;
  - the `<storeId>/<key>` storage key;
  - the public URL built by `mountUri`;
  - the `imgs/<label>/<key>.webp|.avif` variant keys.
- **Tenant scoping and fan-out** (`Tenant`): `runMethod` prefixes `Key` and
  `Prefix` with the store id. It then calls the method on every secondary
  space and finally on the primary one, whose result it returns.
- **Size-variant table** (`Optims`): `pictureOptims`, two entries per
  configured size.
- **Upload handler** (`Picture`):
  - the original put, with the 3001 and 3002 errors;
  - the `zoom` entry;
  - the loop over the table. It stores each variant the provider returned and
    records the first stored variant of each label.
- **Request decisions** (`Gateway`, `Errors`):
  - the `sendError` envelope;
  - the store middleware (codes 101–105), composed with the Store API
    classifier;
  - the S3 passthrough endpoint (codes 3011, 3012, 3013 and 3019).
- **Respond-once guard** (`Guard`): `lib/Cloudflare.js:28-43` and
  `lib/Cloudnary.js:36-49` hold the same guard. It is modelled once, as a
  class over completion and timeout events.
- **Providers** (`Cloudflare`, `Cloudinary`):
  - Cloudflare's choice of a delivery variant and its `/normal` download;
  - Cloudinary's upload options;
  - the success and error paths of both, behind the guard.
- **Store API authentication** (`Auth`):
  - the request queue: a push appends, a tick shifts at most one request;
  - the status classification;
  - the request headers.

Behaviour of the code that is easy to misread:

- There is no mimetype check on uploads. Only the multipart parser's failure
  gives 3001. A request without a `file` field passes the parser, and then
  `req.file.originalname` throws a `TypeError`, so the handler itself never
  answers (`HandlerThrew`).
- `?directory=/a//b` yields the directory `ab/`, not `a/b/`. The first `//` is
  deleted outright.
- `..` segments are not rejected. The filter removes their dots, but only the
  first `//` left behind is deleted: `/a/../b/../c` yields `ab//c/`
  (`Keys.DotDotSegments`), so an empty segment can remain in the key.
- `runMethod` only prefixes a `Key` or `Prefix` that does not already start
  with three or more digits and `/`. A value naming another store, such as
  `102/x` sent by store 101, reaches the space unchanged
  (`Tenant.OtherTenantKeyPassesThrough`). Scoping never touches anything else:
  only a present, non-empty string `Key` or `Prefix` is ever prefixed
  (`Tenant.ScopingChangesExactly`). A `listObjects` call without `Prefix`
  therefore lists every store's objects
  (`Tenant.UnscopedWithoutKeyOrPrefix`), and any other parameter that names an
  object, such as the `CopySource` of `copyObject` or the `Delete` list of
  `deleteObjects`, reaches the space unchanged.
- There is no retry, backoff, pending-callback store or size-based choice
  between variants.
- Store id 100 passes the middleware (`>= 100`), but scoping needs `> 100`.
  The `Key` and `Prefix` parameters store 100 sends to the S3 endpoint are
  therefore never scoped, so it can name any object in the bucket
  (`Gateway.StoreHundredUnscoped`). Its uploads are still stored under `100/`
  (`Keys.StoredKeyShape`).

## Model

| member | source | states |
|---|---|---|
| Text.Keep | bin/web.js:238 | global removal of a negated character class: the result holds only allowed characters of the input, is no longer than it, and equals it when every character is allowed |
| Text.LowerCase | bin/web.js:245 | `toLowerCase` on ASCII text: same length, no upper-case letter left, other characters unchanged |
| Text.TrimStart | bin/web.js:134 | the white space `parseInt` skips (tab, vertical tab, form feed, U+FEFF, every Zs space separator and the four line terminators): exactly the longest prefix of white space is dropped, so the result is a suffix that does not start with white space |
| Text.Decimal | bin/web.js:252 | number-to-string conversion: a non-empty run of digits, at least three of them for numbers of 100 and above |
| Text.DecimalValue | bin/web.js:252 | the digits written for `n` denote `n` |
| Text.ParseDecimal | bin/web.js:134 | `parseInt(String(n), 10)` gives back `n` |
| Text.ContainsInfix | bin/web.js:364 | `/p/.test(s)` holds whenever `p` occurs in `s` |
| Text.ContainsWitness | bin/web.js:364 | when `/p/.test(s)` holds, `p` occurs at some index of `s` |
| Errors.SendError | bin/web.js:98-115 | the envelope repeats status and code; an empty developer message becomes `Unknow error` and a missing user message the bilingual `Unexpected error` text; given ones are kept |
| Keys.FirstDoubleSlash | bin/web.js:238 | the search for the string pattern `//` finds its first occurrence, or reports none when no `//` occurs |
| Keys.DropFirstDoubleSlash | bin/web.js:238 | `replace('//', '')` with a string pattern: a string without `//` is unchanged; otherwise the result is the string with exactly its first `//` cut out, and later ones are kept |
| Keys.SanitizedDirectory | bin/web.js:238 | the filter's output with its first `//` cut out, or the filter's output unchanged when it has none; only `[A-Za-z0-9_/-]` remains and the result is no longer than the input |
| Keys.DirectoryPart | bin/web.js:236-242 | the directory part is empty unless the parameter starts with `/`; a non-empty part ends with `/`, holds no upper-case letter and no `.`, and is no longer than the parameter |
| Keys.DirectoryBehindSlash | bin/web.js:236-242 | for a parameter `/d`, the part is the sanitised `d` lower-cased and followed by `/`, and empty when nothing survives the filters (`/`, `/..`, `/%`) |
| Keys.CleanDirectoryKept | bin/web.js:236-242 | a parameter `/d` where `d` is non-empty, holds only `[A-Za-z0-9_/-]` and no `//` gives exactly `d` lower-cased followed by `/` |
| Keys.KeepRemovesDotDot | bin/web.js:238 | the filter turns `a..b` into `ab` when `a` and `b` hold only kept characters |
| Keys.DotDotSegments | bin/web.js:236-242 | for plain segments `a`, `b`, `c`, the parameter `/a/../b/../c` gives `a` `b` `//` `c` `/`: the first `//` left by the filter is deleted and the second one stays |
| Keys.SanitizedName | bin/web.js:245 | the file name keeps only `[a-z0-9_.-]` and does not grow |
| Keys.FilePart | bin/web.js:246 | `<timestamp>-<name>` starts with a digit and contains no `/`, no upper-case letter, only name characters |
| Keys.ObjectKeyShape | bin/web.js:225-246 | every upload key starts with `@v3/`, has no path segment starting with `.`, holds only `[a-z0-9_./-]` after the prefix, and ends with the file part |
| Keys.StoredKeyShape | bin/web.js:252 | the stored key is the object key behind exactly the store id's digits and one `/` |
| Keys.BaseHost | bin/web.js:258 | `cdnHost \|\| host`: the CDN host unless it is empty |
| Keys.MountUri | bin/web.js:258 | the public URL is `https://<host>/` followed by exactly the key the object is stored under |
| Keys.VariantKey | bin/web.js:290-300 | a variant key is `imgs/`, the label, `/`, the upload key and `.avif` or `.webp` according to the encoding |
| Optims.ConfiguredSizes | bin/web.js:41 | the sizes default to `[700, 350]` only when none are configured; an empty configured list is kept |
| Optims.SizeLabel | bin/web.js:42 | the label is `big` exactly for position 0, `normal` exactly for 1 and `small` for every later one |
| Optims.BuildOptims | bin/web.js:41-46 | the table has two entries per size, the webp entry of size i at 2i and its avif entry at 2i+1, each with size i's label; no entry is labelled `zoom` |
| Optims.TableEntry | bin/web.js:41-46 | entry j of a table belongs to size j/2 and is the avif entry exactly when j is odd |
| Picture.FindTransformation | bin/web.js:280-285 | `find` gives the first transformation with the entry's label and encoding, or none when no transformation has them |
| Picture.AssemblePicture | bin/web.js:278-321 | the loop leaves the picture map and the list of puts described by the entry-by-entry specification |
| Picture.EntriesKept | bin/web.js:311-316 | an entry already in the map, such as `zoom`, is never removed or overwritten |
| Picture.PictureKeys | bin/web.js:303-316 | the map gains exactly the labels of the entries that had a transformation and whose put succeeded |
| Picture.FirstStored | bin/web.js:311 | the first entry of a label whose variant was stored, with no earlier stored entry of that label |
| Picture.FirstSuccessWins | bin/web.js:311-316 | a new label is present exactly when one of its variants was stored, and holds the first stored variant's URL and size |
| Picture.NothingStored | bin/web.js:317-319 | when every put fails or nothing matches, the map is unchanged |
| Picture.PutIssued | bin/web.js:302-309 | every entry with a transformation issues a put of its body under `<storeId>/imgs/<label>/<key>.<ext>` with the matching content type |
| Picture.UrlsPointAtPuts | bin/web.js:304-315 | every URL the loop adds is the public URL of the key of a put that was issued and succeeded |
| Picture.WebpPreferred | bin/web.js:278-316 | for the labels `big` and `normal` the webp variant wins when its put succeeds, and the avif one only when the webp one failed |
| Picture.NewObjectKey | bin/web.js:225-246 | the key built by appending is the upload key: prefix `@v3/`, no dot segment, file part last |
| Picture.HandleUpload | bin/web.js:228-342 | a parse error gives 400/3001 with no put; a request without a file makes the handler throw before any put and without an answer; otherwise the original is put first under `<storeId>/<key>`; a failed put gives 400/3002; a stored one answers bucket, key and URI with `zoom` pointing at the original, plus the loop's variants when the provider answered, or `zoom` alone when it failed |
| Picture.RespondStored | bin/web.js:254-333 | after the original is stored, the answer carries the bucket, the key and its public URI, `zoom` points at the original, and the variants and their puts are those of the loop when the provider answered, none when it failed |
| Tenant.HasTenantPrefixMeans | bin/web.js:68 | the prefix test holds exactly when three or more digits at the start are followed by `/` |
| Tenant.TenantScoped | bin/web.js:64-72 | scoping keeps the parameter names, changes nothing but `Key` and `Prefix`, and changes nothing at all unless the store id is above 100 |
| Tenant.ScopingChangesExactly | bin/web.js:64-72 | a parameter changes exactly when the store id is above 100, its name is `Key` or `Prefix` and its value is a non-empty string without a tenant prefix; every other value passes through unchanged |
| Tenant.OtherTenantKeyPassesThrough | bin/web.js:68-70 | a value already prefixed with any store id of 100 or more, another store's included, is passed through unchanged under every store id |
| Tenant.UnscopedWithoutKeyOrPrefix | bin/web.js:64-72 | a call carrying neither `Key` nor `Prefix`, such as a `listObjects` without a prefix, reaches the spaces with all its parameters unchanged under every store id |
| Tenant.PrefixedHasTenantPrefix | bin/web.js:69 | a value prefixed with a store id of 100 or more passes the prefix test |
| Tenant.ScopedValuesArePrefixed | bin/web.js:64-72 | after scoping, a non-empty `Key` or `Prefix` string carries a tenant prefix and is either unchanged or `<storeId>/` plus the old value |
| Tenant.ScopingIdempotent | bin/web.js:64-72 | scoping twice is scoping once |
| Tenant.RunMethod | bin/web.js:64-92 | every secondary space is called unless the method is `listObjects`, the primary last; each call gets the scoped parameters with `Bucket` set to its own space's bucket; the result is the primary call's |
| Gateway.Admit | bin/web.js:132-173 | the Store API is consulted exactly when the store id parses to at least 100 and both headers are present; otherwise 403/101 for the store id, or 403/102 for the headers |
| Gateway.OnAuthReply | bin/web.js:136-159 | the request proceeds exactly on `(null, true)`; no error otherwise gives 401/103; an error with a response 400/104 with its message; an error without one 500/105 |
| Gateway.StoreMiddlewareTable | bin/web.js:132-173 | with the Store API's reply, a request proceeds exactly when its store id is at least 100, both headers are present and the reply is 2xx; 401 gives 401/103, another status 400/104 naming it, a network failure 500/105 |
| Gateway.StoreHundredUnscoped | bin/web.js:65 | store 100 with any non-empty credentials is admitted to the Store API check, and scoping leaves every parameter map it sends unchanged |
| Gateway.BodyParams | bin/web.js:349-360 | a falsy body means no parameters, an object is used as it is, anything else is invalid |
| Gateway.HandleS3 | bin/web.js:347-386 | an invalid body gives 400/3013 first; then a name without `Object` gives 403/3011 and an unknown method 404/3012, with no call made; otherwise the primary call gets the scoped body, and its data is returned or its error becomes 400/3019 |
| Auth.UnexpectedStatusNamesCode | lib/Auth.js:38 | the unexpected-status message contains the status code |
| Auth.Classify | lib/Auth.js:29-46 | 2xx gives `(null, true)`, 401 `(null, false)`; any other status an error naming it with the response; a network error only the error |
| Auth.HeadersCarryRequest | lib/Auth.js:24-28 | the request carries exactly `X-Store-ID`, `X-My-ID` and `X-Access-Token` from the queued tuple, and the store id header parses back to the store id |
| Auth.RequestQueue.constructor | lib/Auth.js:9 | the queue starts empty |
| Auth.RequestQueue.Push | lib/Auth.js:49-51 | a call only appends its request to the tail |
| Auth.RequestQueue.Tick | lib/Auth.js:10-16 | a tick on an empty queue does nothing; otherwise it sends the head and keeps the rest in order |
| Auth.Drain | lib/Auth.js:9-16 | over any run of calls and ticks, the sent requests followed by the waiting ones are exactly the queued requests in call order, and no more are sent than there were ticks |
| Auth.TicksSendWaiting | lib/Auth.js:10-16 | with no new calls, n ticks send the first n waiting requests in order, so enough ticks empty the queue |
| Auth.RunQueue | lib/Auth.js:9-55 | the queue object, driven by a run of events, sends and keeps exactly what the FIFO specification says |
| Guard.Forwarded | lib/Cloudflare.js:28-43 | for any run of events the caller receives at most one completion, and one exactly when some event arrived |
| Guard.OnceGuard.constructor | lib/Cloudflare.js:28-43 | the guard starts with nothing sent and the timer pending |
| Guard.OnceGuard.Callback | lib/Cloudflare.js:29-37 | a completion is forwarded only if nothing was before; every call clears the timer |
| Guard.OnceGuard.Fire | lib/Cloudflare.js:40-43 | a pending timer forwards the timeout error through the guard; a cleared timer does nothing |
| Guard.OnceGuard.Deliver | lib/Cloudflare.js:28-43 | any event reaching the guard is forwarded only if it is the first, and leaves the timer cleared |
| Guard.RunGuard | lib/Cloudflare.js:28-43 | a fresh guard fed any run of events forwards exactly the first event's answer |
| Guard.OnlyTimeoutAnswers | lib/Cloudflare.js:40-43 | when the timer comes first, the caller receives exactly one timeout error |
| Guard.LaterEventsIgnored | lib/Cloudflare.js:30-33 | events after the first never change what the caller received |
| Cloudflare.SelectVariant | lib/Cloudflare.js:52-53 | no variant for an absent or empty list, the only one for a list of one, the second one otherwise |
| Cloudflare.UsableVariant | lib/Cloudflare.js:52-54 | the success path goes on exactly with a selected variant that is a non-empty string |
| Cloudflare.Optimize | lib/Cloudflare.js:18-65 | the caller always receives exactly one completion. It is the timeout error when the timer comes first or no usable variant exists, the upload's error when the upload fails, and otherwise the variant and downloaded body with the download error. The download URL is `<variant>/normal` |
| Cloudinary.UploadOptions | lib/Cloudnary.js:20-32 | `quality: auto` always; width, height and `crop: limit` exactly when the size is truthy, the size in both dimensions; `fetch_format: auto` exactly when webp is asked for |
| Cloudinary.BuildOptions | lib/Cloudnary.js:20-32 | the options built field by field are those options |
| Cloudinary.Optimize | lib/Cloudnary.js:18-67 | the caller always receives exactly one completion. It is the timeout error when the timer comes first, the upload's error with no download when the upload fails, and otherwise format, URL and body from a download of the returned URL |

## Left out

- Express routing, CORS, `body-parser`, the `multer` size limit, reading the
  configuration file and `app.listen`: these are framework plumbing. The
  multipart parser's verdict is an input (`parseError`).
- The AWS SDK (`lib/Aws.js`), HTTP downloads (`lib/Download.js`,
  `lib/RequestDownload.js`), the Kraken client and `main.js` are external I/O.
  A put is a success flag, a download is its `(err, body)` pair, and the set
  of S3 client methods is a parameter.
- Timers and the clock are modelled as events and parameters:
  - `Date.now` is the `now` argument;
  - the 500 ms auth tick is a `Tick` event;
  - the 20 s provider timeout is a `Timeout` event;
  - the 50 ms and 100 ms delays are left out.
- Logging is a side effect only.
- The `extra: {}` field of the upload response is a constant. It is not
  modelled.
- The wiring between the upload handler and the Cloudflare module differs in
  this snapshot. `bin/web.js:276-277` expects a promise of `transformations`,
  while `lib/Cloudflare.js:18` exports a four-argument callback function. The
  upload handler therefore takes the provider's settled transformation list as
  an input. `Cloudflare.Optimize` models the module's own callback protocol.
  As written, `cloudflare(req.file, pictureOptims)` at `bin/web.js:276` throws
  inside the `.then` that follows the stored original: the `ReferenceError` at
  `lib/Cloudflare.js:25`, or else a `TypeError` from calling `.then` on the
  `undefined` the function returns. The `.catch` at `bin/web.js:336-342` then
  answers 400/3002, so every upload whose original was stored fails and the
  client never gets the URI. `Picture.HandleUpload` and
  `Picture.RespondStored` describe the handler under the promise wiring that
  `bin/web.js:276-277` expects.
- `runMethod` expects the space clients to expose `runMethod`, which
  `lib/Aws.js:42-45` does not. The calls are modelled as the requests they
  would make, with one outcome per space.
- Cloudflare.Optimize: `lib/Cloudflare.js` never declares `logger`, so as
  written every call throws a `ReferenceError` at line 25, before the timer is
  set and before any callback. The model assumes `logger` is defined, as it is
  in `lib/Cloudnary.js:4`, and describes the function past that line.
- Picture.HandleUpload: each put is one success flag. The fan-out of every put
  to the secondary spaces, which `Tenant.RunMethod` models, is not repeated
  there.
- Picture.HandleUpload: the constant ACL and cache-control options of every
  put are not part of `PutRequest`.
- Cloudinary.Optimize: when the upload fails, the callback destructures its
  second argument. The model assumes that argument is an object.
- Cloudflare.Optimize: a failure thrown inside the success path is not
  modelled, nor is a download that calls back twice. Only the rejected upload
  reaches `.catch`.
- Text.ParseInt: the model does not lose precision above 2^53. Numbers are
  written without exponent notation. Characters outside the Basic
  Multilingual Plane are single characters here, not surrogate pairs; none of
  them is white space, so the skipped prefix is the same.
- Text.LowerCase: `toLowerCase` is applied to ASCII only. The filters before
  it leave nothing else.
- Keys.DirectoryPart: only a string parameter is modelled. A repeated query
  parameter (an array) is not a string and adds nothing, which is the same as
  `None`.
- Auth.AuthRequest: the callback is identified by a number. Functions are not
  values here.
