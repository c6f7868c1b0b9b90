# Content-moderation upload page: a Dafny model of its decision logic

The system is a single web page. The user enters the URL of a moderation endpoint and picks an
image. The page downscales the image so that its longer side is at most 1280 pixels, re-encodes
it as JPEG, and posts the base64 text to the endpoint. It then judges the image from the list of
moderation labels that comes back. A second component, the moderation report, groups those
labels by taxonomy level and gives each one a coloured confidence badge.

This project models the decisions the page and the report make:

- `ImageCompression` (`image_compression.dfy`): the resize rule of `compressImage`. When the
  longer side `m` exceeds 1280, each side becomes `floor(side * 1280 / m)`. The failure paths
  of decoding, encoding and reading back the payload are modelled as an outcome that is handed
  in. The rule is a function, with lemmas for its bounds, orientation and idempotence. The
  page's step-by-step reassignment of `width` and `height` is a method proved equal to it.
- `UploadPage` (`upload_page.dfy`):
  - the 10 MiB size gate, stated over integers;
  - the verdict over the returned labels;
  - the two-attempt delivery (a readable CORS request, then an opaque no-cors request when the
    first gave no parsed body);
  - the classification done by the connection probe.

  The page's state (`message`, `moderationLabels`, `loading`, plus a ghost field
  `effects` that records the compressions and requests it starts) is a class. `HandleSubmit` and `TestConnection` update
  that class step by step, and each is proved equal to a pure description of one submission
  (`Submit`) or one probe (`ProbeNotice`).
- `ModerationReport` (`moderation_report.dfy`):
  - the empty-list guard;
  - the grouping `reduce`, modelled as a loop over a `map<int, seq<Label>>` and proved against
    a filter per level;
  - the sorted, duplicate-free level list;
  - the maximum confidence;
  - the three-tier badge and the parent line.

  A lemma proves that the level blocks show every label exactly as often as it occurs in the
  input.
- `Common` and `ModerationLabels` (`common.dfy`): `Option`/`Result`, the thrown-value datatype
  and the label record.

Every outside effect is replaced by the value it yields:
- the browser's image decoder and encoder become an `ImageLoad` and a function from canvas
  size to an `Encoding`;
- the two `fetch` calls become a `CorsResult` and a `NoCorsResult`;
- the `OPTIONS` probe becomes a `ProbeResult`.

Confidences are `real`. Taxonomy levels are `int`.

Some behaviour follows from the code and is worth knowing:
- A delivery where both attempts fail always ends in the fixed "could not send" message. Both
  `fetch` calls are inside their own `try` blocks. So when every element of a returned array is
  a label object, the outer `catch` is reached only when `compressImage` rejects; that `catch`
  tells a connection error apart from other errors. An array with a `null` element is an
  exception: it is stored first, then reading `Confidence` throws into that `catch`. Other
  non-object elements (`5`, `"x"`, `true`) do not throw: their `Confidence` is `undefined`, which
  is not above 90, so they are read as labels with no confidence above 90. The model takes label
  objects as given (see "Left out").
- An ok CORS response whose body is not JSON makes `.json()` reject inside the first `try`. The
  model treats it as a failed first attempt (`BodyNotJson`), so the no-cors attempt is made.
- A parsed body that is falsy (`null`, `0`, `false`, `""`) leads to the message that the
  result is not accessible, even though the CORS attempt succeeded.
- A very thin image loses its short side. 3000 x 2 becomes 1280 x 0 (`ThinImageCollapses`).
  What the encoder then does with an empty canvas is part of the abstract encoder outcome.

## Model

| member | source | states |
|---|---|---|
| ImageCompression.FitWithin | code/app/page.tsx:60-68 | the resize rule itself: when the longer side `m` exceeds 1280, each side becomes `side * 1280 / m` floored; otherwise the size is kept. Its contract gives both sides at most 1280 and at most their original value, and leaves the size unchanged exactly when the longer side is within 1280. `WithinLimitUnchanged`, `OverLimitScaled`, `FitsLimit`, `KeepsOrientation` and `Idempotent` carry its other properties |
| ImageCompression.WithinLimitUnchanged | code/app/page.tsx:61-68 | an image whose longer side is at most 1280 keeps its width and height |
| ImageCompression.OverLimitScaled | code/app/page.tsx:63-66 | over the limit, each new side is the floor of `side * 1280 / max` (bounded by the two products), no side exceeds 1280 or its original value, and the longer side becomes exactly 1280 |
| ImageCompression.FitsLimit | code/app/page.tsx:60-66 | every resized image fits within 1280 x 1280, and an oversized one reaches 1280 on its longer side |
| ImageCompression.KeepsOrientation | code/app/page.tsx:64-66 | a landscape image stays landscape (`width >= height`) and a portrait one stays portrait |
| ImageCompression.Idempotent | code/app/page.tsx:61-68 | resizing an already resized image changes nothing |
| ImageCompression.ThinImageCollapses | code/app/page.tsx:63-66 | a 3000 x 2 image is resized to 1280 x 0 |
| ImageCompression.Compression | code/app/page.tsx:52-109 | `compressImage` rejects only with a plain `Error`: with the load-error text when decoding failed, the compression-error text when no blob was produced, and the read-error text when reading the blob failed. It resolves exactly when the image decoded and the encoder produced base64 at the resized size; it then resolves with that text, and that size fits the limit |
| ImageCompression.CompressImage | code/app/page.tsx:58-102 | the step-by-step reassignment of `width` and `height`, followed by encoding, yields the same outcome as `Compression` |
| UploadPage.PayloadTooLarge | code/app/page.tsx:137-147 | the payload is refused exactly when its base64 length exceeds 13981013, i.e. when `len * 3 / 4` bytes exceed 10 MiB |
| UploadPage.GateMatchesEstimate | code/app/page.tsx:137-147 | the integer gate agrees with the page's formula `(len * 3/4) / (1024 * 1024) > 10` in exact arithmetic |
| UploadPage.HighConfidenceLabels | code/app/page.tsx:208 | the filtered list holds exactly the labels whose confidence is above 90 and is no longer than the input |
| UploadPage.HighConfidenceCount | code/app/page.tsx:208-213 | the filter keeps every label above 90 as often as it occurs and no other label, so its length, which the rejection message reports, is the number of labels above 90 |
| UploadPage.LabelVerdict | code/app/page.tsx:200-221 | an empty list is apt; a list with some label above 90 is rejected with the count of such labels (at least one); otherwise it is accepted with a caveat whose count is the list length; the rejected count is the filter's length, which `HighConfidenceCount` shows is the number of labels above 90; the message is an error exactly when some label is above 90 |
| UploadPage.VerdictAgreesWithBadges | code/app/page.tsx:207-210 | the verdict rejects the image exactly when some label would get a red badge in the report, and every counted label has a red badge |
| UploadPage.Deliver | code/app/page.tsx:153-193 | the CORS attempt always comes first and is made once; there is one attempt in all after a readable CORS success and two otherwise; the no-cors attempt is made exactly when the CORS attempt gave no parsed body; `success` holds exactly when either attempt did not fail; `responseData` is set exactly on a readable CORS success, and to its body |
| UploadPage.Notice.Kind | code/app/page.tsx:118-386 | the `type` of every message the page sets: success exactly for the apt verdict, the accepted-with-caveat verdict, the generic and the no-access send successes, and the confirmed probe; every validation, size, send, rejection and probe failure is an error |
| UploadPage.SubmitErrorText | code/app/page.tsx:239-246 | the outer `catch`'s three-way mapping: a `TypeError` whose message contains "Failed to fetch" is a connection error, any other thrown value is unknown exactly when it is not an `Error`, and otherwise the error's own message is shown. Only the own-message branch is reachable in this model: the only thing that reaches this `catch` is a `compressImage` rejection, which is always a plain `Error` (`Compression`, `CompressionFailureStops`) |
| UploadPage.DeliveryNotice | code/app/page.tsx:195-234 | the message after delivery: the fixed send error when neither attempt succeeded, and `LabelVerdict` of the labels for a readable array. It is an error exactly when delivery failed, or when a readable array holds a label above 90 |
| UploadPage.Submit | code/app/page.tsx:112-250 | one whole submission, the reference `Page.HandleSubmit` is proved equal to. Failed validation produces no effect and no labels. Every request goes to the entered URL, with the compressed payload, which passed the size gate. Labels are kept only after a CORS request was made. The lemmas that follow characterise each path |
| UploadPage.ValidationFirst | code/app/page.tsx:114-125 | a missing URL gives the URL error and, with a URL, a missing image gives the image error; in both cases there are no labels and nothing is compressed or sent |
| UploadPage.CompressionFailureStops | code/app/page.tsx:236-246 | a failed compression ends with the encoder's own message; there are no labels and no request |
| UploadPage.OversizedPayloadNotSent | code/app/page.tsx:137-147 | a payload over the gate gives the size error; there are no labels and no request |
| UploadPage.DeliveryAttempts | code/app/page.tsx:156-193 | a payload that passes the gate is posted with CORS and then, only when that attempt gave no parsed body, posted again without CORS |
| UploadPage.LabelArrayVerdict | code/app/page.tsx:195-221 | a readable label array is stored as it is and judged by `LabelVerdict`; the message is an error exactly when some label is above 90 |
| UploadPage.NoLabelArrayOutcomes | code/app/page.tsx:222-234 | without a readable array: a truthy non-array body gives the generic success, a falsy body or an opaque dispatch gives the no-access success, and two failed attempts give exactly one error |
| UploadPage.LabelsOnlyFromReadableArray | code/app/page.tsx:196-197 | labels are stored only when they arrived as a readable CORS array |
| UploadPage.ProbeErrorText | code/app/page.tsx:384-386 | the probe's `catch`: an `Error` is shown with its own message, and any other thrown value is unknown; unlike the submission's `catch`, there is no connection-error case |
| UploadPage.ProbeNotice | code/app/page.tsx:379-387 | the probe reports success exactly for status 200, and then it is the connection-confirmed notice; any other status is reported with that status; a thrown value is reported as unreachable, with its message when it is an `Error` and as unknown otherwise (`ProbeErrorText`) |
| UploadPage.Page.constructor | code/app/page.tsx:19-24 | the page starts with no URL, no image, not loading, no message and no labels |
| UploadPage.Page.EnterUrl | code/app/page.tsx:278 | typing sets the URL and changes nothing else |
| UploadPage.Page.ChooseImage | code/app/page.tsx:26-29 | picking a file sets the image and changes nothing else |
| UploadPage.Page.ShowsReport | code/app/page.tsx:415-419 | the report is mounted exactly when labels are stored |
| UploadPage.Page.Send | code/app/page.tsx:153-234 | the network part of the handler: it posts the requests `Deliver` describes, in order, to the entered URL and with the payload, and leaves the message `DeliveryNotice` gives and the labels `DeliveredLabels` gives; URL, image and `loading` are unchanged |
| UploadPage.Page.HandleSubmit | code/app/page.tsx:112-250 | the handler leaves the message, the stored labels and the effects that `Submit` describes; URL and image are unchanged; `loading` is untouched when validation fails and false afterwards otherwise |
| UploadPage.Page.TestConnection | code/app/page.tsx:361-388 | without a URL the probe shows the URL error and sends nothing; otherwise it sends one `OPTIONS` request and shows `ProbeNotice` of its result; nothing else changes |
| ModerationReport.BadgeTier | code/components/moderation-report.tsx:81-85 | red exactly above 90, amber exactly in (70, 90], blue exactly at or below 70 |
| ModerationReport.ShowsParent | code/components/moderation-report.tsx:72-76 | the parent line is shown exactly when the parent name is non-empty |
| ModerationReport.AtLevelAppend | code/components/moderation-report.tsx:21-30 | a group keeps input order: the group of `a + b` is the group of `a` followed by the group of `b` |
| ModerationReport.AtLevelContents | code/components/moderation-report.tsx:21-30 | a group holds only labels of its level, each as often as in the input, and is non-empty exactly when its level occurs |
| ModerationReport.GroupedByPush | code/components/moderation-report.tsx:22-27 | creating the missing group and pushing the label keeps the accumulator a grouping of the labels seen so far |
| ModerationReport.GroupByLevel | code/components/moderation-report.tsx:21-30 | the accumulator has one key per level present, and under each key the labels of that level in input order |
| ModerationReport.SortedKeys | code/components/moderation-report.tsx:32-34 | the levels come out strictly ascending, with exactly the keys and no duplicates |
| ModerationReport.MaxConfidence | code/components/moderation-report.tsx:37 | the maximum is at least every label's confidence and is the confidence of some label |
| ModerationReport.ListedIsPermutation | code/components/moderation-report.tsx:58-64 | listing each present level's group once shows every label exactly as often as in the input, so the group sizes add up to the number of labels |
| ModerationReport.SectionsCoverLabels | code/components/moderation-report.tsx:32-64 | the level blocks have the sorted levels as headings, each block lists its level's labels with their badges, and together the blocks show a permutation of the input |
| ModerationReport.BuildReport | code/components/moderation-report.tsx:15-37 | nothing is rendered exactly for a missing or empty list; otherwise the report shows the label count and the maximum confidence, with one block per present level in ascending order, listing that level's labels in input order, and every label appears exactly as often as it occurs |

## Left out

- ImageCompression.FitWithin, ImageCompression.OverLimitScaled, ImageCompression.FitsLimit: the rule is stated in exact arithmetic. The page multiplies by the double `1280 / max`, which is rounded, so for some longer sides (2139, for one) the product falls just below 1280 and the side becomes 1279. A 2139 x 1000 image is drawn at 1279 x 598 by the page and at 1280 x 598 by `FitWithin`, and `Compression` hands the encoder that size. The equality with 1280 in both lemmas, and the floors in general, hold for the exact ratio only.
- ImageCompression.Compression: the first `FileReader` in `compressImage`, which reads the picked file, has no `onerror` handler. When that read fails the promise never settles, and the submission stays `loading` with the "processing" message. The model has no outcome for this: `ImageLoad` starts from a file that was read.
- ImageCompression.Compression: image decoding, `drawImage`, JPEG encoding at quality 0.85 and `FileReader` are browser APIs. They appear only through their outcomes (a natural size or a decode error; base64, no blob, or a read error). The missing-2D-context case is part of the encoder outcome.
- UploadPage.PayloadTooLarge: the size line and the error text format sizes with `toFixed` in MB, which is floating-point display. The notice carries the base64 length instead.
- UploadPage.Page.HandleSubmit: the intermediate "processing" and "compressed" success messages, which a later message overwrites, are not modelled. The reduction percentage divides by the original size in MB (which can be 0) and only feeds those messages, so it is left out too. `console` logging is left out.
- UploadPage.Page.HandleSubmit: the React state setters are modelled as field assignments, and the `await` points as calls that return at once. A second submission while one is pending is not modelled.
- UploadPage.Page.ChooseImage: the file-picker and drag-and-drop handlers are reduced to setting the image. The drop handler's `image/` MIME filter and the preview data URL are presentational and are not modelled.
- The message texts (Spanish prose, emoji, singular/plural suffix) are represented by `Notice` constructors that carry the figures the texts embed.
- `fetch`, CORS and no-cors semantics and the `OPTIONS` request are abstracted to result values.
- UploadPage.LabelArrayVerdict: every element of a readable JSON array is taken to be a label object. An array with a `null` element is stored as the labels, and then reading `Confidence` throws a `TypeError`. The outer `catch` turns that into the "Error al enviar" message while the labels stay stored. Other non-object elements do not throw: they are read as labels with no confidence above 90, so they can only lead to the caveat message. The model represents neither kind of array.
- The unused `maxSizeMB` parameter of `compressImage` has no behaviour and is not modelled.
- The JSX layout, styling and icons of both components are not modelled. Neither are the `toFixed(2)` display of confidences or the `key` props.
- ModerationReport.SortedKeys: levels are integers, so the round trip through object keys (`Object.keys(...).map(Number)`) is modelled as the set of levels. Non-integer or `NaN` levels and confidences are outside the model.
- `handler.py` (the AWS Lambda that calls Rekognition) is not part of this model. It is a wrapper over boto3 and base64 decoding.
