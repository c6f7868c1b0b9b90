/** The decision logic of the upload page: the payload-size gate, the submission (validation,
    compression, a readable CORS attempt followed when needed by an opaque no-cors attempt,
    and the verdict over the returned labels) and the connection probe. The page's state is a
    class whose methods update it; the network, the browser's image pipeline and React's
    rendering are replaced by the values they produce. */
module UploadPage {
  import opened Common
  import opened ModerationLabels
  import opened ImageCompression
  import ModerationReport

  /** Ceiling, in MiB, on the estimated decoded size of the payload. */
  const MAX_PAYLOAD_MB: nat := 10

  /** A label whose confidence is above this rejects the image. */
  const HIGH_CONFIDENCE: real := 90.0

  /** The only probe status reported as a confirmed connection. */
  const PROBE_OK_STATUS: int := 200

  /** Text of the `TypeError` the browser throws when a request cannot be sent. */
  const FETCH_FAILURE := "Failed to fetch"

  // ---------------------------------------------------------------------------------------
  // Size gate

  /** The size gate: the decoded size is estimated as three quarters of the base64 length and
      compared, in MiB, with the ceiling. Stated over integers it admits base64 texts of up to
      13981013 characters. */
  function PayloadTooLarge(base64Length: nat): (tooLarge: bool)
    ensures tooLarge <==> base64Length > 13981013
  {
    base64Length * 3 > 4 * MAX_PAYLOAD_MB * 1024 * 1024
  }

  /** The integer gate agrees with the page's own formula `(length * 3/4) / (1024 * 1024) > 10`
      evaluated in exact arithmetic. */
  lemma GateMatchesEstimate(base64Length: nat)
    ensures PayloadTooLarge(base64Length)
      <==> (base64Length as real * 3.0 / 4.0) / (1024.0 * 1024.0) > MAX_PAYLOAD_MB as real
  {
  }

  // ---------------------------------------------------------------------------------------
  // Messages

  /** The `type` of a page message. */
  datatype MessageType = SuccessMessage | ErrorMessage

  /** How a thrown value is described to the user. */
  datatype ErrorText = ConnectionError | ErrorMessageText(text: string) | UnknownError

  /** The page messages this model distinguishes; each constructor carries the figures its text
      embeds (counts, a status, the payload length). */
  datatype Notice =
    | UrlRequired
    | ImageRequired
    | TooLarge(base64Length: nat)
    | Apt
    | Rejected(highConfidenceCount: nat)
    | AcceptedWithCaveat(labelCount: nat)
    | SentUnexpected
    | SentOpaque
    | SendFailed
    | SendError(reason: ErrorText)
    | ProbeUrlRequired
    | ProbeOk
    | ProbeUnexpectedStatus(status: int)
    | ProbeUnreachable(reason: ErrorText)
  {
    function Kind(): (k: MessageType)
      ensures k == SuccessMessage <==>
        this.Apt? || this.AcceptedWithCaveat? || this.SentUnexpected? || this.SentOpaque? || this.ProbeOk?
    {
      match this
      case Apt | AcceptedWithCaveat(_) | SentUnexpected | SentOpaque | ProbeOk => SuccessMessage
      case _ => ErrorMessage
    }
  }

  /** The outer `catch` of the submission: a `TypeError` about a failed fetch is a connection
      error, any other `Error` shows its message, anything else is unknown. */
  function SubmitErrorText(e: Thrown): (t: ErrorText)
    ensures t.ConnectionError? <==> e.JsError? && e.isTypeError && Contains(e.message, FETCH_FAILURE)
    ensures t.UnknownError? <==> e.NonError?
    ensures t.ErrorMessageText? ==> e.JsError? && t.text == e.message
  {
    if e.JsError? && e.isTypeError && Contains(e.message, FETCH_FAILURE) then ConnectionError
    else if e.JsError? then ErrorMessageText(e.message)
    else UnknownError
  }

  /** The probe's `catch`: an `Error` shows its message, anything else is unknown. */
  function ProbeErrorText(e: Thrown): (t: ErrorText)
    ensures !t.ConnectionError?
    ensures t.UnknownError? <==> e.NonError?
    ensures t.ErrorMessageText? ==> e.JsError? && t.text == e.message
  {
    if e.JsError? then ErrorMessageText(e.message) else UnknownError
  }

  // ---------------------------------------------------------------------------------------
  // Verdict over the returned labels

  /** `labels.filter(label => label.Confidence > 90)`. */
  function HighConfidenceLabels(ls: seq<Label>): (high: seq<Label>)
    ensures |high| <= |ls|
    ensures forall l :: l in high <==> l in ls && l.confidence > HIGH_CONFIDENCE
  {
    if ls == [] then []
    else
      var rest := HighConfidenceLabels(ls[1..]);
      assert forall l :: l in ls <==> l == ls[0] || l in ls[1..];
      if ls[0].confidence > HIGH_CONFIDENCE then [ls[0]] + rest else rest
  }

  /** The filter keeps every label above 90 as often as it occurs and drops every other one,
      so its length is the number of labels above 90. */
  lemma {:induction false} HighConfidenceCount(ls: seq<Label>)
    ensures forall l ::
      multiset(HighConfidenceLabels(ls))[l] == (if l.confidence > HIGH_CONFIDENCE then multiset(ls)[l] else 0)
  {
    if ls != [] {
      assert ls == [ls[0]] + ls[1..];
      HighConfidenceCount(ls[1..]);
    }
  }

  /** The verdict over a label array: none means apt, any label above 90 rejects the image
      with the number of such labels, otherwise the image is accepted with a caveat naming
      the number of labels. */
  function LabelVerdict(ls: seq<Label>): (n: Notice)
    ensures ls == [] ==> n == Apt
    ensures (exists l :: l in ls && l.confidence > HIGH_CONFIDENCE) ==>
      n == Rejected(|HighConfidenceLabels(ls)|) && n.highConfidenceCount >= 1
    ensures ls != [] && (forall l :: l in ls ==> l.confidence <= HIGH_CONFIDENCE) ==>
      n == AcceptedWithCaveat(|ls|)
    ensures n.Kind() == ErrorMessage <==> exists l :: l in ls && l.confidence > HIGH_CONFIDENCE
  {
    if |ls| == 0 then Apt
    else
      var high := HighConfidenceLabels(ls);
      if |high| > 0 then
        assert high[0] in high;
        Rejected(|high|)
      else
        AcceptedWithCaveat(|ls|)
  }

  /** The page and the report use the same threshold: the verdict rejects the image exactly
      when the report would give some label a red badge, and every label it counts has one. */
  lemma VerdictAgreesWithBadges(ls: seq<Label>)
    ensures LabelVerdict(ls).Rejected?
      <==> exists l :: l in ls && ModerationReport.BadgeTier(l.confidence) == ModerationReport.Red
    ensures forall l :: l in HighConfidenceLabels(ls) ==> ModerationReport.BadgeTier(l.confidence) == ModerationReport.Red
  {
  }

  // ---------------------------------------------------------------------------------------
  // Delivery

  /** A parsed JSON body: an array (taken as labels) or any other value, with its truthiness. */
  datatype JsonValue = LabelArray(labels: seq<Label>) | NonArray(truthy: bool)

  /** What the readable CORS POST gave: an ok response whose body parsed, an ok response whose
      body did not parse as JSON, a non-ok status, or a thrown error. */
  datatype CorsResult = Readable(body: JsonValue) | BodyNotJson | NotOk(status: int) | Threw(error: Thrown)

  /** What the opaque no-cors POST gave: dispatched, or a thrown error. */
  datatype NoCorsResult = Dispatched | DispatchThrew(error: Thrown)

  datatype Mode = Cors | NoCors

  /** Outward actions of the page, in the order it takes them. */
  datatype Effect = Compress(file: ImageFile) | Post(mode: Mode, url: string, body: string) | Preflight(url: string)

  /** The picked file (its contents are reached only through the browser). */
  datatype ImageFile = ImageFile(name: string, size: nat, mimeType: string)

  function Truthy(v: JsonValue): bool
  {
    match v
    case LabelArray(_) => true
    case NonArray(truthy) => truthy
  }

  /** Where the two attempts left `success` and `responseData`, and which attempts were made. */
  datatype Delivery = Delivery(success: bool, responseData: Option<JsonValue>, attempts: seq<Mode>)

  /** The two-attempt delivery: the no-cors attempt is made exactly when the CORS attempt did
      not yield a parsed body; delivery succeeds when the CORS attempt gave a parsed body or the
      no-cors attempt did not throw; the
      response is known only from a readable CORS success. */
  function Deliver(cors: CorsResult, noCors: NoCorsResult): (d: Delivery)
    ensures |d.attempts| == (if cors.Readable? then 1 else 2) && d.attempts[0] == Cors
    ensures NoCors in d.attempts <==> !cors.Readable?
    ensures d.success <==> cors.Readable? || noCors.Dispatched?
    ensures d.responseData.Some? <==> cors.Readable?
    ensures cors.Readable? ==> d.responseData == Some(cors.body)
  {
    if cors.Readable? then Delivery(true, Some(cors.body), [Cors])
    else Delivery(noCors.Dispatched?, None, [Cors, NoCors])
  }

  /** The message after a delivery. */
  function DeliveryNotice(d: Delivery): (n: Notice)
    ensures !d.success ==> n == SendFailed
    ensures d.success && d.responseData.Some? && d.responseData.value.LabelArray? ==>
      n == LabelVerdict(d.responseData.value.labels)
    ensures n.Kind() == ErrorMessage <==>
      || !d.success
      || (&& d.responseData.Some? && d.responseData.value.LabelArray?
          && exists l :: l in d.responseData.value.labels && l.confidence > HIGH_CONFIDENCE)
  {
    if !d.success then SendFailed
    else if d.responseData.Some? && Truthy(d.responseData.value) && d.responseData.value.LabelArray? then
      LabelVerdict(d.responseData.value.labels)
    else if d.responseData.Some? && Truthy(d.responseData.value) then SentUnexpected
    else SentOpaque
  }

  /** The labels stored after a delivery. */
  function DeliveredLabels(d: Delivery): seq<Label>
  {
    if d.success && d.responseData.Some? && d.responseData.value.LabelArray? then
      d.responseData.value.labels
    else []
  }

  function Requests(modes: seq<Mode>, url: string, body: string): (rs: seq<Effect>)
    ensures |rs| == |modes|
    ensures forall i :: 0 <= i < |rs| ==> rs[i] == Post(modes[i], url, body)
  {
    if modes == [] then [] else [Post(modes[0], url, body)] + Requests(modes[1..], url, body)
  }

  // ---------------------------------------------------------------------------------------
  // Submission

  /** The final message, the stored labels and the actions of one submission. */
  datatype Outcome = Outcome(notice: Notice, labels: seq<Label>, effects: seq<Effect>)

  /** One submission, from the URL and image on the page, the browser's image outcome and
      the two network outcomes. */
  function Submit(url: string, image: Option<ImageFile>, load: ImageLoad, encode: Dims -> Encoding,
                  cors: CorsResult, noCors: NoCorsResult): (o: Outcome)
    ensures url == "" || image.None? ==> o.effects == [] && o.labels == []
    ensures forall e :: e in o.effects && e.Post? ==>
      && e.url == url && image.Some?
      && Compression(load, encode) == Success(e.body) && !PayloadTooLarge(|e.body|)
    ensures o.labels != [] ==> exists e :: e in o.effects && e.Post? && e.mode == Cors
  {
    if url == "" then Outcome(UrlRequired, [], [])
    else if image.None? then Outcome(ImageRequired, [], [])
    else
      var compressing := [Compress(image.value)];
      match Compression(load, encode)
      case Failure(e) => Outcome(SendError(SubmitErrorText(e)), [], compressing)
      case Success(base64) =>
        if PayloadTooLarge(|base64|) then Outcome(TooLarge(|base64|), [], compressing)
        else
          var d := Deliver(cors, noCors);
          Outcome(DeliveryNotice(d), DeliveredLabels(d), compressing + Requests(d.attempts, url, base64))
  }

  /** The submission gets as far as the network. */
  predicate Delivered(url: string, image: Option<ImageFile>, load: ImageLoad, encode: Dims -> Encoding)
  {
    && url != ""
    && image.Some?
    && Compression(load, encode).Success?
    && !PayloadTooLarge(|Compression(load, encode).value|)
  }

  /** Validation comes first: without a URL the URL error is shown, with a URL but without an
      image the image error; nothing is compressed or sent and no labels are kept. */
  lemma ValidationFirst(url: string, image: Option<ImageFile>, load: ImageLoad, encode: Dims -> Encoding,
                        cors: CorsResult, noCors: NoCorsResult)
    requires url == "" || image.None?
    ensures var o := Submit(url, image, load, encode, cors, noCors);
      && o.notice == (if url == "" then UrlRequired else ImageRequired)
      && o.notice.Kind() == ErrorMessage
      && o.labels == [] && o.effects == []
  {
  }

  /** A failed compression ends the submission with the encoder's own message; nothing is sent. */
  lemma CompressionFailureStops(url: string, image: Option<ImageFile>, load: ImageLoad,
                                encode: Dims -> Encoding, cors: CorsResult, noCors: NoCorsResult)
    requires url != "" && image.Some? && Compression(load, encode).Failure?
    ensures var o := Submit(url, image, load, encode, cors, noCors);
      && o.notice == SendError(ErrorMessageText(Compression(load, encode).error.message))
      && o.labels == [] && o.effects == [Compress(image.value)]
  {
  }

  /** A payload whose estimated size is over 10 MiB gives an error and no request is made. */
  lemma OversizedPayloadNotSent(url: string, image: Option<ImageFile>, load: ImageLoad,
                                encode: Dims -> Encoding, cors: CorsResult, noCors: NoCorsResult)
    requires url != "" && image.Some?
    requires Compression(load, encode).Success? && PayloadTooLarge(|Compression(load, encode).value|)
    ensures var o := Submit(url, image, load, encode, cors, noCors);
      && o.notice == TooLarge(|Compression(load, encode).value|)
      && o.notice.Kind() == ErrorMessage
      && o.labels == []
      && forall e :: e in o.effects ==> !e.Post?
  {
  }

  /** A payload that passes the gate is posted with CORS first, and posted again without CORS
      exactly when that attempt yielded no parsed body. */
  lemma DeliveryAttempts(url: string, image: Option<ImageFile>, load: ImageLoad,
                         encode: Dims -> Encoding, cors: CorsResult, noCors: NoCorsResult)
    requires Delivered(url, image, load, encode)
    ensures var o, body := Submit(url, image, load, encode, cors, noCors), Compression(load, encode).value;
      o.effects == [Compress(image.value), Post(Cors, url, body)]
                   + (if cors.Readable? then [] else [Post(NoCors, url, body)])
  {
  }

  /** A readable label array is stored as it is and judged by the verdict; the message is an
      error exactly when some label is above 90. */
  lemma LabelArrayVerdict(url: string, image: Option<ImageFile>, load: ImageLoad,
                          encode: Dims -> Encoding, ls: seq<Label>, noCors: NoCorsResult)
    requires Delivered(url, image, load, encode)
    ensures var o := Submit(url, image, load, encode, Readable(LabelArray(ls)), noCors);
      && o.labels == ls
      && o.notice == LabelVerdict(ls)
      && (o.notice.Kind() == ErrorMessage <==> exists l :: l in ls && l.confidence > HIGH_CONFIDENCE)
  {
  }

  /** Without a readable label array the outcome is a generic success (a non-array body, or an
      opaque no-cors dispatch), or, when both attempts threw or failed, the single send error. */
  lemma NoLabelArrayOutcomes(url: string, image: Option<ImageFile>, load: ImageLoad,
                             encode: Dims -> Encoding, cors: CorsResult, noCors: NoCorsResult)
    requires Delivered(url, image, load, encode)
    requires !cors.Readable? || cors.body.NonArray?
    ensures var o := Submit(url, image, load, encode, cors, noCors);
      && o.labels == []
      && (cors.Readable? && Truthy(cors.body) ==> o.notice == SentUnexpected)
      && (cors.Readable? && !Truthy(cors.body) ==> o.notice == SentOpaque)
      && (!cors.Readable? && noCors.Dispatched? ==> o.notice == SentOpaque)
      && (!cors.Readable? && noCors.DispatchThrew? ==> o.notice == SendFailed)
      && (o.notice.Kind() == ErrorMessage <==> !cors.Readable? && noCors.DispatchThrew?)
  {
  }

  /** Labels are kept only when they came as a readable CORS array. */
  lemma LabelsOnlyFromReadableArray(url: string, image: Option<ImageFile>, load: ImageLoad,
                                    encode: Dims -> Encoding, cors: CorsResult, noCors: NoCorsResult)
    ensures var o := Submit(url, image, load, encode, cors, noCors);
      o.labels != [] ==> cors == Readable(LabelArray(o.labels))
  {
  }

  // ---------------------------------------------------------------------------------------
  // Connection probe

  /** What the `OPTIONS` probe gave: a response status, or a thrown error. */
  datatype ProbeResult = Status(code: int) | ProbeThrew(error: Thrown)

  /** The probe's classification: success exactly for status 200, any other status is reported
      with that status, a thrown value as unreachable, with its message when it is an `Error` and
      as unknown otherwise. */
  function ProbeNotice(p: ProbeResult): (n: Notice)
    ensures n.Kind() == SuccessMessage <==> p == Status(PROBE_OK_STATUS)
    ensures p == Status(PROBE_OK_STATUS) ==> n == ProbeOk
    ensures p.Status? && p.code != PROBE_OK_STATUS ==> n == ProbeUnexpectedStatus(p.code)
    ensures p.ProbeThrew? ==> n == ProbeUnreachable(ProbeErrorText(p.error))
  {
    match p
    case Status(code) => if code == PROBE_OK_STATUS then ProbeOk else ProbeUnexpectedStatus(code)
    case ProbeThrew(e) => ProbeUnreachable(ProbeErrorText(e))
  }

  // ---------------------------------------------------------------------------------------
  // The page

  /** The page's state: its React hooks, plus the ghost field `effects`, which is not page state
      but the record of the compressions and requests it starts. */
  class Page {
    var apiUrl: string
    var image: Option<ImageFile>
    var loading: bool
    var message: Option<Notice>
    var moderationLabels: seq<Label>
    ghost var effects: seq<Effect>

    /** The initial state of the page's hooks. */
    constructor ()
      ensures apiUrl == "" && image == None && !loading && message == None
      ensures moderationLabels == [] && effects == []
    {
      apiUrl := "";
      image := None;
      loading := false;
      message := None;
      moderationLabels := [];
      effects := [];
    }

    /** Typing into the URL field. */
    method EnterUrl(url: string)
      modifies this
      ensures apiUrl == url
      ensures image == old(image) && loading == old(loading) && message == old(message)
      ensures moderationLabels == old(moderationLabels) && effects == old(effects)
    {
      apiUrl := url;
    }

    /** Picking a file in the file selector. */
    method ChooseImage(file: ImageFile)
      modifies this
      ensures image == Some(file)
      ensures apiUrl == old(apiUrl) && loading == old(loading) && message == old(message)
      ensures moderationLabels == old(moderationLabels) && effects == old(effects)
    {
      image := Some(file);
    }

    /** The report is rendered exactly when labels are stored. */
    function ShowsReport(): (shown: bool)
      reads this
      ensures shown <==> exists l :: l in moderationLabels
    {
      if |moderationLabels| > 0 then
        assert moderationLabels[0] in moderationLabels;
        true
      else false
    }

    /** The network part of the handler, once the payload has passed the size gate: the CORS
        request and, unless it gave a parsed body, the no-cors one, then the message and labels
        from what is known. The labels were cleared at the start of the handler. */
    method Send(base64: string, cors: CorsResult, noCors: NoCorsResult)
      requires moderationLabels == []
      modifies this
      ensures apiUrl == old(apiUrl) && image == old(image) && loading == old(loading)
      ensures var d := Deliver(cors, noCors);
        && message == Some(DeliveryNotice(d))
        && moderationLabels == DeliveredLabels(d)
        && effects == old(effects) + Requests(d.attempts, apiUrl, base64)
    {
      var success := false;
      var responseData: Option<JsonValue> := None;
      effects := effects + [Post(Cors, apiUrl, base64)];
      if cors.Readable? {
        responseData := Some(cors.body);
        success := true;
      }
      if !success {
        effects := effects + [Post(NoCors, apiUrl, base64)];
        if noCors.Dispatched? {
          success := true;
        }
      }
      ghost var d := Deliver(cors, noCors);
      assert success == d.success && responseData == d.responseData;
      assert Requests(d.attempts, apiUrl, base64) ==
        if cors.Readable? then [Post(Cors, apiUrl, base64)]
        else [Post(Cors, apiUrl, base64), Post(NoCors, apiUrl, base64)];

      if success {
        if responseData.Some? && Truthy(responseData.value) && responseData.value.LabelArray? {
          var labels := responseData.value.labels;
          moderationLabels := labels;
          message := Some(LabelVerdict(labels));
        } else if responseData.Some? && Truthy(responseData.value) {
          message := Some(SentUnexpected);
        } else {
          message := Some(SentOpaque);
        }
      } else {
        message := Some(SendFailed);
      }
      assert message == Some(DeliveryNotice(d)) && moderationLabels == DeliveredLabels(d);
    }

    /** The submission handler, step by step: clear the message and labels, validate, compress,
        gate on size, try the CORS request and, unless it gave a parsed body, the no-cors one,
        then set the message from what is known. The final state is the one `Submit` gives;
        `loading` is left as it was when validation fails and is false otherwise. */
    method HandleSubmit(load: ImageLoad, encode: Dims -> Encoding, cors: CorsResult, noCors: NoCorsResult)
      modifies this
      ensures apiUrl == old(apiUrl) && image == old(image)
      ensures var o := Submit(old(apiUrl), old(image), load, encode, cors, noCors);
        && message == Some(o.notice)
        && moderationLabels == o.labels
        && effects == old(effects) + o.effects
      ensures loading == if old(apiUrl) == "" || old(image).None? then old(loading) else false
    {
      message := None;
      moderationLabels := [];
      if apiUrl == "" {
        message := Some(UrlRequired);
        return;
      }
      if image.None? {
        message := Some(ImageRequired);
        return;
      }
      loading := true;
      effects := effects + [Compress(image.value)];
      var compressed := CompressImage(load, encode);
      if compressed.Failure? {
        message := Some(SendError(SubmitErrorText(compressed.error)));
        loading := false;
        assert Submit(apiUrl, image, load, encode, cors, noCors) ==
          Outcome(SendError(SubmitErrorText(compressed.error)), [], [Compress(image.value)]);
        return;
      }
      var base64 := compressed.value;
      if PayloadTooLarge(|base64|) {
        message := Some(TooLarge(|base64|));
        loading := false;
        assert Submit(apiUrl, image, load, encode, cors, noCors) ==
          Outcome(TooLarge(|base64|), [], [Compress(image.value)]);
        return;
      }

      Send(base64, cors, noCors);
      ghost var d := Deliver(cors, noCors);
      assert Submit(apiUrl, image, load, encode, cors, noCors) ==
        Outcome(DeliveryNotice(d), DeliveredLabels(d), [Compress(image.value)] + Requests(d.attempts, apiUrl, base64));
      loading := false;
    }

    /** The connection probe: without a URL it shows the URL error and sends nothing; otherwise
        it clears the message, sends the `OPTIONS` request and shows the classification. */
    method TestConnection(probe: ProbeResult)
      modifies this
      ensures apiUrl == old(apiUrl) && image == old(image) && loading == old(loading)
      ensures moderationLabels == old(moderationLabels)
      ensures old(apiUrl) == "" ==> message == Some(ProbeUrlRequired) && effects == old(effects)
      ensures old(apiUrl) != "" ==>
        message == Some(ProbeNotice(probe)) && effects == old(effects) + [Preflight(old(apiUrl))]
    {
      if apiUrl == "" {
        message := Some(ProbeUrlRequired);
        return;
      }
      message := None;
      effects := effects + [Preflight(apiUrl)];
      match probe {
        case Status(code) =>
          if code == PROBE_OK_STATUS {
            message := Some(ProbeOk);
          } else {
            message := Some(ProbeUnexpectedStatus(code));
          }
        case ProbeThrew(e) =>
          message := Some(ProbeUnreachable(ProbeErrorText(e)));
      }
    }
  }
}
