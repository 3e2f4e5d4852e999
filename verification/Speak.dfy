/**
 * The request handling of the speech-synthesis proxy: which requests are
 * rejected before any outbound call, what the outbound request carries, and
 * how the synthesis service's reply becomes the proxy's response. The HTTP
 * exchange itself is not modelled; its outcome is a parameter.
 */
module Speak {
  import opened Wrappers

  const DefaultVoice: string := "en-US-AndrewMultilingualNeural"
  const DefaultRegion: string := "eastus"
  const MissingInputMessage: string := "Missing SSML, API key, or region."
  const TtsErrorLead: string := "Azure TTS error: "
  const SsmlContentType: string := "application/ssml+xml"
  const OutputFormat: string := "audio-24khz-160kbitrate-mono-mp3"
  const AudioMimeType: string := "audio/mpeg"

  /** A member of the JSON request body: missing, null, or a string. */
  datatype Field = Absent | Null | Text(s: string)

  datatype SpeakRequest = SpeakRequest(ssml: Field, voice: Field)

  /** The server-held credentials; an unset key is None. */
  datatype AzureSettings = AzureSettings(apiKey: Option<string>, region: string)

  /** Settings as read from the environment: the region defaults when its variable is unset. */
  function SettingsFromEnvironment(apiKeyVar: Option<string>, regionVar: Option<string>): (s: AzureSettings)
    ensures s.apiKey == apiKeyVar
    ensures regionVar.None? ==> s.region == DefaultRegion
    ensures regionVar.Some? ==> s.region == regionVar.value
  {
    AzureSettings(apiKeyVar, if regionVar.Some? then regionVar.value else DefaultRegion)
  }

  /** A request field is truthy: present, not null, not empty. */
  predicate Given(f: Field)
  {
    f.Text? && f.s != ""
  }

  /** A setting is truthy: set and not empty. */
  predicate Configured(o: Option<string>)
  {
    o.Some? && o.value != ""
  }

  /**
   * The voice of a request: the default when the member is missing, none when
   * it is null, the given string otherwise. (The outbound request does not
   * use it.)
   */
  function RequestedVoice(req: SpeakRequest): (v: Option<string>)
    ensures req.voice.Absent? ==> v == Some(DefaultVoice)
    ensures req.voice.Null? ==> v.None?
    ensures req.voice.Text? ==> v == Some(req.voice.s)
  {
    match req.voice
    case Absent => Some(DefaultVoice)
    case Null => None
    case Text(s) => Some(s)
  }

  /** The request sent to the synthesis service. */
  datatype TtsCall = TtsCall(endpoint: string, subscriptionKey: string, contentType: string,
                             outputFormat: string, body: string)

  /** What the proxy answers: a JSON error with a status, or audio. */
  datatype Response = JsonError(status: nat, error: string) | Audio(mimetype: string, content: seq<bv8>)

  /** The first decision of the handler: reject, or make one outbound call. */
  datatype Step = Reject(response: Response) | Send(call: TtsCall)

  function Endpoint(region: string): string
  {
    "https://" + region + ".tts.speech.microsoft.com/cognitiveservices/v1"
  }

  /**
   * Validation before any outbound call: rejected with 400 and the
   * missing-input message exactly when the SSML is missing, null or empty, or
   * the key is unset or empty, or the region is empty; otherwise one call to
   * the region's endpoint, with the key, the SSML content type and MP3 output
   * format, whose body is the SSML.
   */
  function PrepareSpeak(req: SpeakRequest, settings: AzureSettings): (step: Step)
    ensures step.Reject? <==> !Given(req.ssml) || !Configured(settings.apiKey) || settings.region == ""
    ensures step.Reject? ==> step.response == JsonError(400, MissingInputMessage)
    ensures step.Send? ==> && step.call.endpoint == Endpoint(settings.region)
                           && step.call.subscriptionKey == settings.apiKey.value
                           && step.call.contentType == SsmlContentType
                           && step.call.outputFormat == OutputFormat
                           && step.call.body == req.ssml.s
  {
    if !Given(req.ssml) || !Configured(settings.apiKey) || settings.region == "" then
      Reject(JsonError(400, MissingInputMessage))
    else
      Send(TtsCall(Endpoint(settings.region), settings.apiKey.value, SsmlContentType, OutputFormat, req.ssml.s))
  }

  /** The outcome of the outbound call: a reply, or an exception with its message. */
  datatype Upstream = Reply(status: nat, text: string, content: seq<bv8>) | Raised(message: string)

  function DigitChar(d: nat): (c: char)
    requires d < 10
    ensures '0' <= c <= '9'
  {
    (('0' as int) + d) as char
  }

  predicate AllDigits(s: string)
  {
    forall k :: 0 <= k < |s| ==> '0' <= s[k] <= '9'
  }

  /** The decimal text of a status code: non-empty digits, no leading zero. */
  function Decimal(n: nat): (s: string)
    ensures |s| >= 1 && AllDigits(s)
    ensures s[0] == '0' ==> n == 0
  {
    if n < 10 then [DigitChar(n)] else Decimal(n / 10) + [DigitChar(n % 10)]
  }

  /** The number a string of decimal digits denotes. */
  function DecimalValue(s: string): nat
    requires AllDigits(s)
  {
    if s == [] then 0 else 10 * DecimalValue(s[..|s| - 1]) + (s[|s| - 1] as int - '0' as int)
  }

  /** The decimal text of a number reads back as that number. */
  lemma {:induction false} DecimalRoundTrip(n: nat)
    ensures DecimalValue(Decimal(n)) == n
  {
    if n >= 10 {
      var s := Decimal(n);
      assert s[..|s| - 1] == Decimal(n / 10);
      DecimalRoundTrip(n / 10);
    }
  }

  /**
   * The proxy's answer to the service's outcome: status 200 streams the audio
   * as MP3; any other status is a 400 whose message is the error lead, the
   * status in decimal, a space and the service's text; an exception is a 500
   * carrying its message.
   */
  function UpstreamResponse(u: Upstream): (r: Response)
    ensures u.Reply? && u.status == 200 ==> r == Audio(AudioMimeType, u.content)
    ensures u.Reply? && u.status != 200 ==>
      var code := Decimal(u.status);
      && r.JsonError? && r.status == 400
      && |r.error| == |TtsErrorLead| + |code| + 1 + |u.text|
      && r.error[..|TtsErrorLead|] == TtsErrorLead
      && AllDigits(r.error[|TtsErrorLead|..|TtsErrorLead| + |code|])
      && DecimalValue(r.error[|TtsErrorLead|..|TtsErrorLead| + |code|]) == u.status
      && r.error[|TtsErrorLead| + |code|] == ' '
      && r.error[|TtsErrorLead| + |code| + 1..] == u.text
    ensures u.Raised? ==> r == JsonError(500, u.message)
  {
    match u
    case Reply(status, text, content) =>
      if status != 200 then
        var code := Decimal(status);
        var msg := TtsErrorLead + code + " " + text;
        DecimalRoundTrip(status);
        assert msg[|TtsErrorLead|..|TtsErrorLead| + |code|] == code;
        assert msg[|TtsErrorLead| + |code|] == ' ';
        assert msg[|TtsErrorLead| + |code| + 1..] == text;
        JsonError(400, msg)
      else
        Audio(AudioMimeType, content)
    case Raised(message) => JsonError(500, message)
  }

  /**
   * The whole handler: a rejected request is answered with the 400 missing-input
   * error whatever the service would have said (no call is made); an accepted one
   * is answered from the service's outcome.
   */
  function HandleSpeak(req: SpeakRequest, settings: AzureSettings, upstream: Upstream): (r: Response)
    ensures !Given(req.ssml) || !Configured(settings.apiKey) || settings.region == "" ==>
      r == JsonError(400, MissingInputMessage)
    ensures Given(req.ssml) && Configured(settings.apiKey) && settings.region != "" ==>
      r == UpstreamResponse(upstream)
  {
    match PrepareSpeak(req, settings)
    case Reject(response) => response
    case Send(_) => UpstreamResponse(upstream)
  }
}
