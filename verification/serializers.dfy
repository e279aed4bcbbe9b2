/**
 * The configuration and record types of the monitor: the declared constraints of
 * `WebsiteSetting` and `MonitorSettings` as a validation function, and the
 * observation record that pollers produce and the writer consumes.
 */
module Serializers {
  import opened Wrappers

  /** Inclusive bounds on a website's polling period, in seconds. */
  const MinPeriod: real := 5.0
  const MaxPeriod: real := 300.0

  /** The regexp a website gets when its configuration has none: no content check. */
  const DefaultRegexp: string := ""

  /** A website's configuration once it has been validated. */
  datatype WebsiteSetting = WebsiteSetting(url: string, period: real, regexp: string)

  /** A website's configuration as read from the file, before validation; `regexp` may be omitted. */
  datatype WebsiteSettingInput = WebsiteSettingInput(url: string, period: real, regexp: Option<string>)

  /** The field constraints a website configuration can violate. */
  datatype FieldError = InvalidUrl | PeriodTooLow | PeriodTooHigh

  /** The period constraint `ge=5, le=300`. */
  predicate PeriodInRange(period: real)
  {
    MinPeriod <= period <= MaxPeriod
  }

  /** Whether a website configuration meets every declared constraint. */
  predicate Accepted(input: WebsiteSettingInput, isUrl: string -> bool)
  {
    isUrl(input.url) && PeriodInRange(input.period)
  }

  /** The configuration with its omitted fields filled in: the same url and period, and an omitted regexp as "". */
  function WithDefaults(input: WebsiteSettingInput): (s: WebsiteSetting)
    ensures s.url == input.url && s.period == input.period
    ensures input.regexp.None? ==> s.regexp == DefaultRegexp
    ensures input.regexp.Some? ==> s.regexp == input.regexp.value
  {
    WebsiteSetting(input.url, input.period, match input.regexp case Some(re) => re case None => DefaultRegexp)
  }

  /**
   * Validation of one website configuration. Every violated constraint is
   * reported; `isUrl` stands for the URL parser, which is not part of this model.
   */
  function ParseWebsiteSetting(input: WebsiteSettingInput, isUrl: string -> bool): (r: Result<WebsiteSetting, seq<FieldError>>)
    ensures r.Success? <==> Accepted(input, isUrl)
    ensures r.Success? ==> r.value == WithDefaults(input)
    ensures r.Failure? ==> r.error != []
    ensures r.Failure? ==> (InvalidUrl in r.error <==> !isUrl(input.url))
    ensures r.Failure? ==> (PeriodTooLow in r.error <==> input.period < MinPeriod)
    ensures r.Failure? ==> (PeriodTooHigh in r.error <==> input.period > MaxPeriod)
  {
    var errors :=
      (if isUrl(input.url) then [] else [InvalidUrl]) +
      (if input.period < MinPeriod then [PeriodTooLow] else []) +
      (if input.period > MaxPeriod then [PeriodTooHigh] else []);
    if errors == [] then
      Success(WithDefaults(input))
    else
      Failure(errors)
  }

  /** `MonitorSettings`: the list of websites to monitor. */
  datatype MonitorSettings = MonitorSettings(websites: seq<WebsiteSetting>)

  /** The positions of the entries of the website list that fail validation, in increasing order. */
  function FailingPositions(inputs: seq<WebsiteSettingInput>, isUrl: string -> bool): (e: seq<nat>)
    ensures forall i :: i in e <==> 0 <= i < |inputs| && !Accepted(inputs[i], isUrl)
    decreases |inputs|
  {
    if inputs == [] then []
    else
      var n := |inputs| - 1;
      assert forall i :: 0 <= i < n ==> inputs[..n][i] == inputs[i];
      FailingPositions(inputs[..n], isUrl) + (if Accepted(inputs[n], isUrl) then [] else [n])
  }

  /**
   * Validation of the whole website list: it succeeds when every entry does, keeping
   * their order, and otherwise reports the positions of the entries that fail.
   */
  function ParseMonitorSettings(inputs: seq<WebsiteSettingInput>, isUrl: string -> bool): (r: Result<MonitorSettings, seq<nat>>)
    ensures r.Success? <==> forall i :: 0 <= i < |inputs| ==> Accepted(inputs[i], isUrl)
    ensures r.Success? ==> |r.value.websites| == |inputs|
    ensures r.Success? ==> forall i :: 0 <= i < |inputs| ==> r.value.websites[i] == WithDefaults(inputs[i])
    ensures r.Failure? ==> r.error != []
    ensures r.Failure? ==> forall i :: 0 <= i < |inputs| ==> (i in r.error <==> !Accepted(inputs[i], isUrl))
    ensures r.Failure? ==> forall i :: i in r.error ==> i < |inputs|
  {
    var failing := FailingPositions(inputs, isUrl);
    if failing == [] then
      Success(MonitorSettings(seq(|inputs|, i requires 0 <= i < |inputs| => WithDefaults(inputs[i]))))
    else
      assert failing[0] in failing;
      Failure(failing)
  }

  /** A period of 4 is refused as too low and one of 301 as too high, whatever the URL. */
  lemma PeriodOutOfRangeRejected(url: string, isUrl: string -> bool)
    ensures ParseWebsiteSetting(WebsiteSettingInput(url, 4.0, None), isUrl).Failure?
    ensures PeriodTooLow in ParseWebsiteSetting(WebsiteSettingInput(url, 4.0, None), isUrl).error
    ensures PeriodTooHigh in ParseWebsiteSetting(WebsiteSettingInput(url, 301.0, None), isUrl).error
  {
  }

  /** The bounds are inclusive: 5, 5.5, 10 and 300 are accepted for a valid URL. */
  lemma PeriodBoundsInclusive(url: string, isUrl: string -> bool)
    requires isUrl(url)
    ensures ParseWebsiteSetting(WebsiteSettingInput(url, 5.0, None), isUrl).Success?
    ensures ParseWebsiteSetting(WebsiteSettingInput(url, 5.5, Some("bar")), isUrl).Success?
    ensures ParseWebsiteSetting(WebsiteSettingInput(url, 10.0, None), isUrl).Success?
    ensures ParseWebsiteSetting(WebsiteSettingInput(url, 300.0, None), isUrl).Success?
  {
  }

  /** An omitted regexp becomes the empty string; a given one is kept as it is. */
  lemma OmittedRegexpDefaultsToEmpty(url: string, period: real, regexp: string, isUrl: string -> bool)
    requires isUrl(url) && PeriodInRange(period)
    ensures ParseWebsiteSetting(WebsiteSettingInput(url, period, None), isUrl).value.regexp == ""
    ensures ParseWebsiteSetting(WebsiteSettingInput(url, period, Some(regexp)), isUrl).value.regexp == regexp
  {
  }

  /**
   * The observation one probe produces. `url` is carried because the writer reads it;
   * `regexpMatch` is `None` when no pattern is configured.
   */
  datatype MonitoringResult = MonitoringResult(
    url: string,
    timestamp: real,
    statusCode: int,
    responseTime: real,
    regexpMatch: Option<bool>)
}
