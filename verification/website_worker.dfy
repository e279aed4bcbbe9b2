/**
 * The website poller: one probe per cycle, turned into a `MonitoringResult` and
 * published to the shared queue without waiting. The HTTP exchange is given as its
 * outcome, the clock readings as numbers, and the regular-expression search as a
 * function `search(pattern, text)` that says whether the pattern is found in the text.
 */
module WebsiteWorkers {
  import opened Wrappers
  import opened Serializers
  import opened AsyncQueue
  import opened BaseWorker

  /**
   * How the GET request ended: a response was received; the transport failed (a
   * connection error or a timeout, which the poller catches); or some other error was
   * raised (a response or redirect error, a payload error, a body that does not
   * decode), which the poller does not catch.
   */
  datatype HttpOutcome = Response(status: int, body: string) | TransportFailure | UnhandledError

  /** The status code recorded when the request could not be completed. */
  const SentinelStatus: int := 500

  /**
   * `_get_url_status`: the status code and body text of the probe; a transport failure
   * becomes `(500, "")`, and any other error escapes, which is `None` here.
   */
  function GetUrlStatus(outcome: HttpOutcome): (r: Option<(int, string)>)
    ensures r.None? <==> outcome.UnhandledError?
    ensures outcome.TransportFailure? ==> r == Some((SentinelStatus, ""))
    ensures outcome.Response? ==> r == Some((outcome.status, outcome.body))
  {
    match outcome
    case Response(status, body) => Some((status, body))
    case TransportFailure => Some((SentinelStatus, ""))
    case UnhandledError => None
  }

  /** The pattern a poller is configured with: none when the regexp setting is empty. */
  function ConfiguredPattern(regexp: string): (p: Option<string>)
    ensures p.Some? <==> regexp != ""
    ensures p.Some? ==> p.value == regexp
  {
    if regexp != "" then Some(regexp) else None
  }

  /** `_parse_by_regexp`: no result without a pattern; otherwise whether the pattern is found in the text. */
  function ParseByRegexp(pattern: Option<string>, text: string, search: (string, string) -> bool): (r: Option<bool>)
    ensures r.None? <==> pattern.None?
    ensures pattern.Some? ==> (r.value <==> search(pattern.value, text))
  {
    match pattern
    case None => None
    case Some(p) => Some(search(p, text))
  }

  /**
   * `_check_website_status`: the record of one probe of `url` taken at `timestamp`,
   * with the clock reading `startTime` before the request and `endTime` after it;
   * `None` when the request raised an error that is not caught.
   */
  function CheckWebsiteStatus(url: string, pattern: Option<string>, timestamp: real, startTime: real, endTime: real,
                              outcome: HttpOutcome, search: (string, string) -> bool): (r: Option<MonitoringResult>)
    ensures r.None? <==> outcome.UnhandledError?
    ensures r.Some? ==> r.value.url == url && r.value.timestamp == timestamp
    ensures r.Some? ==> r.value.responseTime == endTime - startTime
    ensures outcome.TransportFailure? ==> r.value.statusCode == SentinelStatus
    ensures outcome.Response? ==> r.value.statusCode == outcome.status
    ensures r.Some? ==> (r.value.regexpMatch.Some? <==> pattern.Some?)
    ensures pattern.Some? && outcome.TransportFailure? ==> r.value.regexpMatch == Some(search(pattern.value, ""))
    ensures pattern.Some? && outcome.Response? ==> r.value.regexpMatch == Some(search(pattern.value, outcome.body))
  {
    match GetUrlStatus(outcome)
    case None => None
    case Some((statusCode, text)) =>
      var responseTime := endTime - startTime;
      var regexpMatch := ParseByRegexp(pattern, text, search);
      Some(MonitoringResult(url, timestamp, statusCode, responseTime, regexpMatch))
  }

  /**
   * What the base loop sees of one poller cycle that took `duration` seconds and read
   * the clock for the next one `overshoot` seconds late: an error the poller does not
   * catch is raised out of `task`.
   */
  function PollerOutcome(outcome: HttpOutcome, duration: real, overshoot: real): (t: TaskOutcome)
    ensures t.Raised? <==> outcome.UnhandledError?
    ensures t.Finished? ==> t.duration == duration && t.overshoot == overshoot
  {
    if outcome.UnhandledError? then Raised else Finished(duration, overshoot)
  }

  /**
   * An uncaught probe error ends the poller: its run ends by propagating an error
   * exactly when one of its probes raised one, and otherwise only by cancellation.
   */
  lemma {:induction false} PollerStopsOnUnhandledError(probes: seq<HttpOutcome>, durations: seq<real>, overshoots: seq<real>)
    requires |durations| == |probes| && |overshoots| == |probes|
    ensures var outcomes := seq(|probes|, i requires 0 <= i < |probes| => PollerOutcome(probes[i], durations[i], overshoots[i]));
            Ending(outcomes) == Propagated <==> exists i :: 0 <= i < |probes| && probes[i].UnhandledError?
  {
    var outcomes := seq(|probes|, i requires 0 <= i < |probes| => PollerOutcome(probes[i], durations[i], overshoots[i]));
    forall i | 0 <= i < |probes|
      ensures outcomes[i] == Raised <==> probes[i].UnhandledError?
    {
    }
  }

  /**
   * The record carries a match result exactly when the website's regexp setting is not
   * empty, whatever the probe's outcome.
   */
  lemma MatchPresentIffRegexpConfigured(setting: WebsiteSetting, timestamp: real, startTime: real, endTime: real,
                                        outcome: HttpOutcome, search: (string, string) -> bool)
    ensures var r := CheckWebsiteStatus(setting.url, ConfiguredPattern(setting.regexp), timestamp, startTime, endTime, outcome, search);
            r.Some? ==> (r.value.regexpMatch.Some? <==> setting.regexp != "")
  {
  }

  /**
   * The sentinel is not distinguishable downstream: a transport failure gives the same
   * status and text as a real 500 response with an empty body.
   */
  lemma SentinelMatchesServerError()
    ensures GetUrlStatus(TransportFailure) == GetUrlStatus(Response(500, ""))
  {
  }

  /**
   * Without a pattern: a 200 or 404 response is recorded with its own status, an
   * unreachable endpoint with status 500, and none of them carries a match result.
   */
  lemma ProbeWithoutPatternScenarios(url: string, timestamp: real, startTime: real, endTime: real, search: (string, string) -> bool)
    ensures var r := CheckWebsiteStatus(url, ConfiguredPattern(""), timestamp, startTime, endTime, Response(200, ""), search);
      r.Some? && r.value.statusCode == 200 && r.value.regexpMatch == None
    ensures var r := CheckWebsiteStatus(url, ConfiguredPattern(""), timestamp, startTime, endTime, Response(404, ""), search);
      r.Some? && r.value.statusCode == 404 && r.value.regexpMatch == None
    ensures var r := CheckWebsiteStatus(url, ConfiguredPattern(""), timestamp, startTime, endTime, TransportFailure, search);
      r.Some? && r.value.statusCode == 500 && r.value.regexpMatch == None
  {
  }

  /** Whether `pattern` occurs in `text` at some position: how `search` behaves for a pattern with no special characters. */
  function Occurs(pattern: string, text: string): (b: bool)
    ensures b <==> exists i :: OccursAt(pattern, text, i)
    decreases |text|
  {
    if |text| < |pattern| then false
    else if text[..|pattern|] == pattern then
      assert text[0..] == text;
      assert OccursAt(pattern, text, 0);
      true
    else
      var found := Occurs(pattern, text[1..]);
      assert !OccursAt(pattern, text, 0) by { assert text[0..] == text; }
      OccursAtShift(pattern, text);
      found
  }

  /** Whether `text` continues with `pattern` from position `i` on. */
  predicate OccursAt(pattern: string, text: string, i: int)
  {
    0 <= i <= |text| && |pattern| <= |text[i..]| && text[i..][..|pattern|] == pattern
  }

  /** Past a position where `pattern` does not occur, the search goes on in the rest of the text. */
  lemma OccursAtShift(pattern: string, text: string)
    requires text != [] && !OccursAt(pattern, text, 0)
    ensures (exists i :: OccursAt(pattern, text, i)) <==> (exists j :: OccursAt(pattern, text[1..], j))
  {
    forall i | 1 <= i <= |text|
      ensures text[i..] == text[1..][i - 1..]
    {
    }
    if exists i :: OccursAt(pattern, text, i) {
      var i :| OccursAt(pattern, text, i);
      assert OccursAt(pattern, text[1..], i - 1);
    }
    if exists j :: OccursAt(pattern, text[1..], j) {
      var j :| OccursAt(pattern, text[1..], j);
      assert OccursAt(pattern, text, j + 1);
    }
  }

  /** The body "Dummy data" matches the pattern "Dummy data" and does not match "Data dummy". */
  lemma LiteralPatternScenarios(url: string, timestamp: real, startTime: real, endTime: real)
    ensures CheckWebsiteStatus(url, ConfiguredPattern("Dummy data"), timestamp, startTime, endTime,
                               Response(200, "Dummy data"), Occurs).value.regexpMatch == Some(true)
    ensures CheckWebsiteStatus(url, ConfiguredPattern("Data dummy"), timestamp, startTime, endTime,
                               Response(200, "Dummy data"), Occurs).value.regexpMatch == Some(false)
  {
    assert OccursAt("Dummy data", "Dummy data", 0);
    assert !OccursAt("Data dummy", "Dummy data", 0) by {
      assert "Dummy data"[1] != "Data dummy"[1];
    }
  }

  /** `WebsiteWorker`: the poller of one website, publishing to the shared queue. */
  class WebsiteWorker {
    var period: real
    var name: string
    var url: string
    var regexp: Option<string>
    var queue: Queue<MonitoringResult>

    /** The period and name of the base worker, the URL, and a pattern only for a non-empty regexp setting. */
    constructor (settings: WebsiteSetting, queue: Queue<MonitoringResult>, name: string := "BaseWorker")
      ensures this.period == settings.period && this.name == name
      ensures this.url == settings.url && this.queue == queue
      ensures this.regexp == ConfiguredPattern(settings.regexp)
    {
      this.period := settings.period;
      this.name := name;
      this.url := settings.url;
      this.regexp := ConfiguredPattern(settings.regexp);
      this.queue := queue;
    }

    /**
     * `task`: probe once and try to publish the record. A full queue drops the record
     * (the overflow is logged, not raised) and leaves the queue as it was. When the
     * probe raised an uncaught error, `result` is `None`: `task` raises it before any
     * publish, as `PollerOutcome` reports to the loop.
     */
    method Task(timestamp: real, startTime: real, endTime: real, outcome: HttpOutcome, search: (string, string) -> bool)
      returns (result: Option<MonitoringResult>, published: bool)
      requires queue.Valid()
      modifies queue
      ensures queue.Valid()
      ensures result == CheckWebsiteStatus(url, regexp, timestamp, startTime, endTime, outcome, search)
      ensures published <==> result.Some? && !old(queue.Full())
      ensures published ==> queue.items == old(queue.items) + [result.value]
      ensures !published ==> queue.items == old(queue.items)
    {
      result := CheckWebsiteStatus(url, regexp, timestamp, startTime, endTime, outcome, search);
      if result.None? {
        published := false;
        return;
      }
      published := queue.PutNowait(result.value);
    }
  }
}
