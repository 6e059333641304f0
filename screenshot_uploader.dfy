/**
 * `ScreenshotCaptureUploader`: a trigger starts a countdown, then a capture
 * and an upload to one of three hosts; the host's answer yields the image
 * URL (Catbox: the trimmed body if it is an http(s) URL; Imgur and a custom
 * endpoint: a value picked out of the JSON body by a naive scan).
 *
 * The countdown, the capture and the request are coroutines; here each is an
 * event: `Triggered`, `CountdownElapsed` (the capture routine begins) and
 * `CaptureDone` (the routine ends with the capture's success and the
 * server's response as inputs). `counting` and `capturing` count the
 * started coroutines in each phase.
 */
module Uploader {
  import opened Common
  import opened Text

  // ---------------------------------------------------------------------
  // ExtractJsonValue
  // ---------------------------------------------------------------------

  /** The searched pattern: the key in double quotes. */
  function QuotedKey(key: string): string
  {
    "\"" + key + "\""
  }

  /** `p` is the first position at or after `from` holding `c`. */
  predicate FirstFrom(s: string, c: char, from: int, p: int)
  {
    0 <= from <= p < |s| && s[p] == c && forall j :: from <= j < p ==> s[j] != c
  }

  /** `i` is the first case-insensitive match of `"key"` in `json`. */
  predicate FirstKeyMatch(json: string, key: string, i: int)
  {
    MatchesAtIgnoreCase(json, QuotedKey(key), i) &&
    forall j :: 0 <= j < i ==> !MatchesAtIgnoreCase(json, QuotedKey(key), j)
  }

  /**
   * Where the scan finds its value: `i` is the key's first match, `c` the
   * first ':' from `i`, `q1` the first '"' after `c`, and `v` the text from
   * there up to the next '"'.
   */
  predicate ValueAt(json: string, key: string, v: string, i: int, c: int, q1: int)
  {
    && FirstKeyMatch(json, key, i)
    && FirstFrom(json, ':', i, c)
    && FirstFrom(json, '"', c + 1, q1)
    && FirstFrom(json, '"', q1 + 1, q1 + 1 + |v|)
    && json[q1 + 1..q1 + 1 + |v|] == v
  }

  /** No two '"' follow position `c`. */
  predicate AtMostOneQuoteAfter(json: string, c: int)
  {
    forall j, k :: 0 <= j && c < j < k < |json| ==> json[j] != '"' || json[k] != '"'
  }

  /**
   * One of the scans fails: `"key"` does not occur, no ':' follows its first
   * match, or fewer than two '"' follow that ':'.
   */
  ghost predicate ScanFails(json: string, key: string)
  {
    || !OccursIgnoreCase(json, QuotedKey(key))
    || (exists i :: FirstKeyMatch(json, key, i) && forall j :: i <= j < |json| ==> json[j] != ':')
    || (exists i, c :: FirstKeyMatch(json, key, i) && FirstFrom(json, ':', i, c) && AtMostOneQuoteAfter(json, c))
  }

  /** The three scans find exactly the positions `ValueAt` names. */
  lemma ScansFindValueAt(json: string, key: string, v: string, i: int, c: int, q1: int)
    requires ValueAt(json, key, v, i, c, q1)
    ensures IndexOfIgnoreCase(json, QuotedKey(key), 0) == i
    ensures IndexOfChar(json, ':', i) == c
    ensures IndexOfChar(json, '"', c + 1) == q1
    ensures IndexOfChar(json, '"', q1 + 1) == q1 + 1 + |v|
  {
    assert MatchesAtIgnoreCase(json, QuotedKey(key), i);
  }

  /** Where the three scans succeed, their positions are a `ValueAt`, and the value holds no '"'. */
  lemma ScanFindsValueAt(json: string, key: string, i: int, c: int, q1: int, q2: int)
    requires 0 <= i && i == IndexOfIgnoreCase(json, QuotedKey(key), 0)
    requires 0 <= c && c == IndexOfChar(json, ':', i)
    requires 0 <= q1 && q1 == IndexOfChar(json, '"', c + 1)
    requires 0 <= q2 && q2 == IndexOfChar(json, '"', q1 + 1)
    ensures q1 < q2 && ValueAt(json, key, json[q1 + 1..q2], i, c, q1)
    ensures var v := json[q1 + 1..q2]; forall k :: 0 <= k < |v| ==> v[k] != '"'
  {
    var v := json[q1 + 1..q2];
    assert forall k :: 0 <= k < |v| ==> v[k] == json[q1 + 1 + k];
  }

  /**
   * `ExtractJsonValue(json, key)`: find `"key"` ignoring case, then the first
   * ':' from there, then the text between the next two '"'. Escapes and
   * nesting are not looked at.
   */
  function ExtractJsonValue(json: Option<string>, key: Option<string>): (r: Option<string>)
    ensures IsNullOrEmpty(json) || IsNullOrEmpty(key) ==> r.None?
    ensures !IsNullOrEmpty(json) && !IsNullOrEmpty(key) && !OccursIgnoreCase(json.value, QuotedKey(key.value))
            ==> r.None?
    ensures r.Some? ==> forall k :: 0 <= k < |r.value| ==> r.value[k] != '"'
    ensures r.Some? ==>
      exists q1 :: 0 <= q1 && q1 + |r.value| + 1 < |json.value| && json.value[q1] == '"'
        && json.value[q1 + 1 + |r.value|] == '"' && json.value[q1 + 1..q1 + 1 + |r.value|] == r.value
    ensures r.Some? ==> exists i, c, q1 :: ValueAt(json.value, key.value, r.value, i, c, q1)
  {
    if IsNullOrEmpty(json) || IsNullOrEmpty(key) then None
    else
      var s := json.value;
      var i := IndexOfIgnoreCase(s, QuotedKey(key.value), 0);
      if i < 0 then None
      else
        var colon := IndexOfChar(s, ':', i);
        if colon < 0 then None
        else
          var q1 := IndexOfChar(s, '"', colon + 1);
          var q2 := IndexOfChar(s, '"', q1 + 1);
          if q1 < 0 || q2 < 0 then None
          else
            ScanFindsValueAt(s, key.value, i, colon, q1, q2);
            Some(s[q1 + 1..q2])
  }

  /**
   * Conversely, for a non-empty key (an empty one gives null before any
   * search), wherever `ValueAt` locates a value the scan returns exactly it.
   */
  lemma LocatedValueIsExtracted(json: string, key: string, v: string, i: int, c: int, q1: int)
    requires key != [] && ValueAt(json, key, v, i, c, q1)
    ensures ExtractJsonValue(Some(json), Some(key)) == Some(v)
  {
    ScansFindValueAt(json, key, v, i, c, q1);
  }

  /** With two fields, the value after the key's first match is returned, not a later one. */
  lemma FirstFieldValueWins()
    ensures ExtractJsonValue(Some("{\"url\":\"b\",\"x\":\"a\"}"), Some("url")) == Some("b")
  {
    var json, key := "{\"url\":\"b\",\"x\":\"a\"}", "url";
    assert FirstKeyMatch(json, key, 1) by {
      assert json[1..6] == QuotedKey(key);
      ExactMatchAt(json, QuotedKey(key), 1);
      assert FoldCase(json[0 + 0]) != FoldCase(QuotedKey(key)[0]);
    }
    assert FirstFrom(json, ':', 1, 6) by {
      assert json[1] != ':' && json[2] != ':' && json[3] != ':' && json[4] != ':' && json[5] != ':';
    }
    assert FirstFrom(json, '"', 7, 7);
    assert FirstFrom(json, '"', 8, 9);
    assert json[8..9] == "b";
    LocatedValueIsExtracted(json, key, "b", 1, 6, 7);
  }

  /** Without a ':' after the key's first match there is no value. */
  lemma NoColonNoValue(json: string, key: string, i: int)
    requires json != [] && key != []
    requires FirstKeyMatch(json, key, i)
    requires forall j :: i <= j < |json| ==> json[j] != ':'
    ensures ExtractJsonValue(Some(json), Some(key)).None?
  {
    assert MatchesAtIgnoreCase(json, QuotedKey(key), i);
  }

  /** A match of the quoted key starts and ends with '"'. */
  lemma QuotedKeyMatchQuotes(json: string, key: string, i: int)
    requires MatchesAtIgnoreCase(json, QuotedKey(key), i)
    ensures json[i] == '"' && json[i + |key| + 1] == '"'
  {
    var pat := QuotedKey(key);
    assert FoldCase(json[i + 0]) == FoldCase(pat[0]);
    assert FoldCase(json[i + (|key| + 1)]) == FoldCase(pat[|key| + 1]);
  }

  /** Fewer than two '"' after the first ':' that follows the key's first match: no value. */
  lemma TooFewQuotesNoValue(json: string, key: string, i: int, c: int)
    requires json != [] && key != []
    requires FirstKeyMatch(json, key, i) && FirstFrom(json, ':', i, c)
    requires AtMostOneQuoteAfter(json, c)
    ensures ExtractJsonValue(Some(json), Some(key)).None?
  {
    assert MatchesAtIgnoreCase(json, QuotedKey(key), i);
    var q1 := IndexOfChar(json, '"', c + 1);
    if q1 >= 0 {
      var q2 := IndexOfChar(json, '"', q1 + 1);
      assert q2 < 0;
    }
  }

  /** The scan yields nothing exactly when one of its three searches fails. */
  lemma NoValueIffScanFails(json: string, key: string)
    requires json != [] && key != []
    ensures ExtractJsonValue(Some(json), Some(key)).None? <==> ScanFails(json, key)
  {
    if ScanFails(json, key) {
      if !OccursIgnoreCase(json, QuotedKey(key)) {
      } else if i :| FirstKeyMatch(json, key, i) && forall j :: i <= j < |json| ==> json[j] != ':' {
        NoColonNoValue(json, key, i);
      } else {
        var i, c :| FirstKeyMatch(json, key, i) && FirstFrom(json, ':', i, c) && AtMostOneQuoteAfter(json, c);
        TooFewQuotesNoValue(json, key, i, c);
      }
    }
    if ExtractJsonValue(Some(json), Some(key)).None? {
      NoneMeansScanFailed(json, key);
    }
  }

  /** A missing value is explained by the first search that failed. */
  lemma NoneMeansScanFailed(json: string, key: string)
    requires json != [] && key != []
    requires ExtractJsonValue(Some(json), Some(key)).None?
    ensures ScanFails(json, key)
  {
    var i := IndexOfIgnoreCase(json, QuotedKey(key), 0);
    if i < 0 {
      assert !OccursIgnoreCase(json, QuotedKey(key));
    } else {
      assert FirstKeyMatch(json, key, i);
      var c := IndexOfChar(json, ':', i);
      if c < 0 {
        assert forall j :: i <= j < |json| ==> json[j] != ':';
      } else {
        assert FirstFrom(json, ':', i, c);
        var q1 := IndexOfChar(json, '"', c + 1);
        forall j, k | 0 <= j && c < j < k < |json|
          ensures json[j] != '"' || json[k] != '"'
        {
          if json[j] == '"' {
            assert 0 <= q1 <= j;
            var q2 := IndexOfChar(json, '"', q1 + 1);
            assert q2 < 0;
          }
        }
        assert AtMostOneQuoteAfter(json, c);
      }
    }
  }

  /** Case-insensitive pattern match at a position where every character is equal. */
  lemma ExactMatchAt(s: string, pat: string, i: nat)
    requires i + |pat| <= |s| && s[i..i + |pat|] == pat
    ensures MatchesAtIgnoreCase(s, pat, i)
  {
    forall k | 0 <= k < |pat|
      ensures FoldCase(s[i + k]) == FoldCase(pat[k])
    {
      assert s[i..i + |pat|][k] == s[i + k];
    }
  }

  /** The one-field object `{"key":"v"}`. */
  function SingleField(key: string, v: string): string
  {
    "{" + QuotedKey(key) + ":\"" + v + "\"}"
  }

  /** Where each part of `{"key":"v"}` sits. */
  lemma SingleFieldLayout(key: string, v: string)
    ensures var s, n := SingleField(key, v), |key|;
      && |s| == n + |v| + 7
      && s[0] == '{' && s[1] == '"'
      && (forall k :: 0 <= k < n ==> s[2 + k] == key[k])
      && s[n + 2] == '"' && s[n + 3] == ':' && s[n + 4] == '"'
      && (forall k :: 0 <= k < |v| ==> s[n + 5 + k] == v[k])
      && s[n + 5 + |v|] == '"'
      && s[1..n + 3] == QuotedKey(key)
  {
  }

  /** The scan finds the quoted key right after the brace. */
  lemma SingleFieldKeyAt1(key: string, v: string)
    requires key != []
    ensures IndexOfIgnoreCase(SingleField(key, v), QuotedKey(key), 0) == 1
  {
    var s, pat := SingleField(key, v), QuotedKey(key);
    SingleFieldLayout(key, v);
    assert !MatchesAtIgnoreCase(s, pat, 0) by {
      assert FoldCase(s[0 + 0]) != FoldCase(pat[0]);
    }
    ExactMatchAt(s, pat, 1);
  }

  /** The first ':' after the key is the separator, because the key holds none. */
  lemma SingleFieldColon(key: string, v: string)
    requires forall k :: 0 <= k < |key| ==> key[k] != ':'
    ensures IndexOfChar(SingleField(key, v), ':', 1) == |key| + 3
  {
    var s, n := SingleField(key, v), |key|;
    SingleFieldLayout(key, v);
    forall j | 1 <= j < n + 3
      ensures s[j] != ':'
    {
      if 2 <= j < n + 2 {
        assert s[j] == key[j - 2];
      }
    }
  }

  /** The two '"' after the colon enclose the value, because the value holds none. */
  lemma SingleFieldQuotes(key: string, v: string)
    requires forall k :: 0 <= k < |v| ==> v[k] != '"'
    ensures IndexOfChar(SingleField(key, v), '"', |key| + 4) == |key| + 4
    ensures IndexOfChar(SingleField(key, v), '"', |key| + 5) == |key| + 5 + |v|
    ensures SingleField(key, v)[|key| + 5..|key| + 5 + |v|] == v
  {
    var s, n := SingleField(key, v), |key|;
    SingleFieldLayout(key, v);
    forall j | n + 5 <= j < n + 5 + |v|
      ensures s[j] != '"'
    {
      assert s[j] == v[j - (n + 5)];
    }
  }

  /**
   * Round trip: for the one-field object `{"key":"value"}` the scan returns
   * the value, provided the value holds no '"' (escapes are not decoded)
   * and the key holds no ':'.
   */
  lemma ExtractFromSingleField(key: string, v: string)
    requires key != []
    requires forall k :: 0 <= k < |key| ==> key[k] != ':'
    requires forall k :: 0 <= k < |v| ==> v[k] != '"'
    ensures ExtractJsonValue(Some(SingleField(key, v)), Some(key)) == Some(v)
  {
    SingleFieldKeyAt1(key, v);
    SingleFieldColon(key, v);
    SingleFieldQuotes(key, v);
  }

  // ---------------------------------------------------------------------
  // The three uploaders
  // ---------------------------------------------------------------------

  datatype UploadMode = Catbox | Imgur | Custom

  /** The server's answer: whether the request succeeded and the body text. */
  datatype Response = Response(success: bool, body: Option<string>)

  datatype UploaderConfig = UploaderConfig(
    uploadMode: UploadMode,
    imgurClientId: Option<string>,
    customUploadEndpoint: Option<string>,
    useCountdown: bool,
    countdownSeconds: real)

  predicate IsHttpUrl(s: string)
  {
    StartsWith(s, "http://") || StartsWith(s, "https://")
  }

  /** `UploadToCatbox`: the trimmed body when it is an http(s) URL. */
  function CatboxUrl(resp: Response): (r: Option<string>)
    ensures r.Some? <==> resp.success && resp.body.Some? && IsHttpUrl(Trim(resp.body.value))
    ensures r.Some? ==> r.value == Trim(resp.body.value) && |r.value| >= 7
  {
    if !resp.success || resp.body.None? then None
    else
      var t := Trim(resp.body.value);
      if !IsNullOrEmpty(Some(t)) && IsHttpUrl(t) then Some(t) else None
  }

  /** `UploadToImgur` / `UploadToCustom`: the JSON value under `key`, when the request was made and succeeded. */
  function JsonUrl(setting: Option<string>, key: string, resp: Response): (r: Option<string>)
    requires key != []
    ensures r.Some? ==> !IsNullOrEmpty(setting) && resp.success && |r.value| > 0
    ensures r.Some? ==> r == ExtractJsonValue(resp.body, Some(key))
    ensures !IsNullOrEmpty(setting) && resp.success && !IsNullOrEmpty(ExtractJsonValue(resp.body, Some(key)))
            ==> r == ExtractJsonValue(resp.body, Some(key))
  {
    if IsNullOrEmpty(setting) || !resp.success then None
    else
      var v := ExtractJsonValue(resp.body, Some(key));
      if !IsNullOrEmpty(v) then v else None
  }

  /**
   * The URL the routine ends with. Each uploader first reports `null`, so it
   * is `None` unless the chosen host's answer is accepted.
   */
  function UploadedUrl(cfg: UploaderConfig, resp: Response): (r: Option<string>)
    ensures r.Some? ==> resp.success && |r.value| > 0
    ensures cfg.uploadMode == Catbox ==>
      (r.Some? <==> resp.success && resp.body.Some? && IsHttpUrl(Trim(resp.body.value)))
      && (r.Some? ==> r.value == Trim(resp.body.value))
    ensures cfg.uploadMode == Imgur ==>
      var link := ExtractJsonValue(resp.body, Some("link"));
      (r.Some? <==> !IsNullOrEmpty(cfg.imgurClientId) && resp.success && !IsNullOrEmpty(link))
      && (r.Some? ==> r == link)
    ensures cfg.uploadMode == Custom ==>
      var url := ExtractJsonValue(resp.body, Some("url"));
      (r.Some? <==> !IsNullOrEmpty(cfg.customUploadEndpoint) && resp.success && !IsNullOrEmpty(url))
      && (r.Some? ==> r == url)
  {
    match cfg.uploadMode
    case Catbox => CatboxUrl(resp)
    case Imgur => JsonUrl(cfg.imgurClientId, "link", resp)
    case Custom => JsonUrl(cfg.customUploadEndpoint, "url", resp)
  }

  /** A failed request never yields a URL, whatever the host. */
  lemma FailedRequestGivesNoUrl(cfg: UploaderConfig, resp: Response)
    requires !resp.success
    ensures UploadedUrl(cfg, resp).None?
  {
  }

  /** A Catbox URL is already trimmed: trimming it again changes nothing. */
  lemma CatboxUrlIsTrimmed(resp: Response)
    requires CatboxUrl(resp).Some?
    ensures var u := CatboxUrl(resp).value; !IsWhiteSpace(u[0]) && !IsWhiteSpace(u[|u| - 1])
  {
    TrimIsTightInfix(resp.body.value);
  }

  // ---------------------------------------------------------------------
  // Busy flag and last URL
  // ---------------------------------------------------------------------

  /** `CountdownThenCapture` waits on `DoCountdown` first. */
  predicate CountsDown(cfg: UploaderConfig)
  {
    cfg.useCountdown && cfg.countdownSeconds > 0.9
  }

  datatype UploaderState = UploaderState(
    isBusy: bool,
    lastUrl: Option<string>,
    hasShot: bool,
    counting: nat,
    capturing: nat)

  const Idle := UploaderState(false, None, false, 0, 0)

  datatype UploaderEvent = Triggered | CountdownElapsed | CaptureDone(shotTaken: bool, resp: Response)

  /** A routine in its countdown enters `CaptureUploadRoutine`, which sets `isBusy`. */
  function BeginCapture(s: UploaderState): UploaderState
  {
    if s.counting == 0 then s
    else s.(counting := s.counting - 1, capturing := s.capturing + 1, isBusy := true)
  }

  /**
   * A capture routine ends: `isBusy` is cleared on every exit; the shot is
   * kept when taken; `lastUrl` is set only by an accepted upload.
   */
  function EndCapture(cfg: UploaderConfig, s: UploaderState, shotTaken: bool, resp: Response): UploaderState
  {
    if s.capturing == 0 then s
    else
      var url := if shotTaken then UploadedUrl(cfg, resp) else None;
      s.(capturing := s.capturing - 1, isBusy := false, hasShot := s.hasShot || shotTaken,
         lastUrl := if url.Some? then url else s.lastUrl)
  }

  /**
   * `TriggerCaptureAndUpload` as written: the guard reads `isBusy`, which is
   * set only when the capture routine begins, after the countdown.
   */
  function TriggerAsWritten(cfg: UploaderConfig, s: UploaderState): UploaderState
  {
    if s.isBusy then s
    else if CountsDown(cfg) then s.(counting := s.counting + 1)
    else s.(capturing := s.capturing + 1, isBusy := true)
  }

  /** The trigger with `isBusy` set as soon as a routine is started. */
  function Trigger(cfg: UploaderConfig, s: UploaderState): UploaderState
  {
    if s.isBusy then s
    else if CountsDown(cfg) then s.(counting := s.counting + 1, isBusy := true)
    else s.(capturing := s.capturing + 1, isBusy := true)
  }

  function StepAsWritten(cfg: UploaderConfig, s: UploaderState, e: UploaderEvent): UploaderState
  {
    match e
    case Triggered => TriggerAsWritten(cfg, s)
    case CountdownElapsed => BeginCapture(s)
    case CaptureDone(shotTaken, resp) => EndCapture(cfg, s, shotTaken, resp)
  }

  function Step(cfg: UploaderConfig, s: UploaderState, e: UploaderEvent): UploaderState
  {
    match e
    case Triggered => Trigger(cfg, s)
    case CountdownElapsed => BeginCapture(s)
    case CaptureDone(shotTaken, resp) => EndCapture(cfg, s, shotTaken, resp)
  }

  function RunAsWritten(cfg: UploaderConfig, s: UploaderState, es: seq<UploaderEvent>): UploaderState
    decreases |es|
  {
    if es == [] then s else RunAsWritten(cfg, StepAsWritten(cfg, s, es[0]), es[1..])
  }

  function Run(cfg: UploaderConfig, s: UploaderState, es: seq<UploaderEvent>): UploaderState
    decreases |es|
  {
    if es == [] then s else Run(cfg, Step(cfg, s, es[0]), es[1..])
  }

  /**
   * As written, two triggers during one countdown start two routines, and
   * both go on to capture and upload.
   */
  lemma DoubleTriggerStartsTwoCaptures(cfg: UploaderConfig)
    requires CountsDown(cfg)
    ensures RunAsWritten(cfg, Idle, [Triggered, Triggered]).counting == 2
    ensures RunAsWritten(cfg, Idle, [Triggered, Triggered, CountdownElapsed, CountdownElapsed]).capturing == 2
  {
  }

  /** At most one routine is under way, and `isBusy` says whether one is. */
  predicate Valid(s: UploaderState)
  {
    s.counting + s.capturing <= 1 && (s.isBusy <==> s.counting + s.capturing == 1)
  }

  lemma StepKeepsValid(cfg: UploaderConfig, s: UploaderState, e: UploaderEvent)
    requires Valid(s)
    ensures Valid(Step(cfg, s, e))
  {
  }

  /** With the busy flag set at trigger time, no event sequence ever has two captures under way. */
  lemma {:induction false} AtMostOneCaptureInFlight(cfg: UploaderConfig, s: UploaderState, es: seq<UploaderEvent>)
    requires Valid(s)
    ensures Valid(Run(cfg, s, es))
    ensures Run(cfg, s, es).capturing <= 1
    decreases |es|
  {
    if es != [] {
      StepKeepsValid(cfg, s, es[0]);
      AtMostOneCaptureInFlight(cfg, Step(cfg, s, es[0]), es[1..]);
    }
  }

  /** A trigger while busy is ignored. */
  lemma BusyTriggerIsIgnored(cfg: UploaderConfig, s: UploaderState)
    requires s.isBusy
    ensures Step(cfg, s, Triggered) == s && StepAsWritten(cfg, s, Triggered) == s
  {
  }

  /**
   * The end of a capture clears `isBusy`; `lastUrl` changes only to an
   * accepted, non-empty URL of a taken shot, and stays otherwise.
   */
  lemma EndClearsBusyAndKeepsUrlOnFailure(cfg: UploaderConfig, s: UploaderState, shotTaken: bool, resp: Response)
    requires s.capturing > 0
    ensures var n := EndCapture(cfg, s, shotTaken, resp);
      && !n.isBusy && n.capturing == s.capturing - 1
      && (n.lastUrl != s.lastUrl ==> shotTaken && resp.success && n.lastUrl == UploadedUrl(cfg, resp)
                                     && |n.lastUrl.value| > 0)
      && (!shotTaken || !resp.success ==> n.lastUrl == s.lastUrl)
  {
  }

  /** Only the end of a capture touches `lastUrl`. */
  lemma OnlyEndChangesUrl(cfg: UploaderConfig, s: UploaderState, e: UploaderEvent)
    requires !e.CaptureDone?
    ensures Step(cfg, s, e).lastUrl == s.lastUrl && StepAsWritten(cfg, s, e).lastUrl == s.lastUrl
  {
  }

  // ---------------------------------------------------------------------
  // The component, updating its fields in place
  // ---------------------------------------------------------------------

  class ScreenshotCaptureUploader {
    const cfg: UploaderConfig
    var isBusy: bool
    var lastUrl: Option<string>
    var hasShot: bool
    var counting: nat
    var capturing: nat

    function State(): UploaderState
      reads this
    {
      UploaderState(isBusy, lastUrl, hasShot, counting, capturing)
    }

    constructor (cfg: UploaderConfig)
      ensures this.cfg == cfg && State() == Idle
    {
      this.cfg := cfg;
      isBusy, lastUrl, hasShot, counting, capturing := false, None, false, 0, 0;
    }

    /** `TriggerCaptureAndUpload`, marking the component busy as the routine starts. */
    method TriggerCaptureAndUpload()
      modifies this
      ensures State() == Trigger(cfg, old(State()))
    {
      if isBusy { return; }
      isBusy := true;
      if CountsDown(cfg) {
        counting := counting + 1;
      } else {
        capturing := capturing + 1;
      }
    }

    /** The countdown of a routine has elapsed: `CaptureUploadRoutine` begins. */
    method BeginCaptureUploadRoutine()
      modifies this
      ensures State() == BeginCapture(old(State()))
    {
      if counting == 0 { return; }
      counting := counting - 1;
      capturing := capturing + 1;
      isBusy := true;
    }

    /** The end of `CaptureUploadRoutine`; returns the URL passed to `onUploadSucceeded`, if any. */
    method FinishCaptureUploadRoutine(shotTaken: bool, resp: Response) returns (url: Option<string>)
      modifies this
      ensures State() == EndCapture(cfg, old(State()), shotTaken, resp)
      ensures old(capturing) > 0 && shotTaken ==> url == UploadedUrl(cfg, resp)
      ensures old(capturing) == 0 || !shotTaken ==> url.None?
    {
      url := None;
      if capturing == 0 { return; }
      capturing := capturing - 1;
      if !shotTaken {
        isBusy := false;
        return;
      }
      hasShot := true;
      url := UploadedUrl(cfg, resp);
      if url.None? {
        isBusy := false;
        return;
      }
      lastUrl := url;
      isBusy := false;
    }

    method DiscardLastShot()
      modifies this
      ensures State() == old(State()).(hasShot := false)
    {
      hasShot := false;
    }
  }
}
