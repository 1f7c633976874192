/** The web request handlers that read or change the logger's mode: arming,
disarming, time synchronisation, and the armed-guards of the status and page
handlers.

The state is the pair of flags `flag_armed` and `time_synced` plus the clock
fields the time sync parses (`time_month` … `time_zone`), which the firmware
also hands to the RTC. A handler either answers with a status code and body
or returns without answering.
 */
module WebFuncs {

  /** The result of Arduino's `String::toInt` on a substring. Only all-digit
      substrings are given a value; for any other text the model keeps the
      text itself instead of guessing the library's conversion. */
  datatype Field = Num(value: nat) | Raw(text: string)

  /** The parsed client time as stored in the `time_*` fields. */
  datatype Clock = Clock(
    month: Field, day: Field, year: Field,
    hour: Field, minute: Field, second: Field,
    zone: string)

  datatype Web = Web(armed: bool, synced: bool, clock: Clock)

  datatype Request =
    | Arm
    | Disarm
    | SyncTime(body: string)
    | UpdateStatus
    | SendPage(fileName: string)
    | SendStatus

  /** `Text` is a `text/plain` reply, `Html` streams a page from the file
      system, `StatusXml` is the 200 `text/xml` status document, and
      `NoResponse` is a handler that returned without calling `send`. */
  datatype Response =
    | NoResponse
    | Text(code: nat, message: string)
    | Html(path: string)
    | StatusXml

  datatype Outcome = Outcome(state: Web, response: Response)

  /** The device at power-up: not armed and not synced. */
  function Initial(clock: Clock): Web {
    Web(false, false, clock)
  }

  /** The invariant the arm guard maintains. */
  predicate Safe(w: Web) {
    w.armed ==> w.synced
  }

  // ---------------------------------------------------------------------
  // Positional time parsing

  /** Arduino's `String::substring(left, right)`: the bounds are swapped if
      given in the wrong order, a start at or past the end yields the empty
      string, and an end past the end is clipped. */
  function Substring(s: string, left: nat, right: nat): (t: string)
    ensures left <= right <= |s| ==> t == s[left..right]
    ensures left <= right && |s| <= left ==> t == ""
    ensures left <= right && left < |s| < right ==> t == s[left..]
    ensures |t| <= |s|
  {
    var lo := if left <= right then left else right;
    var hi := if left <= right then right else left;
    if lo >= |s| then "" else s[lo..if hi > |s| then |s| else hi]
  }

  predicate IsDigit(c: char) {
    '0' <= c <= '9'
  }

  predicate AllDigits(s: string) {
    forall i :: 0 <= i < |s| ==> IsDigit(s[i])
  }

  /** The decimal value of a string of digits. */
  function DigitsValue(s: string): nat
    requires AllDigits(s)
  {
    if |s| == 0 then 0
    else DigitsValue(s[..|s| - 1]) * 10 + (s[|s| - 1] as int - '0' as int)
  }

  /** `String::toInt` on the substrings the parser takes. */
  function ToInt(s: string): (f: Field)
    ensures f.Num? <==> 0 < |s| && AllDigits(s)
    ensures f.Raw? ==> f.text == s
  {
    if 0 < |s| && AllDigits(s) then Num(DigitsValue(s)) else Raw(s)
  }

  /** The parse in `wi_syncTime` of `MM/DD/YYYY HH:MM:SS ZONE...`: each field
      is read from a fixed substring, and nothing is validated. */
  function ParseClock(text: string): (c: Clock)
    ensures |c.zone| <= 8
    // A body long enough for a field gives that field its fixed characters.
    ensures |text| >= 19 ==>
      && c.month == ToInt(text[0..2]) && c.day == ToInt(text[3..5]) && c.year == ToInt(text[6..10])
      && c.hour == ToInt(text[11..13]) && c.minute == ToInt(text[14..16]) && c.second == ToInt(text[17..19])
    ensures |text| >= 28 ==> c.zone == text[20..28]
    // A shorter body clips the zone to what is there.
    ensures 20 < |text| < 28 ==> c.zone == text[20..]
    ensures |text| <= 20 ==> c.zone == ""
  {
    Clock(
      ToInt(Substring(text, 0, 2)), ToInt(Substring(text, 3, 5)), ToInt(Substring(text, 6, 10)),
      ToInt(Substring(text, 11, 13)), ToInt(Substring(text, 14, 16)), ToInt(Substring(text, 17, 19)),
      Substring(text, 20, 28))
  }

  /** Only the first 28 characters matter: anything after the zone label,
      such as the browser's long zone name, is ignored. */
  lemma ParseIgnoresTail(text: string, tail: string)
    requires |text| >= 28
    ensures ParseClock(text + tail) == ParseClock(text)
  {
    var t := text + tail;
    assert t[..28] == text[..28];
    assert forall a, b :: 0 <= a <= b <= 28 ==> t[a..b] == text[a..b];
  }

  function DigitChar(d: nat): (c: char)
    requires d < 10
    ensures IsDigit(c) && c as int - '0' as int == d
  {
    ('0' as int + d) as char
  }

  /** Two digits with a leading zero. */
  function Pad2(n: nat): (s: string)
    requires n < 100
    ensures |s| == 2 && AllDigits(s)
  {
    [DigitChar(n / 10), DigitChar(n % 10)]
  }

  /** Four digits with leading zeros. */
  function Pad4(n: nat): (s: string)
    requires n < 10000
    ensures |s| == 4 && AllDigits(s)
  {
    [DigitChar(n / 1000), DigitChar(n / 100 % 10), DigitChar(n / 10 % 10), DigitChar(n % 10)]
  }

  /** Appending a digit multiplies the value so far by ten and adds it. */
  lemma DigitsAppend(p: string, d: nat)
    requires AllDigits(p) && d < 10
    ensures AllDigits(p + [DigitChar(d)])
    ensures DigitsValue(p + [DigitChar(d)]) == DigitsValue(p) * 10 + d
  {
    assert (p + [DigitChar(d)])[..|p|] == p;
  }

  lemma Pad2Value(n: nat)
    requires n < 100
    ensures DigitsValue(Pad2(n)) == n
  {
    DigitsAppend([], n / 10);
    DigitsAppend([DigitChar(n / 10)], n % 10);
    assert Pad2(n) == [DigitChar(n / 10)] + [DigitChar(n % 10)];
  }

  lemma Pad4Value(n: nat)
    requires n < 10000
    ensures DigitsValue(Pad4(n)) == n
  {
    var a, b, c, d := DigitChar(n / 1000), DigitChar(n / 100 % 10), DigitChar(n / 10 % 10), DigitChar(n % 10);
    DigitsAppend([], n / 1000);
    assert [] + [a] == [a];
    DigitsAppend([a], n / 100 % 10);
    DigitsAppend([a, b], n / 10 % 10);
    assert [a] + [b] == [a, b] && [a, b] + [c] == [a, b, c];
    DigitsAppend([a, b, c], n % 10);
    assert Pad4(n) == [a, b, c] + [d];
    DecimalDigits(n);
  }

  /** The place values of a four-digit number add back up to it. */
  lemma DecimalDigits(n: nat)
    requires n < 10000
    ensures ((n / 1000 * 10 + n / 100 % 10) * 10 + n / 10 % 10) * 10 + n % 10 == n
  {
    var q1, q2, q3 := n / 1000, n / 100, n / 10;
    assert q3 == q2 * 10 + q3 % 10;
    assert q2 == q1 * 10 + q2 % 10;
  }

  /** A clock the client's string can express: zero-padded two-digit month,
      day, hour, minute and second, a four-digit year and an eight-character
      ASCII zone label such as `GMT-0500`. The string is indexed by
      character here and by byte in the firmware; the two agree because
      every character of the rendered prefix is ASCII. */
  predicate Expressible(c: Clock) {
    && c.month.Num? && c.month.value < 100
    && c.day.Num? && c.day.value < 100
    && c.year.Num? && c.year.value < 10000
    && c.hour.Num? && c.hour.value < 100
    && c.minute.Num? && c.minute.value < 100
    && c.second.Num? && c.second.value < 100
    && |c.zone| == 8
    && forall i :: 0 <= i < |c.zone| ==> c.zone[i] < 128 as char
  }

  /** The client's `MM/DD/YYYY HH:MM:SS ZONE` layout. */
  function Render(c: Clock): (s: string)
    requires Expressible(c)
    ensures |s| == 28
  {
    RenderDate(c) + " " + RenderTime(c) + " " + c.zone
  }

  /** `MM/DD/YYYY`. */
  function RenderDate(c: Clock): (s: string)
    requires Expressible(c)
  {
    Pad2(c.month.value) + "/" + Pad2(c.day.value) + "/" + Pad4(c.year.value)
  }

  /** `HH:MM:SS`. */
  function RenderTime(c: Clock): (s: string)
    requires Expressible(c)
  {
    Pad2(c.hour.value) + ":" + Pad2(c.minute.value) + ":" + Pad2(c.second.value)
  }

  /** Parsing recovers every field of a well-formed client string, whatever
      follows the zone label (the browser appends the zone's long name). */
  lemma ParseRender(c: Clock, suffix: string)
    requires Expressible(c)
    ensures ParseClock(Render(c) + suffix) == c
  {
    var t := Render(c) + suffix;
    var mo, d, y := Pad2(c.month.value), Pad2(c.day.value), Pad4(c.year.value);
    var h, mi, se := Pad2(c.hour.value), Pad2(c.minute.value), Pad2(c.second.value);
    var date, time := RenderDate(c), RenderTime(c);
    assert date == mo + "/" + d + "/" + y;
    assert time == h + ":" + mi + ":" + se;
    assert t == date + " " + time + " " + c.zone + suffix;
    assert t[0..10] == date && t[11..19] == time;
    assert t[0..2] == mo;
    assert t[3..5] == d;
    assert t[6..10] == y;
    assert t[11..13] == h;
    assert t[14..16] == mi;
    assert t[17..19] == se;
    assert t[20..28] == c.zone;
    Pad2Value(c.month.value);
    Pad2Value(c.day.value);
    Pad4Value(c.year.value);
    Pad2Value(c.hour.value);
    Pad2Value(c.minute.value);
    Pad2Value(c.second.value);
  }

  /** The example string the firmware's comment documents. */
  lemma ParseDocumentedExample()
    ensures ParseClock("01/05/2024 22:00:38 GMT-0500 (Eastern Standard Time)") == DocumentedClock()
  {
    RenderDocumentedExample();
    SplitDocumentedExample();
    ParseRender(DocumentedClock(), " (Eastern Standard Time)");
  }

  /** The documented example's prefix is the rendering of its clock. The
      literal equalities below are kept as separate lemmas so that each
      proof obligation stays small. */
  lemma RenderDocumentedExample()
    ensures Render(DocumentedClock()) == "01/05/2024 22:00:38 GMT-0500"
  {
    DocumentedDate();
    DocumentedTime();
    JoinDocumentedExample();
  }

  /** The clock of the documented example. */
  function DocumentedClock(): (c: Clock)
    ensures Expressible(c)
  {
    Clock(Num(1), Num(5), Num(2024), Num(22), Num(0), Num(38), "GMT-0500")
  }

  lemma DocumentedDate()
    ensures RenderDate(DocumentedClock()) == "01/05/2024"
  {
    assert Pad2(1) == "01" && Pad2(5) == "05" && Pad4(2024) == "2024";
  }

  lemma DocumentedTime()
    ensures RenderTime(DocumentedClock()) == "22:00:38"
  {
    assert Pad2(22) == "22" && Pad2(0) == "00" && Pad2(38) == "38";
  }

  lemma JoinDocumentedExample()
    ensures "01/05/2024" + " " + "22:00:38" + " " + "GMT-0500" == "01/05/2024 22:00:38 GMT-0500"
  {
  }

  lemma SplitDocumentedExample()
    ensures "01/05/2024 22:00:38 GMT-0500 (Eastern Standard Time)"
         == "01/05/2024 22:00:38 GMT-0500" + " (Eastern Standard Time)"
  {
  }

  /** A body cut short after the zone's first three characters: the zone
      label is whatever remains. */
  lemma ParseShortBody()
    ensures ParseClock("01/05/2024 22:00:38 GMT").zone == "GMT"
  {
    var t := "01/05/2024 22:00:38 GMT";
    assert t[20..] == "GMT";
  }

  // ---------------------------------------------------------------------
  // Handlers

  /** `wi_armForLaunch`. */
  function ArmForLaunch(w: Web): (o: Outcome)
    ensures w.armed ==> o == Outcome(w, NoResponse)
    ensures !w.armed && !w.synced ==> o == Outcome(w, Text(400, "Time not synced"))
    ensures !w.armed && w.synced ==>
      o.state == w.(armed := true) && o.response == Text(200, "success")
    ensures o.state.armed <==> w.armed || w.synced
    ensures o.state.synced == w.synced && o.state.clock == w.clock
  {
    if w.armed then Outcome(w, NoResponse)
    else if !w.synced then Outcome(w, Text(400, "Time not synced"))
    else Outcome(w.(armed := true), Text(200, "success"))
  }

  /** `wi_disarm`: nothing can refuse a disarm. */
  function DisarmLogger(w: Web): (o: Outcome)
    ensures !w.armed ==> o == Outcome(w, NoResponse)
    ensures w.armed ==> !o.state.armed && o.response == Text(200, "success")
    ensures o.state.synced == w.synced && o.state.clock == w.clock
  {
    if !w.armed then Outcome(w, NoResponse)
    else Outcome(w.(armed := false), Text(200, "success"))
  }

  /** `wi_syncTime`: refused silently while armed; otherwise the clock is
      set from the parsed fields and the device counts as synced, with a
      success reply whatever the text contained. */
  function SyncClock(w: Web, body: string): (o: Outcome)
    ensures w.armed ==> o == Outcome(w, NoResponse)
    ensures !w.armed ==>
      && o.state == Web(false, true, ParseClock(body))
      && o.response == Text(200, "success")
  {
    if w.armed then Outcome(w, NoResponse)
    else Outcome(w.(synced := true, clock := ParseClock(body)), Text(200, "success"))
  }

  /** `wi_updateStatus`: the status XML is only produced while disarmed. */
  function UpdateStatusXml(w: Web): (o: Outcome)
    ensures o.state == w
    ensures o.response == NoResponse <==> w.armed
    ensures !w.armed ==> o.response == StatusXml
  {
    if w.armed then Outcome(w, NoResponse) else Outcome(w, StatusXml)
  }

  /** The page `wi_sendStatus` streams: the armed page carries no scripts
      that would poll the logger. */
  function StatusPage(armed: bool): (path: string)
    ensures armed ==> path == "/statusArmed.html"
    ensures !armed ==> path == "/status.html"
  {
    if armed then "/statusArmed.html" else "/status.html"
  }

  /** Streaming a file: a 500 reply when it cannot be opened. */
  function Serve(path: string, files: set<string>): (r: Response)
    ensures r.Html? <==> path in files
    ensures r.Html? ==> r.path == path
    ensures !r.Html? ==> r == Text(500, "File not found")
  {
    if path in files then Html(path) else Text(500, "File not found")
  }

  /** `wi_sendPage`: nothing but the status page is served while armed. */
  function SendFile(w: Web, fileName: string, files: set<string>): (o: Outcome)
    ensures o.state == w
    ensures w.armed ==> o.response == NoResponse
    ensures !w.armed ==> o.response == Serve(fileName, files)
  {
    if w.armed then Outcome(w, NoResponse) else Outcome(w, Serve(fileName, files))
  }

  /** `wi_sendStatus`: always answers, with the page chosen by the armed flag. */
  function SendStatusPage(w: Web, files: set<string>): (o: Outcome)
    ensures o.state == w
    ensures o.response == Serve(StatusPage(w.armed), files)
  {
    Outcome(w, Serve(StatusPage(w.armed), files))
  }

  /** Dispatch one request; `files` are the paths the file system can open. */
  function Handle(w: Web, req: Request, files: set<string>): (o: Outcome)
    ensures Safe(w) ==> Safe(o.state)
    ensures w.synced ==> o.state.synced
    ensures !req.SyncTime? ==> o.state.clock == w.clock
    ensures req.UpdateStatus? || req.SendPage? || req.SendStatus? ==> o.state == w
  {
    match req
    case Arm => ArmForLaunch(w)
    case Disarm => DisarmLogger(w)
    case SyncTime(body) => SyncClock(w, body)
    case UpdateStatus => UpdateStatusXml(w)
    case SendPage(name) => SendFile(w, name, files)
    case SendStatus => SendStatusPage(w, files)
  }

  /** The state after serving a sequence of requests. */
  function HandleAll(w: Web, reqs: seq<Request>, files: set<string>): Web
    decreases |reqs|
  {
    if |reqs| == 0 then w else HandleAll(Handle(w, reqs[0], files).state, reqs[1..], files)
  }

  /** Across any sequence of requests, the logger is never armed without a
      synced clock, and once synced it stays synced. */
  lemma {:induction false} ArmedImpliesSynced(w: Web, reqs: seq<Request>, files: set<string>)
    requires Safe(w)
    ensures Safe(HandleAll(w, reqs, files))
    ensures w.synced ==> HandleAll(w, reqs, files).synced
    decreases |reqs|
  {
    if |reqs| > 0 {
      ArmedImpliesSynced(Handle(w, reqs[0], files).state, reqs[1..], files);
    }
  }

  /** From power-up, whatever the client sends, an armed logger has a synced
      clock. */
  lemma NeverArmedUnsynced(clock: Clock, reqs: seq<Request>, files: set<string>)
    ensures var w := HandleAll(Initial(clock), reqs, files);
            w.armed ==> w.synced
  {
    ArmedImpliesSynced(Initial(clock), reqs, files);
  }

  /** Arming before any time sync is refused; after a sync it succeeds. */
  lemma ArmNeedsSync(clock: Clock, body: string)
    ensures ArmForLaunch(Initial(clock)) == Outcome(Initial(clock), Text(400, "Time not synced"))
    ensures var synced := SyncClock(Initial(clock), body).state;
            ArmForLaunch(synced).state.armed && ArmForLaunch(synced).response == Text(200, "success")
  {
  }
}
