/** The openfeature stream client's dependency-free reading of a
    `flag-change` payload such as
    `{"environmentId":123,"flagKey":"my-feature","timestamp":"2024-01-02T19:00:00Z"}`
    by searching for each field's marker text.

    `Instant.parse` is a parameter (`instant`: the instant a text denotes, or
    `None` when it throws); instants and the clock are milliseconds.
 */
module FlagChangePayload {
  import opened Wrappers
  import Text
  import Int32

  const EnvironmentIdMarker: string := "\"environmentId\":"
  const FlagKeyMarker: string := "\"flagKey\":"
  const TimestampMarker: string := "\"timestamp\":\""
  const Quote: string := "\""

  /** The openfeature `FlagChangeEvent`: a null key means "possibly many
      flags changed". */
  datatype FlagChangeEvent = FlagChangeEvent(environmentId: Int32.int32, flagKey: Option<string>, timestamp: nat)

  /** The end of the maximal run of decimal digits starting at `i`. */
  function DigitRunEnd(s: string, i: nat): (e: nat)
    requires i <= |s|
    ensures i <= e <= |s|
    ensures Text.AllDigits(s[i..e])
    ensures e == |s| || !Text.IsDigit(s[e])
    decreases |s| - i
  {
    if i < |s| && Text.IsDigit(s[i]) then
      var e := DigitRunEnd(s, i + 1);
      assert s[i..e] == [s[i]] + s[i + 1..e];
      e
    else i
  }

  /** The first position at or after `i` that is not Java whitespace. */
  function SkipWhitespace(s: string, i: nat): (j: nat)
    requires i <= |s|
    ensures i <= j <= |s|
    ensures forall k :: i <= k < j ==> Text.IsJavaWhitespace(s[k])
    ensures j == |s| || !Text.IsJavaWhitespace(s[j])
    decreases |s| - i
  {
    if i < |s| && Text.IsJavaWhitespace(s[i]) then SkipWhitespace(s, i + 1) else i
  }

  /** `parseEnvironmentId`: the digits right after the first
      `"environmentId":`, as `Integer.parseInt` reads them; 0 when the
      marker is missing or no digit follows it (a minus sign is not a
      digit). Too many digits throw NumberFormatException. */
  function ParseEnvironmentId(data: string): (r: Result<Int32.int32>)
    ensures !Text.Contains(data, EnvironmentIdMarker) ==> r == Ok(0)
    ensures r.Ok? ==> r.value >= 0
    ensures r.Thrown? ==> Text.Contains(data, EnvironmentIdMarker)
  {
    match Text.IndexOf(data, EnvironmentIdMarker, 0)
    case None => Ok(0)
    case Some(at) =>
      var start := at + |EnvironmentIdMarker|;
      var end := DigitRunEnd(data, start);
      if end > start then
        var digits := data[start..end];
        var r := Int32.ParseInt(digits);
        assert r.Ok? ==> r.value == Int32.DigitsValue(digits);
        r
      else Ok(0)
  }

  /** `e` is the first quote at or after `from`. */
  predicate ClosingQuoteAt(s: string, from: nat, e: nat) {
    from <= e < |s| && s[e] == '"' && forall k :: from <= k < e ==> s[k] != '"'
  }

  /** `indexOf("\"", from)` finds the first quote at or after `from`, and
      none when no quote follows. */
  lemma IndexOfQuote(s: string, from: nat)
    ensures Text.IndexOf(s, Quote, from).Some? ==> ClosingQuoteAt(s, from, Text.IndexOf(s, Quote, from).value)
    ensures Text.IndexOf(s, Quote, from).None? ==> forall k :: from <= k < |s| ==> s[k] != '"'
  {
    match Text.IndexOf(s, Quote, from)
    case Some(e) =>
      assert s[e..e + 1] == Quote;
      forall k | from <= k < e
        ensures s[k] != '"'
      {
        assert !Text.OccursAt(s, Quote, k);
        assert s[k..k + 1] == [s[k]];
      }
    case None =>
      forall k | from <= k < |s|
        ensures s[k] != '"'
      {
        assert !Text.OccursAt(s, Quote, k);
        assert s[k..k + 1] == [s[k]];
      }
  }

  /** Between `from` and the next quote there is no quote. */
  lemma NoQuoteBefore(data: string, from: nat, end: nat)
    requires from <= end <= |data|
    requires forall k :: from <= k < end ==> !Text.OccursAt(data, Quote, k)
    ensures Quote[0] !in data[from..end]
  {
    forall k | 0 <= k < end - from
      ensures data[from..end][k] != Quote[0]
    {
      assert !Text.OccursAt(data, Quote, from + k);
      assert data[from + k..from + k + 1] == [data[from + k]];
    }
  }

  /** The text between two quotes occurs quoted. */
  lemma QuotedText(data: string, start: nat, end: nat)
    requires start < end < |data| && data[start] == '"' && data[end] == '"'
    ensures Text.Contains(data, Quote + data[start + 1..end] + Quote)
  {
    assert data[start..end + 1] == Quote + data[start + 1..end] + Quote;
    assert Text.OccursAt(data, Quote + data[start + 1..end] + Quote, start);
  }

  /** `parseFlagKey`: the text between the quotes that follow the first
      `"flagKey":` (whitespace before the opening quote skipped); `null`
      when the marker is missing, the value is `null` or unquoted, there is
      no closing quote, or the quoted text is empty. */
  function ParseFlagKey(data: string): (r: Option<string>)
    ensures !Text.Contains(data, FlagKeyMarker) ==> r.None?
    ensures r.Some? ==> |r.value| > 0 && Quote[0] !in r.value
    ensures r.Some? ==> Text.Contains(data, Quote + r.value + Quote)
  {
    match Text.IndexOf(data, FlagKeyMarker, 0)
    case None => None
    case Some(at) => QuotedValueAt(data, SkipWhitespace(data, at + |FlagKeyMarker|))
  }

  /** The key value that starts at `start`: `null` for a `null` literal, an
      unquoted value, a missing closing quote or an empty quoted text. */
  function QuotedValueAt(data: string, start: nat): (r: Option<string>)
    requires start <= |data|
    ensures r.Some? ==> |r.value| > 0 && Quote[0] !in r.value
    ensures r.Some? ==> Text.Contains(data, Quote + r.value + Quote)
  {
    if start < |data| then
      if data[start] == 'n' then None
      else if data[start] == '"' then
        match Text.IndexOf(data, Quote, start + 1)
        case Some(end) =>
          if end > start + 1 then
            var key := data[start + 1..end];
            NoQuoteBefore(data, start + 1, end);
            QuotedText(data, start, end);
            Some(key)
          else None
        case None => None
      else None
    else None
  }

  /** `parseTimestamp`: the text between `"timestamp":"` and the next quote,
      given to `Instant.parse`; `Instant.now()` when the marker is missing,
      the closing quote is missing or the text is empty. A text
      `Instant.parse` rejects throws DateTimeParseException. */
  function ParseTimestamp(data: string, now: nat, instant: string -> Option<nat>): (r: Result<nat>)
    ensures !Text.Contains(data, TimestampMarker) ==> r == Ok(now)
    ensures r.Thrown? ==> exists t :: |t| > 0 && instant(t).None? && Text.Contains(data, t)
  {
    match Text.IndexOf(data, TimestampMarker, 0)
    case None => Ok(now)
    case Some(at) => TimestampAt(data, at + |TimestampMarker|, now, instant)
  }

  /** The timestamp whose text starts at `start`: up to the next quote. */
  function TimestampAt(data: string, start: nat, now: nat, instant: string -> Option<nat>): (r: Result<nat>)
    requires start <= |data|
    ensures r.Thrown? ==> exists t :: |t| > 0 && instant(t).None? && Text.Contains(data, t)
  {
    match Text.IndexOf(data, Quote, start)
    case Some(end) =>
      if end > start then
        var text := data[start..end];
        match instant(text)
        case Some(t) => Ok(t)
        case None =>
          assert Text.OccursAt(data, text, start);
          Thrown("Text '" + text + "' could not be parsed")
      else Ok(now)
    case None => Ok(now)
  }

  /** What the environment-id parser returns, read from the digit run that
      follows the first `"environmentId":` (at `at`): 0 when there are no
      digits, the run's value when it fits in an `int`, and an exception
      when it does not. */
  lemma ParseEnvironmentIdAt(data: string, at: nat)
    requires Text.IndexOf(data, EnvironmentIdMarker, 0) == Some(at)
    ensures var start := at + |EnvironmentIdMarker|;
      var end := DigitRunEnd(data, start);
      && (end == start ==> ParseEnvironmentId(data) == Ok(0))
      && (end > start ==> (ParseEnvironmentId(data).Ok? <==> Int32.DigitsValue(data[start..end]) <= Int32.MAX))
      && (end > start && ParseEnvironmentId(data).Ok? ==>
            ParseEnvironmentId(data).value == Int32.DigitsValue(data[start..end]))
  {
  }

  /** What the key parser returns, read from the character `j` where the
      value after `"flagKey":` starts: no key unless `j` holds a quote, and a
      key is always the text up to the first quote after `j`. */
  lemma ParseFlagKeyAt(data: string, at: nat, j: nat)
    requires Text.IndexOf(data, FlagKeyMarker, 0) == Some(at)
    requires j == SkipWhitespace(data, at + |FlagKeyMarker|)
    ensures j == |data| || data[j] != '"' ==> ParseFlagKey(data).None?
    ensures ParseFlagKey(data).Some? ==>
      && j < |data| && data[j] == '"'
      && ClosingQuoteAt(data, j + 1, j + 1 + |ParseFlagKey(data).value|)
      && data[j + 1..j + 1 + |ParseFlagKey(data).value|] == ParseFlagKey(data).value
  {
    ParseFlagKeyFrom(data, at);
    QuotedValueAtShape(data, j);
  }

  /** Once the marker is found, the value after it is read. */
  lemma ParseFlagKeyFrom(data: string, at: nat)
    requires Text.IndexOf(data, FlagKeyMarker, 0) == Some(at)
    ensures at + |FlagKeyMarker| <= |data|
    ensures ParseFlagKey(data) == QuotedValueAt(data, SkipWhitespace(data, at + |FlagKeyMarker|))
  {
  }

  /** A value read at `j` starts with a quote and ends at the next one. */
  lemma QuotedValueAtShape(data: string, j: nat)
    requires j <= |data|
    ensures j == |data| || data[j] != '"' ==> QuotedValueAt(data, j).None?
    ensures QuotedValueAt(data, j).Some? ==>
      && j < |data| && data[j] == '"'
      && ClosingQuoteAt(data, j + 1, j + 1 + |QuotedValueAt(data, j).value|)
      && data[j + 1..j + 1 + |QuotedValueAt(data, j).value|] == QuotedValueAt(data, j).value
  {
    if j < |data| && data[j] == '"' {
      IndexOfQuote(data, j + 1);
    }
  }

  /** Conversely, a quote at `j` whose first closing quote is `e` yields the
      text between them, or no key when that text is empty. */
  lemma ParseFlagKeyQuoted(data: string, at: nat, j: nat, e: nat)
    requires Text.IndexOf(data, FlagKeyMarker, 0) == Some(at)
    requires j == SkipWhitespace(data, at + |FlagKeyMarker|)
    requires j < |data| && data[j] == '"' && ClosingQuoteAt(data, j + 1, e)
    ensures e == j + 1 ==> ParseFlagKey(data).None?
    ensures e > j + 1 ==> ParseFlagKey(data) == Some(data[j + 1..e])
  {
    QuotedValueAtClosing(data, j, e);
  }

  /** With the closing quote at `e`, the text between the quotes decides. */
  lemma QuotedValueAtClosing(data: string, j: nat, e: nat)
    requires j < |data| && data[j] == '"' && ClosingQuoteAt(data, j + 1, e)
    ensures QuotedValueAt(data, j) == if e > j + 1 then Some(data[j + 1..e]) else None
  {
    FirstQuote(data, j + 1, e);
  }

  /** With a closing quote at `e`, the timestamp is `Instant.parse` of the
      text between the quotes (an exception when that rejects it), and the
      current time when the text is empty. */
  lemma ParseTimestampQuoted(data: string, now: nat, instant: string -> Option<nat>, at: nat, e: nat)
    requires Text.IndexOf(data, TimestampMarker, 0) == Some(at)
    requires ClosingQuoteAt(data, at + |TimestampMarker|, e)
    ensures e == at + |TimestampMarker| ==> ParseTimestamp(data, now, instant) == Ok(now)
    ensures e > at + |TimestampMarker| ==>
      var text := data[at + |TimestampMarker|..e];
      && (ParseTimestamp(data, now, instant).Ok? <==> instant(text).Some?)
      && (instant(text).Some? ==> ParseTimestamp(data, now, instant) == Ok(instant(text).value))
  {
    TimestampAtClosing(data, at + |TimestampMarker|, e, data[at + |TimestampMarker|..e], now, instant);
  }

  /** With the closing quote at `e`, the text before it decides. */
  lemma TimestampAtClosing(data: string, start: nat, e: nat, text: string, now: nat, instant: string -> Option<nat>)
    requires ClosingQuoteAt(data, start, e) && text == data[start..e]
    ensures |text| == 0 ==> TimestampAt(data, start, now, instant) == Ok(now)
    ensures |text| > 0 && instant(text).Some? ==> TimestampAt(data, start, now, instant) == Ok(instant(text).value)
    ensures |text| > 0 && instant(text).None? ==> TimestampAt(data, start, now, instant).Thrown?
  {
    FirstQuote(data, start, e);
  }


  /** Without any closing quote the timestamp falls back to the current time. */
  lemma ParseTimestampUnclosed(data: string, now: nat, instant: string -> Option<nat>, at: nat)
    requires Text.IndexOf(data, TimestampMarker, 0) == Some(at)
    requires forall k :: at + |TimestampMarker| <= k < |data| ==> data[k] != '"'
    ensures ParseTimestamp(data, now, instant) == Ok(now)
  {
    IndexOfQuote(data, at + |TimestampMarker|);
  }

  /** `parseFlagChangeEvent`: the three fields in this order; the first
      exception wins. */
  function ParseEvent(data: string, now: nat, instant: string -> Option<nat>): (r: Result<FlagChangeEvent>)
    ensures r.Ok? <==> ParseEnvironmentId(data).Ok? && ParseTimestamp(data, now, instant).Ok?
    ensures r.Ok? ==> r.value == FlagChangeEvent(ParseEnvironmentId(data).value, ParseFlagKey(data),
                                                 ParseTimestamp(data, now, instant).value)
  {
    match ParseEnvironmentId(data)
    case Thrown(m) => Thrown(m)
    case Ok(env) =>
      var key := ParseFlagKey(data);
      match ParseTimestamp(data, now, instant)
      case Thrown(m) => Thrown(m)
      case Ok(t) => Ok(FlagChangeEvent(env, key, t))
  }

  /** What `processEvent` hands to the listener for a `flag-change`: the
      parsed event, or, when parsing throws, environment 0, no key and the
      current time, so that a refresh still happens. */
  function Decode(data: string, now: nat, instant: string -> Option<nat>): (e: FlagChangeEvent)
    ensures ParseEvent(data, now, instant).Ok? ==> e == ParseEvent(data, now, instant).value
    ensures ParseEvent(data, now, instant).Thrown? ==> e == FlagChangeEvent(0, None, now)
  {
    match ParseEvent(data, now, instant)
    case Ok(e) => e
    case Thrown(_) => FlagChangeEvent(0, None, now)
  }

  // ---------------------------------------------------------------------
  // The payload the server sends, read back
  // ---------------------------------------------------------------------

  /** No char of `s` is `c`. */
  predicate Lacks(s: string, c: char) {
    forall i :: 0 <= i < |s| ==> s[i] != c
  }

  /** A flag key the server can send: non-empty, with no quote in it. */
  predicate SendableKey(key: Option<string>) {
    key.Some? ==> |key.value| > 0 && Lacks(key.value, '"')
  }

  function KeyText(key: Option<string>): string {
    if key.Some? then Quote + key.value + Quote else "null"
  }

  function EnvironmentPart(env: nat): string {
    "{" + EnvironmentIdMarker + Int32.ShowNat(env) + ","
  }

  function KeyPart(key: Option<string>): string {
    FlagKeyMarker + KeyText(key) + ","
  }

  function TimestampPart(timestamp: string): string {
    TimestampMarker + timestamp + Quote + "}"
  }

  /** `{"environmentId":E,"flagKey":"K","timestamp":"T"}`, or with
      `"flagKey":null`. */
  function Encode(env: nat, key: Option<string>, timestamp: string): string {
    EnvironmentPart(env) + KeyPart(key) + TimestampPart(timestamp)
  }

  /** A char that differs from the pattern rules out a match at `j`. */
  lemma Mismatch(s: string, pat: string, j: nat, m: nat)
    requires m < |pat| && j + m < |s| && s[j + m] != pat[m]
    ensures !Text.OccursAt(s, pat, j)
  {
    if j + |pat| <= |s| {
      assert s[j..j + |pat|][m] == s[j + m];
    }
  }

  /** The first quote at or after `from`. */
  lemma FirstQuote(s: string, from: nat, end: nat)
    requires from <= end < |s| && s[end] == '"'
    requires forall k :: from <= k < end ==> s[k] != '"'
    ensures Text.IndexOf(s, Quote, from) == Some(end)
  {
    assert s[end..end + 1] == Quote;
    forall k | from <= k < end
      ensures !Text.OccursAt(s, Quote, k)
    {
      Mismatch(s, Quote, k, 0);
    }
    Text.IndexOfFirst(s, Quote, from, end);
  }

  /** Where the quotes of the environment part are, and what follows them. */
  lemma EnvironmentPartQuotes(env: nat)
    ensures var a := EnvironmentPart(env);
      && |a| == 18 + |Int32.ShowNat(env)|
      && a[0] == '{' && a[1] == '"' && a[2] == 'e' && a[15] == '"' && a[16] == ':'
      && a[|a| - 1] == ','
      && (forall j :: 0 <= j < |a| && a[j] == '"' ==> j == 1 || j == 15)
  {
    var d := Int32.ShowNat(env);
    var a := EnvironmentPart(env);
    assert a == "{\"" + "environmentId" + "\":" + d + ",";
    assert Lacks("environmentId", '"');
    forall j | 0 <= j < |a| && a[j] == '"'
      ensures j == 1 || j == 15
    {
    }
  }

  /** The key part spelled out. */
  lemma KeyPartShape(key: Option<string>)
    ensures var b := KeyPart(key);
      && |b| == 11 + |KeyText(key)|
      && b[0] == '"' && b[1] == 'f' && b[8] == '"' && b[9] == ':'
      && b[|b| - 1] == ','
      && b[10..|b| - 1] == KeyText(key)
      && forall j :: 1 <= j < 8 ==> b[j] != '"'
  {
    var b := KeyPart(key);
    assert Lacks("flagKey", '"');
    assert b == "\"" + "flagKey" + "\":" + KeyText(key) + ",";
    assert forall j :: 1 <= j < 8 ==> b[j] == "flagKey"[j - 1];
  }

  /** A quoted key followed by `,` is not where a timestamp marker starts:
      a key shorter than "timestamp" meets its closing quote where the
      marker has a letter, one of exactly that length is followed by `,`
      where the marker has `:`, and a longer one has no quote where the
      marker has its second quote. */
  lemma QuotedKeyIsNotTimestampMarker(s: string, j: nat, k: string)
    requires |k| > 0 && Lacks(k, '"')
    requires j + |k| + 3 <= |s|
    requires s[j + 1..j + 1 + |k|] == k && s[j + 1 + |k|] == '"' && s[j + 2 + |k|] == ','
    ensures !Text.OccursAt(s, TimestampMarker, j)
  {
    var m := |k| + 1;
    assert Lacks("timestamp", '"');
    if m < 10 {
      assert TimestampMarker[m] == "timestamp"[m - 1];
      Mismatch(s, TimestampMarker, j, m);
    } else if m == 10 {
      Mismatch(s, TimestampMarker, j, 11);
    } else {
      assert s[j + 10] == k[9] by {
        assert s[j + 1..j + 1 + |k|][9] == s[j + 10];
      }
      Mismatch(s, TimestampMarker, j, 10);
    }
  }

  /** The key part holds no timestamp marker. */
  lemma NoTimestampMarkerIn(s: string, at: nat, key: Option<string>)
    requires SendableKey(key)
    requires at + |KeyPart(key)| + 1 <= |s| && s[at..at + |KeyPart(key)|] == KeyPart(key)
    requires s[at + |KeyPart(key)|] == '"'
    ensures forall j :: at <= j < at + |KeyPart(key)| ==> !Text.OccursAt(s, TimestampMarker, j)
  {
    forall j | at <= j < at + |KeyPart(key)|
      ensures !Text.OccursAt(s, TimestampMarker, j)
    {
      NoTimestampMarkerAt(s, at, key, j);
    }
  }

  /** No timestamp marker starts at position `j` of the key part. */
  lemma NoTimestampMarkerAt(s: string, at: nat, key: Option<string>, j: nat)
    requires SendableKey(key)
    requires at + |KeyPart(key)| + 1 <= |s| && s[at..at + |KeyPart(key)|] == KeyPart(key)
    requires s[at + |KeyPart(key)|] == '"'
    requires at <= j < at + |KeyPart(key)|
    ensures !Text.OccursAt(s, TimestampMarker, j)
  {
    var b := KeyPart(key);
    KeyPartShape(key);
    var kt := KeyText(key);
    var o := j - at;
    CharAt(s, at, b, o);
    if o == 0 || o == 8 {
      CharAt(s, at, b, o + 1);
      Mismatch(s, TimestampMarker, j, 1);
    } else if o < 10 || o == |b| - 1 {
      Mismatch(s, TimestampMarker, j, 0);
    } else if key.None? {
      assert b[o] == kt[o - 10] by { assert b[10..|b| - 1][o - 10] == b[o]; }
      Mismatch(s, TimestampMarker, j, 0);
    } else {
      var k := key.value;
      assert kt == Quote + k + Quote;
      if o == 10 {
        KeyAfterQuote(s, at, b, k);
        CharAt(s, at, b, 11 + |k|);
        CharAt(s, at, b, 12 + |k|);
        assert b[11 + |k|] == kt[1 + |k|] by { assert b[10..|b| - 1][1 + |k|] == b[11 + |k|]; }
        QuotedKeyIsNotTimestampMarker(s, j, k);
      } else if o == 11 + |k| {
        CharAt(s, at, b, o + 1);
        Mismatch(s, TimestampMarker, j, 1);
      } else {
        assert b[o] == k[o - 11] by { assert b[10..|b| - 1][o - 10] == b[o]; }
        Mismatch(s, TimestampMarker, j, 0);
      }
    }
  }

  /** A character of a part found at `at`. */
  lemma CharAt(s: string, at: nat, b: string, o: nat)
    requires at + |b| <= |s| && s[at..at + |b|] == b && o < |b|
    ensures s[at + o] == b[o]
  {
    assert s[at..at + |b|][o] == s[at + o];
  }

  /** The quoted key inside a key part found at `at`. */
  lemma KeyAfterQuote(s: string, at: nat, b: string, k: string)
    requires |b| == 13 + |k| && b[10..|b| - 1] == Quote + k + Quote
    requires at + |b| <= |s| && s[at..at + |b|] == b
    ensures s[at + 11..at + 11 + |k|] == k
  {
    forall i | 0 <= i < |k|
      ensures s[at + 11 + i] == k[i]
    {
      CharAt(s, at, b, 11 + i);
      assert b[10..|b| - 1][1 + i] == b[11 + i];
    }
  }

  lemma DigitRunEndAt(s: string, i: nat, e: nat)
    requires i <= e <= |s| && Text.AllDigits(s[i..e])
    requires e == |s| || !Text.IsDigit(s[e])
    ensures DigitRunEnd(s, i) == e
    decreases e - i
  {
    if i < e {
      assert s[i..e][0] == s[i];
      assert s[i + 1..e] == s[i..e][1..];
      DigitRunEndAt(s, i + 1, e);
    }
  }

  /** Where the parts sit in an encoded payload. */
  lemma EncodeLayout(env: nat, key: Option<string>, timestamp: string)
    ensures var s := Encode(env, key, timestamp);
      var a := EnvironmentPart(env);
      var b := KeyPart(key);
      var c := TimestampPart(timestamp);
      && |s| == |a| + |b| + |c|
      && s[..|a|] == a && s[|a|..|a| + |b|] == b && s[|a| + |b|..] == c
  {
  }

  /** No flag-key or timestamp marker starts inside the environment part. */
  lemma NoMarkerInEnvironmentPart(s: string, env: nat, pat: string)
    requires |pat| >= 2 && pat[0] == '"' && pat[1] != 'e' && pat[1] != ':'
    requires |EnvironmentPart(env)| < |s| && s[..|EnvironmentPart(env)|] == EnvironmentPart(env)
    ensures forall j :: 0 <= j < |EnvironmentPart(env)| ==> !Text.OccursAt(s, pat, j)
  {
    var a := EnvironmentPart(env);
    EnvironmentPartQuotes(env);
    assert forall j :: 0 <= j < |a| ==> s[j] == a[j];
    forall j | 0 <= j < |a|
      ensures !Text.OccursAt(s, pat, j)
    {
      if s[j] != pat[0] {
        Mismatch(s, pat, j, 0);
      } else {
        Mismatch(s, pat, j, 1);
      }
    }
  }

  /** The environment id written by the server is read back. */
  lemma EncodedEnvironmentId(env: nat, key: Option<string>, timestamp: string)
    requires env <= Int32.MAX
    ensures ParseEnvironmentId(Encode(env, key, timestamp)) == Ok(env)
  {
    var s := Encode(env, key, timestamp);
    var a := EnvironmentPart(env);
    var d := Int32.ShowNat(env);
    EncodeLayout(env, key, timestamp);
    EnvironmentPartQuotes(env);
    assert a == "{" + EnvironmentIdMarker + d + ",";
    assert s[1..17] == EnvironmentIdMarker by {
      assert s[1..17] == a[1..17];
    }
    Mismatch(s, EnvironmentIdMarker, 0, 0);
    Text.IndexOfFirst(s, EnvironmentIdMarker, 0, 1);
    assert s[17..17 + |d|] == d by {
      assert s[17..17 + |d|] == a[17..17 + |d|];
    }
    assert s[17 + |d|] == ',';
    DigitRunEndAt(s, 17, 17 + |d|);
    Int32.ParseShowRoundTrip(env);
  }

  /** A slice of a slice. */
  lemma SubSlice(s: string, x: nat, y: nat, i: nat, j: nat)
    requires x <= y <= |s| && i <= j <= y - x
    ensures s[x..y][i..j] == s[x + i..x + j]
  {
    forall k | 0 <= k < j - i
      ensures s[x..y][i..j][k] == s[x + i..x + j][k]
    {
    }
  }

  /** The first flag-key marker of a payload starts its key part. */
  lemma EncodedFlagKeyMarker(env: nat, key: Option<string>, timestamp: string)
    ensures Text.IndexOf(Encode(env, key, timestamp), FlagKeyMarker, 0) == Some(|EnvironmentPart(env)|)
  {
    var s := Encode(env, key, timestamp);
    var a := EnvironmentPart(env);
    var b := KeyPart(key);
    EncodeLayout(env, key, timestamp);
    KeyPartShape(key);
    var at := |a|;
    assert s[at..at + 10] == FlagKeyMarker by {
      SubSlice(s, at, at + |b|, 0, 10);
      assert b == FlagKeyMarker + KeyText(key) + ",";
      assert b[..10] == FlagKeyMarker;
    }
    NoMarkerInEnvironmentPart(s, env, FlagKeyMarker);
    Text.IndexOfFirst(s, FlagKeyMarker, 0, at);
  }

  /** The flag key (or its absence) written by the server is read back. */
  lemma EncodedFlagKey(env: nat, key: Option<string>, timestamp: string)
    requires SendableKey(key)
    ensures ParseFlagKey(Encode(env, key, timestamp)) == key
  {
    var s := Encode(env, key, timestamp);
    var kt := KeyText(key);
    var start := |EnvironmentPart(env)| + |FlagKeyMarker|;
    EncodedKeyText(env, key, timestamp);
    EncodedFlagKeyMarker(env, key, timestamp);
    ParseFlagKeyFrom(s, |EnvironmentPart(env)|);
    assert SkipWhitespace(s, start) == start by {
      assert s[start] == s[start..start + |kt|][0] == kt[0];
    }
    if key.Some? {
      QuotedKeyAt(s, start, key.value);
    } else {
      assert s[start] == s[start..start + |kt|][0] == 'n';
    }
  }

  /** Where the key text sits in an encoded payload. */
  lemma EncodedKeyText(env: nat, key: Option<string>, timestamp: string)
    ensures var s := Encode(env, key, timestamp);
      var start := |EnvironmentPart(env)| + |FlagKeyMarker|;
      start + |KeyText(key)| < |s| && s[start..start + |KeyText(key)|] == KeyText(key)
  {
    var s := Encode(env, key, timestamp);
    var a := EnvironmentPart(env);
    var b := KeyPart(key);
    var kt := KeyText(key);
    EncodeLayout(env, key, timestamp);
    KeyPartShape(key);
    assert |FlagKeyMarker| == 10;
    SubSlice(s, |a|, |a| + |b|, 10, 10 + |kt|);
  }

  /** A quoted, quote-free key at `start` is the value read there. */
  lemma QuotedKeyAt(s: string, start: nat, k: string)
    requires |k| > 0 && Lacks(k, '"')
    requires start + |k| + 2 <= |s| && s[start..start + |k| + 2] == Quote + k + Quote
    ensures QuotedValueAt(s, start) == Some(k)
  {
    var end := start + 1 + |k|;
    var kt := Quote + k + Quote;
    assert s[start] == kt[0];
    assert s[end] == kt[1 + |k|];
    assert s[start + 1..end] == k by {
      SubSlice(s, start, start + |kt|, 1, 1 + |k|);
      assert kt[1..1 + |k|] == k;
    }
    assert ClosingQuoteAt(s, start + 1, end) by {
      QuoteFreeRun(s, start + 1, k);
    }
    QuotedValueAtClosing(s, start, end);
  }

  /** The first timestamp marker of a payload starts its timestamp part. */
  lemma EncodedTimestampMarker(env: nat, key: Option<string>, timestamp: string)
    requires SendableKey(key)
    ensures Text.IndexOf(Encode(env, key, timestamp), TimestampMarker, 0)
         == Some(|EnvironmentPart(env)| + |KeyPart(key)|)
  {
    var s := Encode(env, key, timestamp);
    var a := EnvironmentPart(env);
    var b := KeyPart(key);
    assert Text.IndexOf(s, TimestampMarker, 0) == Some(|a| + |b|) by {
      TimestampMarkerOfPart(env, key, timestamp);
      NoTimestampMarkerBefore(env, key, timestamp);
      Text.IndexOfFirst(s, TimestampMarker, 0, |a| + |b|);
    }
  }

  /** The timestamp part starts with its marker. */
  lemma TimestampMarkerOfPart(env: nat, key: Option<string>, timestamp: string)
    ensures Text.OccursAt(Encode(env, key, timestamp), TimestampMarker, |EnvironmentPart(env)| + |KeyPart(key)|)
  {
    var s := Encode(env, key, timestamp);
    EncodeLayout(env, key, timestamp);
    TimestampPartStarts(s, |EnvironmentPart(env)| + |KeyPart(key)|, timestamp);
  }

  /** Neither the environment part nor the key part holds a timestamp marker. */
  lemma NoTimestampMarkerBefore(env: nat, key: Option<string>, timestamp: string)
    requires SendableKey(key)
    ensures forall j :: 0 <= j < |EnvironmentPart(env)| + |KeyPart(key)| ==>
      !Text.OccursAt(Encode(env, key, timestamp), TimestampMarker, j)
  {
    var s := Encode(env, key, timestamp);
    var a := EnvironmentPart(env);
    EncodeLayout(env, key, timestamp);
    NoMarkerInEnvironmentPart(s, env, TimestampMarker);
    NoTimestampMarkerIn(s, |a|, key);
  }

  /** What a timestamp part looks like from inside the whole payload. */
  lemma TimestampPartStarts(s: string, at: nat, timestamp: string)
    requires at <= |s| && s[at..] == TimestampPart(timestamp)
    ensures Text.OccursAt(s, TimestampMarker, at) && s[at] == '"'
    ensures s[at + |TimestampMarker|..at + |TimestampMarker| + |timestamp|] == timestamp
    ensures s[at + |TimestampMarker| + |timestamp|] == '"'
  {
    var m, n, c := |TimestampMarker|, |timestamp|, TimestampPart(timestamp);
    assert c[..m] == TimestampMarker && c[m..m + n] == timestamp && c[m + n] == '"';
    SubSlice(s, at, |s|, 0, m);
    SubSlice(s, at, |s|, m, m + n);
    assert s[at + m + n] == s[at..][m + n];
    assert s[at] == TimestampMarker[0] by { assert s[at] == s[at..][0]; }
  }

  /** `parseTimestamp` once the marker and the closing quote are found. */
  lemma ParseTimestampAt(s: string, at: nat, t: string, now: nat, instant: string -> Option<nat>)
    requires Text.IndexOf(s, TimestampMarker, 0) == Some(at)
    requires |t| > 0 && Lacks(t, '"')
    requires at + |TimestampMarker| + |t| < |s| && s[at + |TimestampMarker| + |t|] == '"'
    requires s[at + |TimestampMarker|..at + |TimestampMarker| + |t|] == t
    ensures instant(t).Some? ==> ParseTimestamp(s, now, instant) == Ok(instant(t).value)
    ensures instant(t).None? ==> ParseTimestamp(s, now, instant).Thrown?
  {
    TimestampText(s, at + |TimestampMarker|, t, now, instant);
    ParseTimestampFrom(s, at, now, instant);
  }

  /** A quote-free text closed by a quote is what `Instant.parse` is given. */
  lemma TimestampText(s: string, start: nat, t: string, now: nat, instant: string -> Option<nat>)
    requires |t| > 0 && Lacks(t, '"')
    requires start + |t| < |s| && s[start..start + |t|] == t && s[start + |t|] == '"'
    ensures instant(t).Some? ==> TimestampAt(s, start, now, instant) == Ok(instant(t).value)
    ensures instant(t).None? ==> TimestampAt(s, start, now, instant).Thrown?
  {
    QuoteFreeRun(s, start, t);
    TimestampAtClosing(s, start, start + |t|, t, now, instant);
  }

  /** Once the marker is found, the text right after it is parsed. */
  lemma ParseTimestampFrom(s: string, at: nat, now: nat, instant: string -> Option<nat>)
    requires Text.IndexOf(s, TimestampMarker, 0) == Some(at)
    ensures at + |TimestampMarker| <= |s| && ParseTimestamp(s, now, instant) == TimestampAt(s, at + |TimestampMarker|, now, instant)
  {
  }

  /** A quote-free text found at `start` puts no quote in that range. */
  lemma QuoteFreeRun(s: string, start: nat, t: string)
    requires start + |t| <= |s| && s[start..start + |t|] == t && Lacks(t, '"')
    ensures forall i :: start <= i < start + |t| ==> s[i] != '"'
  {
    forall i | start <= i < start + |t|
      ensures s[i] != '"'
    {
      assert s[i] == s[start..start + |t|][i - start];
    }
  }

  /** The timestamp text written by the server is what `Instant.parse` sees. */
  lemma EncodedTimestamp(env: nat, key: Option<string>, timestamp: string, now: nat, instant: string -> Option<nat>)
    requires SendableKey(key) && |timestamp| > 0 && Lacks(timestamp, '"')
    ensures instant(timestamp).Some? ==>
      ParseTimestamp(Encode(env, key, timestamp), now, instant) == Ok(instant(timestamp).value)
    ensures instant(timestamp).None? ==>
      ParseTimestamp(Encode(env, key, timestamp), now, instant).Thrown?
  {
    var s := Encode(env, key, timestamp);
    var at := |EnvironmentPart(env)| + |KeyPart(key)|;
    EncodeLayout(env, key, timestamp);
    EncodedTimestampMarker(env, key, timestamp);
    TimestampPartStarts(s, at, timestamp);
    ParseTimestampAt(s, at, timestamp, now, instant);
  }

  /** The whole payload round-trips: the event the server described is the
      event the listener gets. */
  lemma EncodedEventRoundTrip(env: nat, key: Option<string>, timestamp: string, now: nat, instant: string -> Option<nat>)
    requires env <= Int32.MAX && SendableKey(key)
    requires |timestamp| > 0 && Lacks(timestamp, '"') && instant(timestamp).Some?
    ensures ParseEvent(Encode(env, key, timestamp), now, instant)
         == Ok(FlagChangeEvent(env, key, instant(timestamp).value))
    ensures Decode(Encode(env, key, timestamp), now, instant)
         == FlagChangeEvent(env, key, instant(timestamp).value)
  {
    EncodedEnvironmentId(env, key, timestamp);
    EncodedFlagKey(env, key, timestamp);
    EncodedTimestamp(env, key, timestamp, now, instant);
  }

  /** A timestamp `Instant.parse` rejects turns the whole event into the
      fallback: environment 0, no key, the current time. */
  lemma BadTimestampFallsBack(env: nat, key: Option<string>, timestamp: string, now: nat, instant: string -> Option<nat>)
    requires env <= Int32.MAX && SendableKey(key)
    requires |timestamp| > 0 && Lacks(timestamp, '"') && instant(timestamp).None?
    ensures Decode(Encode(env, key, timestamp), now, instant) == FlagChangeEvent(0, None, now)
  {
    EncodedTimestamp(env, key, timestamp, now, instant);
  }
}
