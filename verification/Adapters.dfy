/** The retry hint of a rate-limited response, and what an adapter call can come to. */
module Adapters {
  import opened Models
  import T = Timestamps

  /** An HTTP date as the mail-date library parses it; `zoned` is false when it carries no time zone. */
  datatype HttpDate = HttpDate(at: Instant, zoned: bool)

  /** How `execute` ends: an outcome text, or an exception with an optional retry hint. */
  datatype AdapterOutcome = Success(text: string) | Failure(hint: Option<nat>, cause: string)

  /** ASCII white space as string stripping removes it. */
  predicate IsSpace(c: char) {
    9 <= c as int <= 13 || 28 <= c as int <= 32
  }

  function StripLeft(s: string): (t: string)
    ensures |t| <= |s| && s == s[..|s| - |t|] + t
    ensures forall c :: c in s[..|s| - |t|] ==> IsSpace(c)
    ensures |t| > 0 ==> !IsSpace(t[0])
  {
    if |s| > 0 && IsSpace(s[0]) then StripLeft(s[1..]) else s
  }

  function StripRight(s: string): (t: string)
    ensures |t| <= |s| && s == t + s[|t|..]
    ensures forall c :: c in s[|t|..] ==> IsSpace(c)
    ensures |t| > 0 ==> !IsSpace(t[|t| - 1])
  {
    if |s| > 0 && IsSpace(s[|s| - 1]) then StripRight(s[..|s| - 1]) else s
  }

  function Strip(s: string): string {
    StripRight(StripLeft(s))
  }

  /** Whole seconds of a duration in microseconds, truncated toward zero. */
  function WholeSeconds(d: int): int {
    if d >= 0 then d / 1_000_000 else -(-d / 1_000_000)
  }

  /** The longest run of digits, leading zeros included, that the language converts to an integer. */
  const MAX_DIGITS: nat := 4300

  datatype ConversionError = TooManyDigits

  /**
   `_parse_retry_after`; `parseDate` is the library's reading of a mail date and `now` the clock. The
   conversion of a number is not guarded, so its error escapes.
   */
  function ParseRetryAfter(value: Option<string>, parseDate: string -> Option<HttpDate>, now: Instant)
    : Result<Option<nat>, ConversionError>
  {
    if value.None? || value.value == "" then Ok(None)
    else
      var text := Strip(value.value);
      if text != "" && T.NumberOf(text).Some? then
        if |text| > MAX_DIGITS then Err(TooManyDigits) else Ok(T.NumberOf(text))
      else
        match parseDate(text)
        case None => Ok(None)
        case Some(date) =>
          if !date.zoned then Ok(None)
          else if WholeSeconds(date.at - now) > 0 then Ok(Some(WholeSeconds(date.at - now))) else Ok(Some(0))
  }

  /**
   `_raise_for_rate_limit`: only a 429 raises, and it carries the parsed hint. An escaping conversion
   error reaches the worker as a failure like any other, without a hint.
   */
  function RateLimit(status: int, retryAfter: Option<string>, parseDate: string -> Option<HttpDate>, now: Instant)
    : Option<AdapterOutcome>
  {
    if status != 429 then None
    else
      match ParseRetryAfter(retryAfter, parseDate, now)
      case Ok(hint) => Some(Failure(hint, "rate limited"))
      case Err(_) => Some(Failure(None, "too many digits"))
  }

  lemma StripPadded(before: string, text: string, after: string)
    requires forall c :: c in before + after ==> IsSpace(c)
    requires text != "" && !IsSpace(text[0]) && !IsSpace(text[|text| - 1])
    ensures Strip(before + text + after) == text
  {
    StripLeftOf(before, text + after);
    assert before + (text + after) == before + text + after;
    StripRightOf(text, after);
  }

  lemma {:induction false} StripLeftOf(before: string, text: string)
    requires forall c :: c in before ==> IsSpace(c)
    requires text != "" && !IsSpace(text[0])
    ensures StripLeft(before + text) == text
  {
    if before == "" {
      assert before + text == text;
    } else {
      assert (before + text)[1..] == before[1..] + text && (before + text)[0] == before[0];
      StripLeftOf(before[1..], text);
    }
  }

  lemma {:induction false} StripRightOf(text: string, after: string)
    requires forall c :: c in after ==> IsSpace(c)
    requires text != "" && !IsSpace(text[|text| - 1])
    ensures StripRight(text + after) == text
  {
    if after == "" {
      assert text + after == text;
    } else {
      var n := |after| - 1;
      assert (text + after)[..|text| + n] == text + after[..n] && (text + after)[|text| + n] == after[n];
      StripRightOf(text, after[..n]);
    }
  }

  /**
   A number of seconds is read back exactly, with any surrounding blanks and any zero padding up to the
   digits that can be converted; longer padding makes the conversion fail, however small the number.
   */
  lemma DelaySecondsRoundTrip(
    n: nat, width: nat, before: string, after: string, parseDate: string -> Option<HttpDate>, now: Instant)
    requires width > 0 && n < T.Pow10(width)
    requires forall c :: c in before + after ==> IsSpace(c)
    ensures ParseRetryAfter(Some(before + T.Digits(n, width) + after), parseDate, now)
            == if width <= 4300 then Ok(Some(n)) else Err(TooManyDigits)
  {
    var digits := T.Digits(n, width);
    DigitsAreNotSpace(n, width);
    StripPadded(before, digits, after);
    T.NumberOfDigits(n, width);
  }

  /**
   A response raises exactly when its status is 429; a header of digits then gives that hint, or none at all
   if it is too long to convert, and an absent header gives none.
   */
  lemma RateLimitOutcome(
    status: int, n: nat, width: nat, before: string, after: string, parseDate: string -> Option<HttpDate>, now: Instant)
    requires width > 0 && n < T.Pow10(width)
    requires forall c :: c in before + after ==> IsSpace(c)
    ensures var outcome := RateLimit(status, Some(before + T.Digits(n, width) + after), parseDate, now);
            && (outcome.Some? <==> status == 429)
            && (outcome.Some? ==>
                  outcome.value.Failure? && outcome.value.hint == if width <= 4300 then Some(n) else None)
    ensures var outcome := RateLimit(status, None, parseDate, now);
            && (outcome.Some? <==> status == 429)
            && (outcome.Some? ==> outcome.value.Failure? && outcome.value.hint.None?)
  {
    DelaySecondsRoundTrip(n, width, before, after, parseDate, now);
  }

  /**
   A header that says nothing readable, neither a number nor a date with a time zone, or that is empty,
   gives no hint, so that the worker falls back on its own backoff.
   */
  lemma UnreadableHeaderGivesNoHint(value: string, parseDate: string -> Option<HttpDate>, now: Instant)
    requires value != "" ==>
               && T.NumberOf(Strip(value)).None?
               && (parseDate(Strip(value)).None? || !parseDate(Strip(value)).value.zoned)
    ensures RateLimit(429, Some(value), parseDate, now).Some?
    ensures var raised := RateLimit(429, Some(value), parseDate, now).value; raised.Failure? && raised.hint.None?
  {
    hide Strip, T.NumberOf;
  }

  /** The white space of the ASCII range. */
  lemma BlankCharacters(c: char)
    ensures IsSpace(c) <==> c in "\t\n\U{0B}\U{0C}\r\U{1C}\U{1D}\U{1E}\U{1F} "
  {
  }

  lemma {:induction false} DigitsAreNotSpace(n: nat, width: nat)
    ensures forall i :: 0 <= i < width ==> !IsSpace(T.Digits(n, width)[i])
  {
    if width > 0 {
      DigitsAreNotSpace(n / 10, width - 1);
      assert T.Digits(n, width)[..width - 1] == T.Digits(n / 10, width - 1);
    }
  }

  /** A date hint never reaches beyond the date, and falls short of a future one by less than a second. */
  lemma DateHintIsTruncated(value: string, parseDate: string -> Option<HttpDate>, now: Instant)
    requires value != "" && T.NumberOf(Strip(value)).None?
    requires parseDate(Strip(value)).Some? && parseDate(Strip(value)).value.zoned
    ensures var at, parsed := parseDate(Strip(value)).value.at, ParseRetryAfter(Some(value), parseDate, now);
            && parsed.Ok? && parsed.value.Some?
            && (at >= now ==> at - Seconds(1) < now + Seconds(parsed.value.value) <= at)
            && (at < now ==> parsed.value.value == 0)
  {
  }
}
