/** Reading a Retry-After header (section 10.2.3 of RFC 9110) into a delay in nanoseconds. */
module RetryAfter {
  import opened Options
  import opened Text
  import Breaker

  const MAX_INT64: int := 0x7fff_ffff_ffff_ffff
  const MIN_INT64: int := -0x8000_0000_0000_0000
  const SECOND: int := 1_000_000_000
  const MAX_SECONDS: int := 100 * 365 * 24 * 3600

  predicate Int64(n: int) { MIN_INT64 <= n <= MAX_INT64 }

  /** The value a 64-bit computation of `n` leaves behind. */
  function Wrap64(n: int): (r: int)
    ensures Int64(r)
    ensures Int64(n) ==> r == n
  {
    (n - MIN_INT64) % 0x1_0000_0000_0000_0000 + MIN_INT64
  }

  /** `time.Time.Sub` saturates. */
  function Saturate(n: int): (r: int)
    ensures Int64(r)
  {
    if n < MIN_INT64 then MIN_INT64 else if n > MAX_INT64 then MAX_INT64 else n
  }

  /** `unicode.IsSpace`. */
  predicate Space(c: char) {
    || '\t' <= c <= '\r' || c in [' ', '\U{85}', '\U{A0}', '\U{1680}', '\U{2028}', '\U{2029}', '\U{202F}', '\U{205F}', '\U{3000}']
    || '\U{2000}' <= c <= '\U{200A}'
  }

  function TrimLeft(s: string): string {
    if s != [] && Space(s[0]) then TrimLeft(s[1..]) else s
  }

  function TrimRight(s: string): string {
    if s != [] && Space(s[|s| - 1]) then TrimRight(s[..|s| - 1]) else s
  }

  function TrimSpace(s: string): string {
    TrimRight(TrimLeft(s))
  }

  /** A nonempty run of decimal digits. */
  function Digits(s: string): (r: Option<nat>) {
    if s == [] || !('0' <= s[|s| - 1] <= '9') then None
    else
      var last := s[|s| - 1] as int - '0' as int;
      if |s| == 1 then Some(last)
      else
        match Digits(s[..|s| - 1])
        case None => None
        case Some(n) => Some(10 * n + last)
  }

  /** `strconv.ParseInt(s, 10, 64)`: an optional sign, then digits, within range. */
  function ParseInt(s: string): (r: Option<int>)
    ensures r.Some? ==> Int64(r.value)
  {
    var negative := s != [] && s[0] == '-';
    var digits := if s != [] && (s[0] == '-' || s[0] == '+') then s[1..] else s;
    match Digits(digits)
    case None => None
    case Some(n) =>
      var value: int := if negative then 0 - n else n;
      if Int64(value) then Some(value) else None
  }

  /** `parseRetryAfter`. Instants are nanoseconds; `parseTime` is the HTTP-date reader. */
  function Parse(values: seq<string>, now: int, parseTime: string -> Option<int>): Breaker.RetryAfter {
    if values == [] || values[0] == "" then Breaker.RetryAfter(0, false)
    else
      var text := TrimSpace(values[0]);
      match ParseInt(text)
      case Some(seconds) =>
        if seconds < 0 then Breaker.RetryAfter(0, true)
        else if seconds > MAX_SECONDS then Breaker.RetryAfter(0, false)
        else Breaker.RetryAfter(Wrap64(seconds * SECOND), true)
      case None =>
        match parseTime(text)
        case Some(when) =>
          var delta := Saturate(when - now);
          Breaker.RetryAfter(if delta > 0 then delta else 0, true)
        case None => Breaker.RetryAfter(0, false)
  }

  /** For any header text a usable delay is a non-negative 64-bit duration; for a number of seconds it is
      that number exactly, the multiplication not having wrapped; for a date it is the time left until
      then, none when the date is past. */
  lemma {:induction false} DelayInRange(values: seq<string>, now: int, parseTime: string -> Option<int>)
    ensures var r := Parse(values, now, parseTime);
            && 0 <= r.delay <= MAX_INT64
            && (!r.ok ==> r.delay == 0)
            && (values != [] && values[0] != "" && ParseInt(TrimSpace(values[0])).Some? ==>
                  var seconds := ParseInt(TrimSpace(values[0])).value;
                  && (r.ok <==> seconds <= MAX_SECONDS)
                  && (r.ok ==> r.delay == if seconds < 0 then 0 else seconds * SECOND))
            && (values != [] && values[0] != "" && ParseInt(TrimSpace(values[0])).None? ==>
                  var when := parseTime(TrimSpace(values[0]));
                  && (r.ok <==> when.Some?)
                  && (r.ok ==> r.delay == if when.value <= now then 0
                                          else if when.value - now <= MAX_INT64 then when.value - now else MAX_INT64))
  {
  }

  // ---------------------------------------------------------------------------------------------
  // What a server that follows the grammar writes is what is read
  // ---------------------------------------------------------------------------------------------

  predicate Blank(s: string) {
    forall c | c in s :: Space(c)
  }

  lemma {:induction false} DigitsOfDecimal(n: nat)
    ensures Digits(Decimal(n)) == Some(n)
    decreases n
  {
    if n >= 10 {
      DigitsOfDecimal(n / 10);
      var d := Decimal(n);
      assert d[..|d| - 1] == Decimal(n / 10);
    }
  }

  lemma {:induction false} TrimLeftBlank(pad: string, s: string)
    requires Blank(pad) && s != [] && !Space(s[0])
    ensures TrimLeft(pad + s) == s
  {
    if pad == [] {
      assert pad + s == s;
    } else {
      assert (pad + s)[1..] == pad[1..] + s;
      TrimLeftBlank(pad[1..], s);
    }
  }

  lemma {:induction false} TrimRightBlank(s: string, pad: string)
    requires Blank(pad) && s != [] && !Space(s[|s| - 1])
    ensures TrimRight(s + pad) == s
  {
    if pad == [] {
      assert s + pad == s;
    } else {
      var all := s + pad;
      assert all[..|all| - 1] == s + pad[..|pad| - 1];
      assert all[|all| - 1] == pad[|pad| - 1];
      TrimRightBlank(s, pad[..|pad| - 1]);
    }
  }

  lemma {:induction false} TrimPadded(before: string, s: string, after: string)
    requires Blank(before) && Blank(after) && s != [] && !Space(s[0]) && !Space(s[|s| - 1])
    ensures TrimSpace(before + s + after) == s
  {
    assert before + s + after == before + (s + after);
    TrimLeftBlank(before, s + after);
    TrimRightBlank(s, after);
  }

  /** How a whole number of seconds is honoured. */
  function Honoured(seconds: int): Breaker.RetryAfter {
    if seconds < 0 then Breaker.RetryAfter(0, true)
    else if seconds <= MAX_SECONDS then Breaker.RetryAfter(seconds * SECOND, true)
    else Breaker.RetryAfter(0, false)
  }

  lemma {:induction false} ParsePadded(before: string, d: string, after: string, seconds: int, now: int, parseTime: string -> Option<int>)
    requires Blank(before) && Blank(after) && d != [] && !Space(d[0]) && !Space(d[|d| - 1])
    requires ParseInt(d) == Some(seconds)
    ensures Parse([before + d + after], now, parseTime) == Honoured(seconds)
  {
    TrimPadded(before, d, after);
    DelayInRange([before + d + after], now, parseTime);
  }

  lemma {:induction false} PlainDecimal(n: nat)
    requires n <= MAX_INT64
    ensures ParseInt(Decimal(n)) == Some(n)
  {
    DigitsOfDecimal(n);
    assert Decimal(n)[0] in Decimal(n);
  }

  lemma {:induction false} MinusDecimal(n: nat)
    requires n <= MAX_INT64 + 1
    ensures ParseInt("-" + Decimal(n)) == Some(0 - n)
  {
    DigitsOfDecimal(n);
    MinusRest(Decimal(n));
  }

  lemma {:induction false} MinusRest(d: string)
    ensures var s := "-" + d; s[0] == '-' && s[1..] == d
  {
  }

  lemma {:induction false} DecimalEnds(n: nat)
    ensures var d := Decimal(n); !Space(d[0]) && !Space(d[|d| - 1])
  {
    var d := Decimal(n);
    assert d[0] in d && d[|d| - 1] in d;
  }

  /** Any number of delta-seconds, with any surrounding whitespace, reads back as that delay, and is
      refused exactly above a hundred years. */
  lemma {:induction false} SecondsRoundTrip(n: nat, before: string, after: string, now: int, parseTime: string -> Option<int>)
    requires Blank(before) && Blank(after)
    requires n <= MAX_INT64
    ensures Parse([before + Decimal(n) + after], now, parseTime) ==
            if n <= MAX_SECONDS then Breaker.RetryAfter(n * SECOND, true) else Breaker.RetryAfter(0, false)
  {
    DecimalEnds(n);
    PlainDecimal(n);
    ParsePadded(before, Decimal(n), after, n, now, parseTime);
  }

  /** A negative number of seconds is honoured as no delay at all. */
  lemma {:induction false} NegativeSeconds(n: nat, before: string, after: string, now: int, parseTime: string -> Option<int>)
    requires Blank(before) && Blank(after)
    requires 0 < n <= MAX_INT64 + 1
    ensures Parse([before + ("-" + Decimal(n)) + after], now, parseTime) == Breaker.RetryAfter(0, true)
  {
    MinusEnds(n);
    MinusDecimal(n);
    ParsePadded(before, "-" + Decimal(n), after, 0 - n, now, parseTime);
  }

  lemma {:induction false} MinusEnds(n: nat)
    ensures var d := "-" + Decimal(n); !Space(d[0]) && !Space(d[|d| - 1])
  {
    DecimalEnds(n);
  }

  /** A sign in front of a positive number changes nothing. */
  lemma {:induction false} PlusSeconds(n: nat, before: string, after: string, now: int, parseTime: string -> Option<int>)
    requires Blank(before) && Blank(after)
    requires n <= MAX_INT64
    ensures Parse([before + ("+" + Decimal(n)) + after], now, parseTime) == Parse([before + Decimal(n) + after], now, parseTime)
  {
    var d := "+" + Decimal(n);
    assert d[0] == '+' && d[1..] == Decimal(n);
    DecimalEnds(n);
    DigitsOfDecimal(n);
    ParsePadded(before, d, after, n, now, parseTime);
    PlainDecimal(n);
    ParsePadded(before, Decimal(n), after, n, now, parseTime);
  }

  predicate AllDigits(s: string) {
    forall i | 0 <= i < |s| :: '0' <= s[i] <= '9'
  }

  lemma {:induction false} DigitsSome(s: string)
    ensures Digits(s).Some? <==> s != [] && AllDigits(s)
  {
    if |s| > 1 {
      var n := |s| - 1;
      DigitsSome(s[..n]);
      assert AllDigits(s) <==> AllDigits(s[..n]) && '0' <= s[n] <= '9';
    }
  }

  /** A number: digits, with at most one sign in front. */
  predicate Numeral(s: string) {
    var digits := if s != [] && (s[0] == '-' || s[0] == '+') then s[1..] else s;
    digits != [] && AllDigits(digits)
  }

  /** Text that is neither a number nor a date is not honoured. */
  lemma {:induction false} OtherTextRefused(text: string, now: int, parseTime: string -> Option<int>)
    requires !Numeral(TrimSpace(text)) && parseTime(TrimSpace(text)).None?
    ensures Parse([text], now, parseTime) == Breaker.RetryAfter(0, false)
  {
    var t := TrimSpace(text);
    DigitsSome(if t != [] && (t[0] == '-' || t[0] == '+') then t[1..] else t);
  }
}
