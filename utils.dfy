/** bot/utils.py: HTML wrapping and escaping, HH:MM display with an hour offset, and
    fixed-width padding. bot/_utils.py holds a verbatim copy of `html_wrapper` and
    `escape_html`; the definitions here model both files. */
module Utils {
  import opened Wrappers
  import opened Text

  /** `shift_time(time, hour_offset, min_offset)`, which is not part of this model; the
      code that calls it takes it as a parameter of this type. */
  type ShiftTime = (string, int, int) -> string

  /** `html_wrapper(text, wrapper)`: a truthy wrapper (neither None nor "") wraps. */
  function HtmlWrapper(text: string, wrapper: Option<string>): (r: string)
    ensures wrapper.Some? && wrapper.value != "" ==>
              r == "<" + wrapper.value + ">" + text + "</" + wrapper.value + ">"
    ensures wrapper.None? || wrapper.value == "" ==> r == text
  {
    if wrapper.Some? && wrapper.value != "" then
      "<" + wrapper.value + ">" + text + "</" + wrapper.value + ">"
    else text
  }

  /** `escape_html(text)`: `<` becomes `&lt;`, then `>` becomes `&gt;`. */
  function EscapeHtml(text: string): string
  {
    ReplaceChar(ReplaceChar(text, '<', "&lt;"), '>', "&gt;")
  }

  /** What one character turns into. */
  function EscapeChar(c: char): string
  {
    if c == '<' then "&lt;" else if c == '>' then "&gt;" else [c]
  }

  /** The character-by-character reading of escaping. */
  function EscapeEach(s: string): string
  {
    if s == [] then "" else EscapeChar(s[0]) + EscapeEach(s[1..])
  }

  /** Escaping acts on each character separately: `&` and every character other than
      `<` and `>` are copied unchanged, in order. */
  lemma {:induction false} EscapeHtmlPerChar(s: string)
    ensures EscapeHtml(s) == EscapeEach(s)
  {
    if s != [] {
      var c, rest := s[0], s[1..];
      assert s == [c] + rest;
      ReplaceCharAppend([c], rest, '<', "&lt;");
      ReplaceCharAppend(ReplaceChar([c], '<', "&lt;"), ReplaceChar(rest, '<', "&lt;"), '>', "&gt;");
      EscapeHtmlPerChar(rest);
      assert ReplaceChar([c], '<', "&lt;") == (if c == '<' then "&lt;" else [c]);
      if c == '<' {
        ReplaceCharAbsent("&lt;", '>', "&gt;");
      }
    }
  }

  /** The output holds neither `<` nor `>`. */
  lemma EscapeHtmlNoBrackets(s: string)
    ensures '<' !in EscapeHtml(s) && '>' !in EscapeHtml(s)
  {
    ReplaceCharRemoves(s, '<', "&lt;");
    ReplaceCharKeepsOut(ReplaceChar(s, '<', "&lt;"), '>', "&gt;", '<');
    ReplaceCharRemoves(ReplaceChar(s, '<', "&lt;"), '>', "&gt;");
  }

  /** Text without `<` and `>` is left as it is. */
  lemma EscapeHtmlIdentity(s: string)
    requires '<' !in s && '>' !in s
    ensures EscapeHtml(s) == s
  {
    ReplaceCharAbsent(s, '<', "&lt;");
    ReplaceCharAbsent(s, '>', "&gt;");
  }

  /** Escaping twice is escaping once. */
  lemma EscapeHtmlIdempotent(s: string)
    ensures EscapeHtml(EscapeHtml(s)) == EscapeHtml(s)
  {
    EscapeHtmlNoBrackets(s);
    EscapeHtmlIdentity(EscapeHtml(s));
  }

  /** `datetime.strptime(s, "%H:%M")`: the hour field is `2[0-3]`, `[0-1]\d` or `\d`
      (tried in that order), the minute field `[0-5]\d` or `\d`, and nothing may follow. */
  function ParseTime(s: string): (r: Option<(int, int)>)
    ensures r.Some? ==> 0 <= r.value.0 < 24 && 0 <= r.value.1 < 60
  {
    var k := if |s| >= 3 && IsDigit(s[0]) && IsDigit(s[1]) && s[2] == ':'
                && (s[0] <= '1' || (s[0] == '2' && s[1] <= '3')) then 2
             else if |s| >= 2 && IsDigit(s[0]) && s[1] == ':' then 1
             else 0;
    if k == 0 then None
    else
      var h := if k == 2 then DigitValue(s[0]) * 10 + DigitValue(s[1]) else DigitValue(s[0]);
      var rest := s[k + 1..];
      if |rest| == 1 && IsDigit(rest[0]) then Some((h, DigitValue(rest[0])))
      else if |rest| == 2 && IsDigit(rest[0]) && rest[0] <= '5' && IsDigit(rest[1]) then
        Some((h, DigitValue(rest[0]) * 10 + DigitValue(rest[1])))
      else None
  }

  /** Two-digit zero-padded decimal, as `strftime` writes `%H` and `%M`. */
  function Pad2(n: int): (r: string)
    requires 0 <= n < 100
    ensures |r| == 2 && IsDigit(r[0]) && IsDigit(r[1])
  {
    [DigitChar(n / 10), DigitChar(n % 10)]
  }

  /** A time written the way `display_time` writes it. */
  function FormatTime(h: int, m: int): (r: string)
    requires 0 <= h < 24 && 0 <= m < 60
    ensures |r| == 5 && r[2] == ':'
  {
    Pad2(h) + ":" + Pad2(m)
  }

  /** Canonical HH:MM text: two digits, a colon, two digits, within the clock's range. */
  predicate Canonical(s: string)
  {
    |s| == 5 && s[2] == ':' && IsDigit(s[0]) && IsDigit(s[1]) && IsDigit(s[3]) && IsDigit(s[4])
    && Hour(s) < 24 && Minute(s) < 60
  }

  function Hour(s: string): int
    requires |s| == 5 && IsDigit(s[0]) && IsDigit(s[1])
  {
    DigitValue(s[0]) * 10 + DigitValue(s[1])
  }

  function Minute(s: string): int
    requires |s| == 5 && IsDigit(s[3]) && IsDigit(s[4])
  {
    DigitValue(s[3]) * 10 + DigitValue(s[4])
  }

  /** `display_time(time_str, offset)`: parse, add `offset` hours (the date part wraps,
      so hours are taken modulo 24), and write HH:MM. An unparsable time is a ValueError. */
  function DisplayTime(t: string, offset: int): Result<string>
  {
    match ParseTime(t)
    case None => Failure(ValueError("time data does not match format '%H:%M'"))
    case Some((h, m)) => Success(FormatTime((h + offset) % 24, m))
  }

  lemma DigitRoundTrip(d: int)
    requires 0 <= d < 10
    ensures DigitValue(DigitChar(d)) == d
  {
  }

  /** What `display_time` writes is canonical and reads back as the shifted hour and the same minute. */
  lemma FormatTimeParses(h: int, m: int)
    requires 0 <= h < 24 && 0 <= m < 60
    ensures Canonical(FormatTime(h, m))
    ensures ParseTime(FormatTime(h, m)) == Some((h, m))
  {
    var r := FormatTime(h, m);
    DigitRoundTrip(h / 10);
    DigitRoundTrip(h % 10);
    DigitRoundTrip(m / 10);
    DigitRoundTrip(m % 10);
    assert Hour(r) == h && Minute(r) == m;
    assert r[0] <= '1' || (r[0] == '2' && r[1] <= '3');
    assert r[3..] == [r[3], r[4]];
  }

  /** A canonical time parses to the hour and minute it spells, and is written back unchanged. */
  lemma CanonicalParses(s: string)
    requires Canonical(s)
    ensures ParseTime(s) == Some((Hour(s), Minute(s)))
    ensures FormatTime(Hour(s), Minute(s)) == s
  {
    assert s[0] <= '1' || (s[0] == '2' && s[1] <= '3');
    assert s[3] <= '5';
    assert s[3..] == [s[3], s[4]];
    var f := FormatTime(Hour(s), Minute(s));
    assert f == s;
  }

  /** `display_time` always yields canonical HH:MM, with the hour moved by `offset`
      modulo 24 and the minutes kept. */
  lemma DisplayTimeShape(t: string, offset: int)
    requires ParseTime(t).Some?
    ensures DisplayTime(t, offset).Success?
    ensures Canonical(DisplayTime(t, offset).value)
    ensures ParseTime(DisplayTime(t, offset).value)
            == Some(((ParseTime(t).value.0 + offset) % 24, ParseTime(t).value.1))
  {
    var (h, m) := ParseTime(t).value;
    FormatTimeParses((h + offset) % 24, m);
  }

  /** Shifting by `a` and then by `b` is shifting by `a + b`; an unparsable time fails either way. */
  lemma DisplayTimeCompose(t: string, a: int, b: int)
    ensures DisplayTime(t, a).Success? <==> DisplayTime(t, a + b).Success?
    ensures DisplayTime(t, a).Success? ==>
              DisplayTime(DisplayTime(t, a).value, b) == DisplayTime(t, a + b)
  {
    if ParseTime(t).Some? {
      var (h, m) := ParseTime(t).value;
      FormatTimeParses((h + a) % 24, m);
      assert ((h + a) % 24 + b) % 24 == (h + (a + b)) % 24;
    }
  }

  /** Offset 0 leaves a canonical time as it is. */
  lemma DisplayTimeZero(t: string)
    requires Canonical(t)
    ensures DisplayTime(t, 0) == Success(t)
  {
    CanonicalParses(t);
  }

  /** `pad(pad_str, original_str, pad_left)`; None for `original_str` returns `pad_str`.
      `x[-n:]` with n = 0 is the whole of x, as Python slices it. */
  function Pad(padStr: string, original: Option<string>, padLeft: bool): (r: string)
    ensures original.None? ==> r == padStr
    ensures original.Some? && padStr != "" ==> |r| == |padStr|
    ensures original.Some? && padStr != "" && padLeft && |original.value| <= |padStr| ==>
              r[|r| - |original.value|..] == original.value
    ensures original.Some? && padStr != "" && !padLeft && |original.value| <= |padStr| ==>
              r[..|original.value|] == original.value
    ensures original.Some? && padStr == "" ==> r == (if padLeft then original.value else "")
  {
    if original.None? then padStr
    else if padLeft then
      var x := padStr + original.value;
      if |padStr| == 0 then x else x[|x| - |padStr|..]
    else
      (original.value + padStr)[..|padStr|]
  }
}
