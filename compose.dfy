/** Composition of the 1080x1350 news card: the date stamp of `getDateString`
    (script.js:38-44), the two compose paths `composeTemplate` (script.js:87-128)
    and `composeTemplateFallback` (script.js:131-183), and the choice between
    them in `generateTemplate` (script.js:50-84). Pixels are not modelled; a
    card is the geometry and text the paths would draw. */
module Compose {
  import opened HeadlineFit

  datatype Option<T> = None | Some(value: T)

  // ---------------------------------------------------------------------
  // Decimal text

  predicate IsDigit(c: char) { '0' <= c <= '9' }

  predicate AllDigits(s: string) { forall k :: 0 <= k < |s| ==> IsDigit(s[k]) }

  function DigitChar(d: nat): (c: char)
    requires d < 10
    ensures IsDigit(c)
  {
    ('0' as int + d) as char
  }

  function DigitValue(c: char): nat
    requires IsDigit(c)
  {
    c as int - '0' as int
  }

  /** `String(n)` for a non-negative integer: its decimal digits, without
      leading zeros. */
  function DecimalString(n: nat): (s: string)
    ensures |s| >= 1 && AllDigits(s)
    ensures |s| > 1 ==> s[0] != '0'
    decreases n
  {
    if n < 10 then [DigitChar(n)]
    else DecimalString(n / 10) + [DigitChar(n % 10)]
  }

  /** The number a string of decimal digits denotes. */
  function DecimalValue(s: string): nat
    requires AllDigits(s)
    decreases |s|
  {
    if |s| == 0 then 0
    else 10 * DecimalValue(s[..|s| - 1]) + DigitValue(s[|s| - 1])
  }

  lemma {:induction false} DecimalRoundTrip(n: nat)
    ensures DecimalValue(DecimalString(n)) == n
    ensures n < 10 ==> |DecimalString(n)| == 1
    ensures n < 100 ==> |DecimalString(n)| <= 2
    decreases n
  {
    if n >= 10 {
      DecimalRoundTrip(n / 10);
      var s := DecimalString(n);
      assert s[..|s| - 1] == DecimalString(n / 10);
    }
  }

  lemma {:induction false} LeadingZero(s: string)
    requires AllDigits(s)
    ensures AllDigits("0" + s) && DecimalValue("0" + s) == DecimalValue(s)
    decreases |s|
  {
    var t := "0" + s;
    if |s| > 0 {
      var init := s[..|s| - 1];
      LeadingZero(init);
      assert t[..|t| - 1] == "0" + init;
    } else {
      assert t[..|t| - 1] == [];
    }
  }

  /** `s.padStart(2, '0')` */
  function PadStart2(s: string): string
  {
    if |s| >= 2 then s else seq(2 - |s|, _ => '0') + s
  }

  lemma PadStart2Value(s: string)
    requires AllDigits(s)
    ensures |PadStart2(s)| == if |s| >= 2 then |s| else 2
    ensures AllDigits(PadStart2(s)) && DecimalValue(PadStart2(s)) == DecimalValue(s)
  {
    if |s| == 1 {
      LeadingZero(s);
      assert PadStart2(s) == "0" + s;
    } else if |s| == 0 {
      LeadingZero("0");
      assert PadStart2(s) == "0" + "0";
    }
  }

  /** `String(year)`: a minus sign before the digits of a negative year. */
  function YearString(year: int): string
  {
    if year < 0 then "-" + DecimalString(-year) else DecimalString(year)
  }

  /** What `new Date()` contributes: `getFullYear()`, `getMonth()` (0-based)
      and `getDate()`. */
  datatype CalendarDate = CalendarDate(year: int, monthIndex: nat, day: nat)

  /** `getDateString()` on the given date: `MM/DD/YYYY`. */
  function GetDateString(date: CalendarDate): string
  {
    PadStart2(DecimalString(date.monthIndex + 1)) + "/" + PadStart2(DecimalString(date.day)) + "/"
      + YearString(date.year)
  }

  /** With one- or two-digit month and day, the date string is two digits of
      the 1-based month, a slash, two digits of the day, a slash and the year,
      and each field reads back as the number it was made from. */
  lemma DateStringFields(date: CalendarDate)
    requires date.monthIndex + 1 < 100 && date.day < 100
    ensures var s := GetDateString(date);
      |s| >= 7 && s[2] == '/' && s[5] == '/' &&
      AllDigits(s[..2]) && DecimalValue(s[..2]) == date.monthIndex + 1 &&
      AllDigits(s[3..5]) && DecimalValue(s[3..5]) == date.day &&
      s[6..] == YearString(date.year)
  {
    var month, day := DecimalString(date.monthIndex + 1), DecimalString(date.day);
    DecimalRoundTrip(date.monthIndex + 1);
    DecimalRoundTrip(date.day);
    PadStart2Value(month);
    PadStart2Value(day);
    var m, d, y := PadStart2(month), PadStart2(day), YearString(date.year);
    assert |m| == 2 && |d| == 2;
    assert GetDateString(date) == m + "/" + d + "/" + y;
    FieldsAt(m, d, y);
  }

  /** Where the fields of `m/d/y` sit when the first two are two characters long. */
  lemma FieldsAt(m: string, d: string, y: string)
    requires |m| == 2 && |d| == 2
    ensures var s := m + "/" + d + "/" + y;
      |s| >= 6 && s[2] == '/' && s[5] == '/' && s[..2] == m && s[3..5] == d && s[6..] == y
  {
    var s := m + "/" + d + "/" + y;
    assert s[..2] == m;
    assert s[3..5] == d;
    assert s[6..] == y;
  }

  /** The year field reads back as the year, with a sign when it is negative. */
  lemma YearStringValue(year: int)
    ensures year >= 0 ==> AllDigits(YearString(year)) && DecimalValue(YearString(year)) == year
    ensures year < 0 ==>
      (YearString(year)[0] == '-' && AllDigits(YearString(year)[1..]) &&
       DecimalValue(YearString(year)[1..]) == -year)
  {
    if year >= 0 {
      DecimalRoundTrip(year);
    } else {
      DecimalRoundTrip(-year);
      assert YearString(year)[1..] == DecimalString(-year);
    }
  }

  // ---------------------------------------------------------------------
  // String.prototype.trim

  /** The characters `trim` removes: ECMAScript white space and line terminators. */
  const WhiteSpace: set<char> :=
    {'\t', '\n', '\U{000B}', '\U{000C}', '\r', ' ', '\U{00A0}', '\U{1680}',
     '\U{2000}', '\U{2001}', '\U{2002}', '\U{2003}', '\U{2004}', '\U{2005}',
     '\U{2006}', '\U{2007}', '\U{2008}', '\U{2009}', '\U{200A}',
     '\U{2028}', '\U{2029}', '\U{202F}', '\U{205F}', '\U{3000}', '\U{FEFF}'}

  predicate IsTrimmable(c: char)
  {
    c in WhiteSpace
  }

  /** `s.trimStart()` */
  function TrimStart(s: string): (r: string)
    ensures |r| <= |s|
    decreases |s|
  {
    if |s| > 0 && IsTrimmable(s[0]) then TrimStart(s[1..]) else s
  }

  /** `s.trimEnd()` */
  function TrimEnd(s: string): (r: string)
    ensures |r| <= |s|
    decreases |s|
  {
    if |s| > 0 && IsTrimmable(s[|s| - 1]) then TrimEnd(s[..|s| - 1]) else s
  }

  /** `s.trim()` */
  function Trim(s: string): string
  {
    TrimEnd(TrimStart(s))
  }

  /** Trimming the start keeps a suffix of `s` that does not begin with white
      space, and what it drops is all white space. */
  lemma {:induction false} TrimStartShape(s: string)
    ensures var r := TrimStart(s);
      |r| <= |s| && r == s[|s| - |r|..] &&
      (r == [] || !IsTrimmable(r[0])) &&
      forall k :: 0 <= k < |s| - |r| ==> IsTrimmable(s[k])
    decreases |s|
  {
    if |s| > 0 && IsTrimmable(s[0]) {
      var tail := s[1..];
      TrimStartShape(tail);
      var r := TrimStart(tail);
      assert tail[|tail| - |r|..] == s[|s| - |r|..];
      forall k | 0 <= k < |s| - |r| ensures IsTrimmable(s[k]) {
        if k > 0 {
          assert s[k] == tail[k - 1];
        }
      }
    }
  }

  /** Trimming the end keeps a prefix of `s` that does not end with white
      space, and what it drops is all white space. */
  lemma {:induction false} TrimEndShape(s: string)
    ensures var r := TrimEnd(s);
      |r| <= |s| && r == s[..|r|] &&
      (r == [] || !IsTrimmable(r[|r| - 1])) &&
      forall k :: |r| <= k < |s| ==> IsTrimmable(s[k])
    decreases |s|
  {
    if |s| > 0 && IsTrimmable(s[|s| - 1]) {
      var init := s[..|s| - 1];
      TrimEndShape(init);
      var r := TrimEnd(init);
      assert init[..|r|] == s[..|r|];
      forall k | |r| <= k < |s| ensures IsTrimmable(s[k]) {
        if k < |s| - 1 {
          assert s[k] == init[k];
        }
      }
    }
  }

  /** `trim` keeps one contiguous run of `s`, neither end of which is white
      space, and drops only white space around it. */
  lemma TrimShape(s: string)
    ensures var r, i := Trim(s), |s| - |TrimStart(s)|;
      i + |r| <= |s| && r == s[i..i + |r|] &&
      (r == [] || (!IsTrimmable(r[0]) && !IsTrimmable(r[|r| - 1]))) &&
      (forall k :: 0 <= k < i ==> IsTrimmable(s[k])) &&
      (forall k :: i + |r| <= k < |s| ==> IsTrimmable(s[k]))
  {
    var t := TrimStart(s);
    var r := TrimEnd(t);
    assert Trim(s) == r;
    TrimStartShape(s);
    TrimEndShape(t);
    TrimComposed(s, t, r);
  }

  /** Trimming the start and then the end of what is left keeps a run of `s`
      with white space dropped on both sides. */
  lemma TrimComposed(s: string, t: string, r: string)
    requires |t| <= |s| && t == s[|s| - |t|..]
    requires t == [] || !IsTrimmable(t[0])
    requires forall k :: 0 <= k < |s| - |t| ==> IsTrimmable(s[k])
    requires |r| <= |t| && r == t[..|r|]
    requires r == [] || !IsTrimmable(r[|r| - 1])
    requires forall k :: |r| <= k < |t| ==> IsTrimmable(t[k])
    ensures var i := |s| - |t|;
      i + |r| <= |s| && r == s[i..i + |r|] &&
      (r == [] || (!IsTrimmable(r[0]) && !IsTrimmable(r[|r| - 1]))) &&
      (forall k :: 0 <= k < i ==> IsTrimmable(s[k])) &&
      (forall k :: i + |r| <= k < |s| ==> IsTrimmable(s[k]))
  {
    var i := |s| - |t|;
    if r != [] {
      assert r[0] == t[0];
    }
    forall k | i + |r| <= k < |s| ensures IsTrimmable(s[k]) {
      assert s[k] == t[k - i];
    }
  }

  lemma TrimIdempotent(s: string)
    ensures Trim(Trim(s)) == Trim(s)
  {
    var r := Trim(s);
    TrimShape(s);
    assert TrimStart(r) == r;
    assert TrimEnd(r) == r;
  }

  // ---------------------------------------------------------------------
  // The card

  /** Both compose paths draw on a canvas of this size. */
  const CanvasWidth: nat := 1080
  const CanvasHeight: nat := 1350

  datatype Rect = Rect(left: int, top: int, width: int, height: int)

  /** The white date box, the font size of the date, the date text, and the
      point its right edge and vertical middle are anchored at. */
  datatype DateStamp = DateStamp(box: Rect, fontSize: int, text: string, textRight: int, textMiddle: real)

  /** The fetched template image, or the fallback's flat background with its
      header bar and footer bar. */
  datatype Background = TemplateImage | SolidFallback(header: Rect, footer: Rect)

  datatype Card = Card(
    width: nat,
    height: nat,
    background: Background,
    date: DateStamp,
    headline: HeadlineLayout)

  /** The date box of script.js:106-109 and script.js:162-165. */
  function DateBox(canvasWidth: nat, canvasHeight: nat): Rect
  {
    Rect(Round(52.0 * ScaleX(canvasWidth)), Round(200.0 * ScaleY(canvasHeight)),
         Round(220.0 * ScaleX(canvasWidth)), Round(60.0 * ScaleY(canvasHeight)))
  }

  /** The date stamp both paths draw: the box, `Math.round(32 * scaleX)`, the
      date string, right-aligned 10 pixels inside the box and vertically centred. */
  function DateStampOf(canvasWidth: nat, canvasHeight: nat, date: CalendarDate): DateStamp
  {
    var box := DateBox(canvasWidth, canvasHeight);
    DateStamp(box, Round(32.0 * ScaleX(canvasWidth)), GetDateString(date),
              box.left + box.width - 10, box.top as real + box.height as real / 2.0)
  }

  /** The fallback's header bar (0, 0, width, 150) and footer bar (the bottom 135 pixels). */
  function FallbackBackground(canvasWidth: nat, canvasHeight: nat): Background
  {
    SolidFallback(Rect(0, 0, canvasWidth, 150), Rect(0, canvasHeight - 135, canvasWidth, 135))
  }

  /** The date box is non-empty and lies inside any canvas on which its
      rounded width and height are not zero. */
  lemma DateBoxInsideCanvas(canvasWidth: nat, canvasHeight: nat)
    requires canvasWidth >= 3 && canvasHeight >= 9
    ensures var box := DateBox(canvasWidth, canvasHeight);
      0 <= box.left && 0 < box.width && box.left + box.width <= canvasWidth &&
      0 <= box.top && 0 < box.height && box.top + box.height <= canvasHeight
  {
  }

  /** On the 1080x1350 canvas: a 258x81 box at (61, 270), a 38-pixel date,
      anchored at x = 309 and y = 310.5. */
  lemma InstagramDateStamp(date: CalendarDate)
    ensures var stamp := DateStampOf(CanvasWidth, CanvasHeight, date);
      stamp.box == Rect(61, 270, 258, 81) && stamp.fontSize == 38 &&
      stamp.textRight == 309 && stamp.textMiddle == 310.5
  {
  }

  /** The card drawn over `background`. */
  function CardOf(background: Background, headline: string, date: CalendarDate): Card
  {
    InstagramCanvasConstants(0);
    Card(CanvasWidth, CanvasHeight, background, DateStampOf(CanvasWidth, CanvasHeight, date),
         HeadlineLayoutOf(headline, CanvasWidth, CanvasHeight))
  }

  /** `composeTemplate(templateImg, headline)` on the given date. */
  method ComposeTemplate(headline: string, date: CalendarDate) returns (card: Card)
    ensures card == CardOf(TemplateImage, headline, date)
  {
    var canvasWidth, canvasHeight := CanvasWidth, CanvasHeight;
    var dateStamp := DateStampOf(canvasWidth, canvasHeight, date);
    InstagramCanvasConstants(0);
    var layout := DrawHeadlineTextScaled(headline, canvasWidth, canvasHeight);
    card := Card(canvasWidth, canvasHeight, TemplateImage, dateStamp, layout);
  }

  /** `composeTemplateFallback(headline)` on the given date. */
  method ComposeTemplateFallback(headline: string, date: CalendarDate) returns (card: Card)
    ensures card == CardOf(FallbackBackground(CanvasWidth, CanvasHeight), headline, date)
  {
    var canvasWidth, canvasHeight := CanvasWidth, CanvasHeight;
    var background := FallbackBackground(canvasWidth, canvasHeight);
    var dateStamp := DateStampOf(canvasWidth, canvasHeight, date);
    InstagramCanvasConstants(0);
    var layout := DrawHeadlineTextScaled(headline, canvasWidth, canvasHeight);
    card := Card(canvasWidth, canvasHeight, background, dateStamp, layout);
  }

  /** How the template request ended: the image loaded (`onload`), it did not
      decode (`onerror`), or the fetch itself failed (`catch`). */
  datatype TemplateFetch = TemplateLoaded | TemplateDecodeFailed | TemplateFetchFailed

  /** `generateTemplate()` with the input's value, today's date and the outcome
      of the template request as parameters. Blank input composes nothing;
      otherwise the card's date stamp and headline are the same whatever the
      request did, and only the background tells the outcomes apart. */
  method GenerateTemplate(input: string, date: CalendarDate, fetch: TemplateFetch) returns (card: Option<Card>)
    ensures card.None? <==> Trim(input) == ""
    ensures card.Some? ==>
      card.value.width == CanvasWidth && card.value.height == CanvasHeight &&
      card.value.date == DateStampOf(CanvasWidth, CanvasHeight, date) &&
      card.value.headline == HeadlineLayoutOf(Trim(input), CanvasWidth, CanvasHeight)
    ensures card.Some? ==>
      (card.value.background == TemplateImage <==> fetch == TemplateLoaded)
    ensures card.Some? ==>
      card.value == CardOf(if fetch == TemplateLoaded then TemplateImage else FallbackBackground(CanvasWidth, CanvasHeight),
                           Trim(input), date)
  {
    var headline := Trim(input);
    if headline == "" {
      return None;
    }
    var composed: Card;
    match fetch {
      case TemplateLoaded =>
        composed := ComposeTemplate(headline, date);
      case TemplateDecodeFailed =>
        composed := ComposeTemplateFallback(headline, date);
      case TemplateFetchFailed =>
        composed := ComposeTemplateFallback(headline, date);
    }
    card := Some(composed);
  }
}
