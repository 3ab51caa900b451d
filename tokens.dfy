/** The launch-date logic of lib/tokens.ts: the table of tracked tokens, the
    ticker to upstream-id lookup, the resolution of a launch-date text to
    epoch seconds, and its snapping to a day bucket. The clock is the
    parameter `now` (epoch milliseconds); `Date.parse` is the parameter
    `parse`, which gives the calendar date it reads or `None` for `NaN`. */
module Tokens {
  import opened Wrappers
  import opened Text
  import Calendar

  datatype TokenInfo = TokenInfo(name: string, ticker: string, startDate: string, hasToken: bool, category: string)

  /** `tokenList`, in source order. */
  const TokenList: seq<TokenInfo> := [
    TokenInfo("Aptos", "APT", "March 21, 2025", true, "L0/L1"),
    TokenInfo("Berachain", "BERA", "December 2024", true, "L0/L1"),
    TokenInfo("Injective", "INJ", "June 3, 2025", true, "L0/L1"),
    TokenInfo("Kaia", "KAIA", "April 8, 2025", true, "L0/L1"),
    TokenInfo("MANTRA", "OM", "April 8, 2025", true, "L0/L1"),
    TokenInfo("Movement", "MOVE", "January 6, 2025", true, "L0/L1"),
    TokenInfo("Near", "NEAR", "May 27, 2025", true, "L0/L1"),
    TokenInfo("PEAQ", "PEAQ", "June 18, 2025", true, "L0/L1"),
    TokenInfo("Polkadot", "DOT", "February 13, 2025", true, "L0/L1"),
    TokenInfo("Sei", "SEI", "January 8, 2025", true, "L0/L1"),
    TokenInfo("Sonic", "S", "June 27, 2025", true, "L0/L1"),
    TokenInfo("Story", "STORY", "January 7, 2025", true, "L0/L1"),
    TokenInfo("XION", "XION", "November 28, 2025", true, "L0/L1"),
    TokenInfo("CreatorBid", "BID", "June 13, 2025", true, "AI Agents"),
    TokenInfo("Newton", "NEWT", "May 17, 2025", true, "AI Agents"),
    TokenInfo("Virtuals Protocol", "VIRTUAL", "May 13, 2025", true, "AI Agents"),
    TokenInfo("Warden Protocol", "WARD", "June 18, 2025", true, "AI Agents"),
    TokenInfo("Wayfinder", "PROMPT", "April 4, 2025", true, "AI Agents"),
    TokenInfo("ANIME", "ANIME", "January 9, 2025", true, "Culture"),
    TokenInfo("Boop", "BOOP", "May 1, 2025", true, "Culture"),
    TokenInfo("PENGU", "PENGU", "May 5, 2025", true, "Culture"),
    TokenInfo("Corn", "CORN", "December 2024", true, "BTCFi"),
    TokenInfo("GOAT Network", "GOATED", "June 17, 2025", true, "BTCFi"),
    TokenInfo("Arbitrum", "ARB", "May 27, 2025", true, "L2"),
    TokenInfo("Katana", "KAT", "June 10, 2025", true, "L2"),
    TokenInfo("Mantle", "MNT", "May 18, 2025", true, "L2"),
    TokenInfo("Polygon", "MATIC", "July 29, 2025", true, "L2"),
    TokenInfo("SOON", "SOON", "May 12, 2025", true, "L2"),
    TokenInfo("Falcon Finance", "FF", "August 5, 2025", true, "DeFi"),
    TokenInfo("Frax", "FRAX", "Early 2025", true, "DeFi"),
    TokenInfo("Huma", "HUMA", "May 19, 2025", true, "DeFi"),
    TokenInfo("Orderly", "ORDER", "June 24, 2025", true, "DeFi"),
    TokenInfo("Pyth", "PYTH", "March 11, 2025", true, "DeFi"),
    TokenInfo("Starknet", "STRK", "Early 2025", true, "ZK"),
    TokenInfo("Zcash", "ZEC", "June 6, 2025", true, "ZK"),
    TokenInfo("Humanity Protocol", "H", "May 28, 2025", true, "Others"),
    TokenInfo("dYdX", "DYDX", "May 14, 2025", true, "Exchange"),
    TokenInfo("Kaito", "KAITO", "December 2024", true, "AI"),
    TokenInfo("IQ", "IQ", "April 9, 2025", true, "AI"),
    TokenInfo("UXLINK", "UXLINK", "June 12, 2025", true, "AI"),
    TokenInfo("Defi App", "DEFI", "March 4, 2025", true, "Consumer"),
    TokenInfo("MapleStory Universe", "NXPC", "May 13, 2025", true, "Consumer"),
    TokenInfo("Sophon", "SOPH", "March 31, 2025", true, "Consumer"),
    TokenInfo("Initia", "INIT", "March 27, 2025", true, "Interop"),
    TokenInfo("Skate", "SKATE", "February 25, 2025", true, "Interop")
  ]

  /** The `tickerMap` of `getCoinIdFromTicker`: upper-case ticker to upstream id. */
  function TickerId(key: string): Option<string> {
    match key
    case "APT" => Some("aptos")
    case "BERA" => Some("berachain")
    case "INJ" => Some("injective-protocol")
    case "KAIA" => Some("kaia")
    case "OM" => Some("mantra-dao")
    case "MOVE" => Some("movement")
    case "NEAR" => Some("near")
    case "PEAQ" => Some("peaq")
    case "DOT" => Some("polkadot")
    case "SEI" => Some("sei-network")
    case "S" => Some("sonic")
    case "STORY" => Some("story")
    case "XION" => Some("xion")
    case "BID" => Some("creatorbid")
    case "NEWT" => Some("newton")
    case "VIRTUAL" => Some("virtuals-protocol")
    case "WARD" => Some("warden")
    case "PROMPT" => Some("wayfinder")
    case "ANIME" => Some("anime")
    case "BOOP" => Some("boop")
    case "PENGU" => Some("pengu")
    case "CORN" => Some("corn")
    case "GOATED" => Some("goat-network")
    case "ARB" => Some("arbitrum")
    case "KAT" => Some("katana-inu")
    case "MNT" => Some("mantle")
    case "MATIC" => Some("matic-network")
    case "SOON" => Some("soon")
    case "FF" => Some("falcon-finance")
    case "FRAX" => Some("frax")
    case "HUMA" => Some("huma-finance")
    case "ORDER" => Some("orderly-network")
    case "PYTH" => Some("pyth-network")
    case "STRK" => Some("starknet")
    case "ZEC" => Some("zcash")
    case "H" => Some("humanity-protocol")
    case "DYDX" => Some("dydx")
    case "KAITO" => Some("kaito")
    case "IQ" => Some("everipedia")
    case "UXLINK" => Some("uxlink")
    case "DEFI" => Some("defi-app")
    case "NXPC" => Some("maplestory-universe")
    case "SOPH" => Some("sophon")
    case "INIT" => Some("initia")
    case "SKATE" => Some("skate")
    case _ => None
  }

  /** `getCoinIdFromTicker(ticker)`: the mapped id of the upper-cased ticker,
      or the lower-cased ticker itself when it is not mapped. */
  function CoinIdFromTicker(ticker: string): (id: string)
    ensures TickerId(Upper(ticker)).Some? ==> id == TickerId(Upper(ticker)).value
    ensures TickerId(Upper(ticker)).None? ==> |id| == |ticker| && forall i :: 0 <= i < |id| ==> id[i] == LowerChar(ticker[i])
  {
    match TickerId(Upper(ticker))
    case Some(id) => id
    case None => Lower(ticker)
  }

  /** The lookup ignores the case of ASCII letters, mapped or not. */
  lemma CoinIdIgnoresCase(a: string, b: string)
    requires Upper(a) == Upper(b)
    ensures CoinIdFromTicker(a) == CoinIdFromTicker(b)
  {
    SameUpperSameLower(a, b);
  }

  /** Worked examples: a mapped ticker in any case, and an unmapped one. */
  lemma CoinIdExamples()
    ensures CoinIdFromTicker("apt") == "aptos"
    ensures CoinIdFromTicker("Inj") == "injective-protocol"
    ensures CoinIdFromTicker("Foo") == "foo"
  {
    assert Upper("apt") == "APT";
    assert Upper("Inj") == "INJ";
    assert Upper("Foo") == "FOO";
    assert Lower("Foo") == "foo";
  }

  // ---------------------------------------------------------------------
  // Launch-date resolution (`parseStartDateToTimestamp`, `getDaysFromStartDate`)

  /** A calendar date as `Date.parse` reads it; the month counts from 0. */
  datatype CivilDate = CivilDate(year: int, month: int, day: int)

  /** Midnight UTC of a parsed calendar date, in epoch seconds. */
  function CivilSeconds(d: CivilDate): int {
    Calendar.MakeDay(d.year, d.month, d.day) * Calendar.SecondsPerDay
  }

  /** A resolved launch instant in epoch seconds, or JavaScript's `NaN`. */
  datatype Timestamp = NaN | Epoch(seconds: int)

  const YearMs: int := 365 * 24 * 60 * 60 * 1000

  /** `Math.floor(now / 1000)`. */
  function NowSeconds(now: int): int {
    now / 1000
  }

  /** The fallback `Math.floor((now - 365 days) / 1000)`. */
  function YearAgoSeconds(now: int): int {
    (now - YearMs) / 1000
  }

  /** The fallback lies exactly 365 days of seconds before `NowSeconds(now)`. */
  lemma YearAgoIsAYearBeforeNow(now: int)
    ensures YearAgoSeconds(now) == NowSeconds(now) - 365 * Calendar.SecondsPerDay
  {
  }

  /** The branch a launch-date text takes. */
  datatype DateShape = Vague | MonthYear | Exact

  function LeadingLowerLetters(s: string): (r: string)
    ensures |r| <= |s| && r == s[..|r|]
    ensures forall i :: 0 <= i < |r| ==> IsLowerLetter(r[i])
    ensures |r| == |s| || !IsLowerLetter(s[|r|])
  {
    if s != [] && IsLowerLetter(s[0]) then [s[0]] + LeadingLowerLetters(s[1..]) else []
  }

  predicate AllDigits(s: string) {
    forall i :: 0 <= i < |s| ==> IsDigit(s[i])
  }

  /** `/^[a-z]+\s+\d{4}$/.test(n)`: letters, a run of whitespace, four digits. */
  predicate IsMonthYearText(n: string) {
    var letters := LeadingLowerLetters(n);
    var rest := n[|letters|..];
    var digits := TrimStart(rest);
    |letters| > 0 && |digits| < |rest| && |digits| == 4 && AllDigits(digits)
  }

  /** The month-year test accepts exactly letters, whitespace and four digits. */
  lemma MonthYearTextShape(letters: string, gap: string, digits: string)
    requires |letters| > 0 && forall i :: 0 <= i < |letters| ==> IsLowerLetter(letters[i])
    requires |gap| > 0 && forall i :: 0 <= i < |gap| ==> IsWhitespace(gap[i])
    requires |digits| == 4 && AllDigits(digits)
    ensures IsMonthYearText(letters + gap + digits)
  {
    var n := letters + gap + digits;
    LeadingLettersOf(letters, gap + digits);
    assert n == letters + (gap + digits);
    TrimStartOf(gap, digits);
  }

  /** Conversely, a text that passes the month-year test is lower-case
      letters, then whitespace, then four digits at its end. */
  lemma MonthYearTextParts(n: string)
    requires IsMonthYearText(n)
    ensures var k, m := |LeadingLowerLetters(n)|, |n| - 4;
            0 < k < m
            && (forall i :: 0 <= i < k ==> IsLowerLetter(n[i]))
            && (forall i :: k <= i < m ==> IsWhitespace(n[i]))
            && (forall i :: m <= i < |n| ==> IsDigit(n[i]))
  {
    var k := |LeadingLowerLetters(n)|;
    var rest := n[k..];
    var digits := TrimStart(rest);
    assert digits == n[|n| - 4..];
    forall i | k <= i < |n| - 4 ensures IsWhitespace(n[i]) {
      assert n[i] == rest[i - k];
    }
    forall i | |n| - 4 <= i < |n| ensures IsDigit(n[i]) {
      assert n[i] == digits[i - (|n| - 4)];
    }
  }

  /** Letters and whitespace followed by anything but exactly four digits
      fail the month-year test. */
  lemma NotMonthYearText(letters: string, gap: string, tail: string)
    requires forall i :: 0 <= i < |letters| ==> IsLowerLetter(letters[i])
    requires forall i :: 0 <= i < |gap| ==> IsWhitespace(gap[i])
    requires gap != [] && (tail == [] || !IsWhitespace(tail[0]))
    requires |tail| != 4
    ensures !IsMonthYearText(letters + gap + tail)
  {
    var n := letters + gap + tail;
    assert n == letters + (gap + tail);
    LeadingLettersOf(letters, gap + tail);
    TrimStartOf(gap, tail);
  }

  lemma {:induction false} LeadingLettersOf(letters: string, rest: string)
    requires forall i :: 0 <= i < |letters| ==> IsLowerLetter(letters[i])
    requires rest == [] || !IsLowerLetter(rest[0])
    ensures LeadingLowerLetters(letters + rest) == letters
    decreases |letters|
  {
    if letters != [] {
      assert (letters + rest)[1..] == letters[1..] + rest;
      LeadingLettersOf(letters[1..], rest);
    } else {
      assert letters + rest == rest;
    }
  }

  /** Four decimal digits start at position `i` of `s`. */
  predicate DigitRunAt(s: string, i: int) {
    0 <= i && i + 4 <= |s| && IsDigit(s[i]) && IsDigit(s[i + 1]) && IsDigit(s[i + 2]) && IsDigit(s[i + 3])
  }

  /** The value of the four decimal digits at position `i`. */
  function DigitRunValue(s: string, i: int): (v: int)
    requires DigitRunAt(s, i)
    ensures 0 <= v <= 9999
  {
    1000 * DigitValue(s[i]) + 100 * DigitValue(s[i + 1]) + 10 * DigitValue(s[i + 2]) + DigitValue(s[i + 3])
  }

  /** Where `startDate.match(/\d{4}/)` matches: the leftmost position at which
      four digits start. */
  function FirstDigitRun(s: string, from: nat): (r: Option<nat>)
    requires from <= |s|
    ensures r.Some? ==> from <= r.value && DigitRunAt(s, r.value)
    ensures r.Some? ==> forall i :: from <= i < r.value ==> !DigitRunAt(s, i)
    ensures r.None? ==> forall i :: from <= i ==> !DigitRunAt(s, i)
    decreases |s| - from
  {
    if from + 4 > |s| then None
    else if DigitRunAt(s, from) then Some(from)
    else FirstDigitRun(s, from + 1)
  }

  /** `parseInt(startDate.match(/\d{4}/)[0])`, `None` when nothing matches. */
  function FirstFourDigitYear(s: string): (y: Option<int>)
    ensures y.Some? ==> 0 <= y.value <= 9999
    ensures y.Some? ==> exists i :: DigitRunAt(s, i) && (forall j :: 0 <= j < i ==> !DigitRunAt(s, j))
                                    && y.value == DigitRunValue(s, i)
    ensures y.None? <==> forall i :: 0 <= i ==> !DigitRunAt(s, i)
  {
    match FirstDigitRun(s, 0)
    case Some(i) =>
      assert DigitRunAt(s, i) && (forall j :: 0 <= j < i ==> !DigitRunAt(s, j));
      Some(DigitRunValue(s, i))
    case None => None
  }

  /** The `monthMap` of the manual month-year fallback. */
  function MonthIndex(name: string): Option<int> {
    match name
    case "january" => Some(0)
    case "february" => Some(1)
    case "march" => Some(2)
    case "april" => Some(3)
    case "may" => Some(4)
    case "june" => Some(5)
    case "july" => Some(6)
    case "august" => Some(7)
    case "september" => Some(8)
    case "october" => Some(9)
    case "november" => Some(10)
    case "december" => Some(11)
    case _ => None
  }

  /** `monthMap[name] ?? 0` as a number: an unknown name gives January; the
      names of the object's inherited members `constructor` and `__proto__`
      give a non-nullish non-number, which `Date.UTC` turns into `NaN`. */
  function MonthOf(name: string): (m: Option<int>)
    ensures m.Some? ==> 0 <= m.value < 12
    ensures MonthIndex(name).Some? ==> m == MonthIndex(name)
    ensures MonthIndex(name).None? && name != "constructor" && name != "__proto__" ==> m == Some(0)
    ensures m.None? <==> name == "constructor" || name == "__proto__"
  {
    match MonthIndex(name)
    case Some(m) => Some(m)
    case None => if name == "constructor" || name == "__proto__" then None else Some(0)
  }

  /** The manual fallback of the month-year branch: `split(' ')` of the
      trimmed text, the month from the first part, the year from `parseInt`
      of the second (absent when there is no space), the first of that month. */
  function ManualMonthYear(startDate: string): (t: Timestamp)
    ensures t.NaN? <==> ManualYear(Trim(startDate)).None? || ManualMonth(Trim(startDate)).None?
    ensures t.Epoch? ==> t.seconds % Calendar.SecondsPerDay == 0
    ensures t.Epoch? ==> 0 <= ManualMonth(Trim(startDate)).value < 12
    ensures t.Epoch? ==> t.seconds == Calendar.DateUtcSeconds(ManualYear(Trim(startDate)).value,
                                                              ManualMonth(Trim(startDate)).value, 1)
  {
    var trimmed := Trim(startDate);
    var year := ManualYear(trimmed);
    var month := ManualMonth(trimmed);
    if year.Some? && month.Some? then
      Calendar.DateUtcIsMidnight(year.value, month.value, 1);
      Epoch(Calendar.DateUtcSeconds(year.value, month.value, 1))
    else NaN
  }

  /** `parseInt(parts[1])`, `None` for `NaN` (also when `parts[1]` is `undefined`). */
  function ManualYear(trimmed: string): Option<int> {
    match SecondField(trimmed, ' ')
    case None => None
    case Some(field) => ParseInt(field)
  }

  /** `monthMap[parts[0].toLowerCase()] ?? 0` as a number. */
  function ManualMonth(trimmed: string): Option<int> {
    MonthOf(Lower(FirstField(trimmed, ' ')))
  }

  /** Which branch `parseStartDateToTimestamp` takes: "early" anywhere (in any
      case) wins over the month-year pattern, which wins over an exact date. */
  function ShapeOf(startDate: string): (shape: DateShape)
    ensures shape == Vague <==> Contains(Lower(Trim(startDate)), "early")
    ensures shape == MonthYear <==> !Contains(Lower(Trim(startDate)), "early") && IsMonthYearText(Lower(Trim(startDate)))
    ensures shape == Exact <==> !Contains(Lower(Trim(startDate)), "early") && !IsMonthYearText(Lower(Trim(startDate)))
  {
    var normalized := Lower(Trim(startDate));
    if Contains(normalized, "early") then Vague
    else if IsMonthYearText(normalized) then MonthYear
    else Exact
  }

  /** The branch-assigned `timestamp` before the future-date guard. */
  function BranchTimestamp(startDate: string, now: int, parse: string -> Option<CivilDate>): (t: Timestamp)
    ensures t.NaN? <==> ShapeOf(startDate) == MonthYear && parse(startDate + " 1").None?
                        && ManualMonthYear(startDate).NaN?
    ensures ShapeOf(startDate) == Vague && FirstFourDigitYear(startDate).None? ==> t == Epoch(YearAgoSeconds(now))
  {
    match ShapeOf(startDate)
    case Vague =>
      (match FirstFourDigitYear(startDate)
       case Some(year) => Epoch(Calendar.DateUtcSeconds(year, 0, 1))
       case None => Epoch(YearAgoSeconds(now)))
    case MonthYear =>
      (match parse(startDate + " 1")
       case Some(d) => Epoch(CivilSeconds(d))
       case None => ManualMonthYear(startDate))
    case Exact =>
      (match parse(startDate)
       case Some(d) => Epoch(CivilSeconds(d))
       case None => Epoch(YearAgoSeconds(now)))
  }

  /** `parseStartDateToTimestamp(startDate)` at instant `now`. A numeric result
      is never in the future, a branch's date in the future is replaced by the
      one-year-ago fallback, and `NaN` can only come out of the manual
      month-year fallback, which the guard lets through. */
  function ParseStartDateToTimestamp(startDate: string, now: int, parse: string -> Option<CivilDate>): (t: Timestamp)
    ensures t.Epoch? ==> t.seconds <= NowSeconds(now)
    ensures var b := BranchTimestamp(startDate, now, parse);
            (b.Epoch? && b.seconds <= NowSeconds(now) ==> t == b)
            && (b.Epoch? && b.seconds > NowSeconds(now) ==> t == Epoch(YearAgoSeconds(now)))
    ensures t.NaN? <==> ShapeOf(startDate) == MonthYear && parse(startDate + " 1").None?
                        && ManualMonthYear(startDate).NaN?
  {
    match BranchTimestamp(startDate, now, parse)
    case NaN => NaN
    case Epoch(s) => if s > NowSeconds(now) then Epoch(YearAgoSeconds(now)) else Epoch(s)
  }

  lemma EarlyExampleText()
    ensures Lower(Trim("Early 2025")) == "early 2025"
  {
    var s := "Early 2025";
    assert !IsWhitespace(s[0]) && !IsWhitespace(s[|s| - 1]);
    TrimOfUnpadded(s);
    assert Lower(s) == "early 2025";
  }

  lemma EarlyExampleYear()
    ensures FirstFourDigitYear("Early 2025") == Some(2025)
  {
    var s := "Early 2025";
    assert !DigitRunAt(s, 0) && !DigitRunAt(s, 1) && !DigitRunAt(s, 2);
    assert !DigitRunAt(s, 3) && !DigitRunAt(s, 4) && !DigitRunAt(s, 5);
    assert DigitRunAt(s, 6);
    assert FirstDigitRun(s, 0) == Some(6);
  }

  lemma EarlyExampleIsMonthYear()
    ensures IsMonthYearText("early 2025")
  {
    assert "early 2025" == "early" + " " + "2025";
    MonthYearTextShape("early", " ", "2025");
  }

  lemma EarlyExampleHasEarly()
    ensures Contains("early 2025", "early")
  {
    assert "early 2025" == "early" + " 2025";
    ContainsPrefix("early", " 2025");
  }

  /** "Early 2025" also passes the month-year test, yet the "early" branch is
      taken and gives 2025-01-01T00:00:00Z, whatever `Date.parse` would say. */
  lemma EarlyWinsOverMonthYear(now: int, parse: string -> Option<CivilDate>)
    requires now >= 1735689600000
    ensures IsMonthYearText(Lower(Trim("Early 2025")))
    ensures ShapeOf("Early 2025") == Vague
    ensures ParseStartDateToTimestamp("Early 2025", now, parse) == Epoch(1735689600)
  {
    assert IsMonthYearText(Lower(Trim("Early 2025"))) by {
      EarlyExampleText();
      EarlyExampleIsMonthYear();
    }
    assert ShapeOf("Early 2025") == Vague by {
      EarlyExampleText();
      EarlyExampleHasEarly();
    }
    assert ParseStartDateToTimestamp("Early 2025", now, parse) == Epoch(1735689600) by {
      assert FirstFourDigitYear("Early 2025") == Some(2025) by { EarlyExampleYear(); }
      assert Calendar.DateUtcSeconds(2025, 0, 1) == 1735689600 by { Calendar.NewYear2025(); }
      VagueDateResolution("Early 2025", now, parse);
    }
  }

  /** The value `DigitsValue` gives four digits is the one read at a run. */
  lemma FourDigitsValue(d: string)
    requires |d| == 4 && AllDigits(d)
    ensures DigitRunAt(d, 0) && DigitsValue(d) == DigitRunValue(d, 0)
  {
    assert d[..1][..0] == [];
    assert DigitsValue(d[..1]) == DigitValue(d[0]);
    assert d[..2][..1] == d[..1];
    assert DigitsValue(d[..2]) == 10 * DigitValue(d[0]) + DigitValue(d[1]);
    assert d[..3][..2] == d[..2];
    assert DigitsValue(d[..3]) == 100 * DigitValue(d[0]) + 10 * DigitValue(d[1]) + DigitValue(d[2]);
    assert d[..4][..3] == d[..3] && d[..4] == d;
  }

  /** `parseInt` of four digits is their value. */
  lemma ParseIntOfFourDigits(d: string)
    requires |d| == 4 && AllDigits(d)
    ensures DigitRunAt(d, 0) && ParseInt(d) == Some(DigitRunValue(d, 0))
  {
    FourDigitsValue(d);
    assert TrimStart(d) == d;
    assert LeadingDigits(d) == d by {
      assert LeadingDigits(d[4..]) == [];
      assert LeadingDigits(d[3..]) == [d[3]];
      assert LeadingDigits(d[2..]) == [d[2], d[3]];
      assert LeadingDigits(d[1..]) == [d[1], d[2], d[3]];
    }
  }

  lemma {:induction false} SplitAtFirstSpace(name: string, rest: string)
    requires ' ' !in name
    ensures FirstField(name + " " + rest, ' ') == name
    ensures SecondField(name + " " + rest, ' ') == Some(FirstField(rest, ' '))
  {
    var s := name + " " + rest;
    assert s[|name|] == ' ';
    assert s[..|name|] == name;
    assert s[|name| + 1..] == rest;
  }

  /** With the month name and the year parted by exactly one space, the manual
      fallback gives midnight UTC on the first of the named month (January for
      an unknown name); only the inherited member names give `NaN`. */
  lemma ManualMonthYearSingleSpace(startDate: string, name: string, digits: string)
    requires Trim(startDate) == name + " " + digits
    requires ' ' !in name && |digits| == 4 && AllDigits(digits)
    ensures DigitRunAt(digits, 0)
    ensures MonthOf(Lower(name)).Some? ==>
              ManualMonthYear(startDate) == Epoch(Calendar.DateUtcSeconds(DigitRunValue(digits, 0), MonthOf(Lower(name)).value, 1))
    ensures MonthOf(Lower(name)).None? ==> ManualMonthYear(startDate) == NaN
  {
    ManualPartsSingleSpace(name, digits);
  }

  lemma ManualPartsSingleSpace(name: string, digits: string)
    requires ' ' !in name && |digits| == 4 && AllDigits(digits)
    ensures DigitRunAt(digits, 0)
    ensures ManualYear(name + " " + digits) == Some(DigitRunValue(digits, 0))
    ensures ManualMonth(name + " " + digits) == MonthOf(Lower(name))
  {
    SplitAtFirstSpace(name, digits);
    assert ' ' !in digits by {
      forall i | 0 <= i < |digits| ensures digits[i] != ' ' {
        assert IsDigit(digits[i]);
      }
    }
    assert IndexOf(digits, ' ').None?;
    ParseIntOfFourDigits(digits);
  }

  /** When the gap between month name and year starts with two spaces, the
      second `split(' ')` part is empty, `parseInt` gives `NaN`, and so does
      the fallback. */
  lemma ManualMonthYearDoubleSpace(startDate: string, name: string, rest: string)
    requires Trim(startDate) == name + "  " + rest
    requires ' ' !in name
    ensures ManualMonthYear(startDate) == NaN
  {
    assert name + "  " + rest == name + " " + (" " + rest);
    SplitAtFirstSpace(name, " " + rest);
    assert FirstField(" " + rest, ' ') == [];
    assert TrimStart([]) == [];
  }

  /** When the trimmed text holds no space at all (the gap is a tab, say),
      there is no second part, so the year and the result are `NaN`. */
  lemma ManualMonthYearWithoutSpace(startDate: string)
    requires ' ' !in Trim(startDate)
    ensures ManualMonthYear(startDate) == NaN
  {
  }

  /** The manual fallback of a month-year text that `Date.parse` rejects, with
      the usual single space: the first of that month, unless that lies in
      the future, in which case the one-year-ago fallback. */
  lemma RejectedMonthYearGivesFirstOfMonth(startDate: string, name: string, digits: string,
                                           year: int, month: int, now: int,
                                           parse: string -> Option<CivilDate>)
    requires ShapeOf(startDate) == MonthYear && parse(startDate + " 1").None?
    requires Trim(startDate) == name + " " + digits
    requires ' ' !in name && |digits| == 4 && AllDigits(digits)
    requires DigitRunAt(digits, 0) && DigitRunValue(digits, 0) == year
    requires MonthOf(Lower(name)) == Some(month)
    ensures var first := Calendar.DateUtcSeconds(year, month, 1);
            ParseStartDateToTimestamp(startDate, now, parse)
              == Epoch(if first > NowSeconds(now) then YearAgoSeconds(now) else first)
  {
    ManualMonthYearSingleSpace(startDate, name, digits);
  }

  // Proof helpers of DecemberManualExample and DecemberExampleShape below:
  // facts about the literal "December 2024", each checked on its own.

  lemma DecemberExampleText()
    ensures Trim("December 2024") == "December 2024"
    ensures Lower("December 2024") == "december 2024"
  {
    var s := "December 2024";
    assert !IsWhitespace(s[0]) && !IsWhitespace(s[|s| - 1]);
    TrimOfUnpadded(s);
  }

  lemma DecemberExampleHasNoEarly()
    ensures !Contains("december 2024", "early")
  {
    assert "early"[4] == 'y';
    assert 'y' !in "december 2024";
    NotContainsWithoutChar("december 2024", "early", 4);
  }

  lemma DecemberExampleIsMonthYear()
    ensures IsMonthYearText("december 2024")
  {
    assert "december 2024" == "december" + " " + "2024";
    MonthYearTextShape("december", " ", "2024");
  }

  /** The month-year branch is taken for every text whose trimmed, lowered
      form passes the month-year test and holds no "early". */
  lemma MonthYearShapeOf(startDate: string)
    requires !Contains(Lower(Trim(startDate)), "early")
    requires IsMonthYearText(Lower(Trim(startDate)))
    ensures ShapeOf(startDate) == MonthYear
  {
  }

  lemma DecemberExampleShape()
    ensures ShapeOf("December 2024") == MonthYear
  {
    DecemberExampleText();
    DecemberExampleHasNoEarly();
    DecemberExampleIsMonthYear();
    MonthYearShapeOf("December 2024");
  }

  lemma DecemberExampleSplit()
    ensures Trim("December 2024") == "December" + " " + "2024"
  {
    DecemberExampleText();
  }

  lemma DecemberExampleMonth()
    ensures ' ' !in "December" && MonthOf(Lower("December")) == Some(11)
  {
    assert Lower("December") == "december";
  }

  lemma DecemberExampleProbe()
    ensures "December 2024" + " 1" == "December 2024 1"
  {
  }

  lemma DecemberExampleYear()
    ensures |"2024"| == 4 && AllDigits("2024") && DigitRunAt("2024", 0) && DigitRunValue("2024", 0) == 2024
  {
  }

  /** "December 2024" that `Date.parse` rejects still gives 2024-12-01T00:00:00Z. */
  lemma DecemberManualExample(now: int, parse: string -> Option<CivilDate>)
    requires parse("December 2024 1").None?
    requires now >= 1733011200000
    ensures ParseStartDateToTimestamp("December 2024", now, parse) == Epoch(1733011200)
  {
    assert ShapeOf("December 2024") == MonthYear by { DecemberExampleShape(); }
    assert parse("December 2024" + " 1").None? by { DecemberExampleProbe(); }
    assert Trim("December 2024") == "December" + " " + "2024" by { DecemberExampleSplit(); }
    assert ' ' !in "December" && MonthOf(Lower("December")) == Some(11) by { DecemberExampleMonth(); }
    assert |"2024"| == 4 && AllDigits("2024") && DigitRunAt("2024", 0) && DigitRunValue("2024", 0) == 2024 by {
      DecemberExampleYear();
    }
    assert Calendar.DateUtcSeconds(2024, 11, 1) == 1733011200 by { Calendar.FirstOfDecember2024(); }
    RejectedMonthYearGivesFirstOfMonth("December 2024", "December", "2024", 2024, 11, now, parse);
  }

  /** A text of neither vague nor month-year shape that `Date.parse` reads is
      that day at midnight UTC, unless the day lies in the future. */
  lemma ExactDateAccepted(startDate: string, d: CivilDate, now: int, parse: string -> Option<CivilDate>)
    requires ShapeOf(startDate) == Exact && parse(startDate) == Some(d)
    ensures ParseStartDateToTimestamp(startDate, now, parse)
              == Epoch(if CivilSeconds(d) > NowSeconds(now) then YearAgoSeconds(now) else CivilSeconds(d))
  {
  }

  /** A text of neither vague nor month-year shape that `Date.parse` rejects
      falls back to one year ago. */
  lemma ExactDateRejected(startDate: string, now: int, parse: string -> Option<CivilDate>)
    requires ShapeOf(startDate) == Exact && parse(startDate).None?
    ensures ParseStartDateToTimestamp(startDate, now, parse) == Epoch(YearAgoSeconds(now))
  {
    YearAgoIsAYearBeforeNow(now);
  }

  /** A vague text resolves to January 1 of the first four-digit year in it,
      or to one year ago when it holds none (or that January 1 is still to
      come). */
  lemma VagueDateResolution(startDate: string, now: int, parse: string -> Option<CivilDate>)
    requires ShapeOf(startDate) == Vague
    ensures FirstFourDigitYear(startDate).None? ==>
              ParseStartDateToTimestamp(startDate, now, parse) == Epoch(YearAgoSeconds(now))
    ensures FirstFourDigitYear(startDate).Some? ==>
              var j := Calendar.DateUtcSeconds(FirstFourDigitYear(startDate).value, 0, 1);
              ParseStartDateToTimestamp(startDate, now, parse)
                == Epoch(if j > NowSeconds(now) then YearAgoSeconds(now) else j)
  {
    YearAgoIsAYearBeforeNow(now);
  }

  /** A month-year text that `Date.parse` reads once " 1" is appended is that
      day at midnight UTC, unless the day lies in the future. */
  lemma MonthYearDateAccepted(startDate: string, d: CivilDate, now: int, parse: string -> Option<CivilDate>)
    requires ShapeOf(startDate) == MonthYear && parse(startDate + " 1") == Some(d)
    ensures ParseStartDateToTimestamp(startDate, now, parse)
              == Epoch(if CivilSeconds(d) > NowSeconds(now) then YearAgoSeconds(now) else CivilSeconds(d))
  {
  }

  // Proof helpers of ExactDateExample: facts about the literal "March 21, 2025".

  lemma MarchExampleText()
    ensures Lower(Trim("March 21, 2025")) == "march 21, 2025"
  {
    var s := "March 21, 2025";
    assert !IsWhitespace(s[0]) && !IsWhitespace(s[|s| - 1]);
    TrimOfUnpadded(s);
    MarchExampleLowered();
  }

  lemma MarchExampleLowered()
    ensures Lower("March 21, 2025") == "march 21, 2025"
  {
  }

  lemma MarchExampleHasNoEarly()
    ensures !Contains("march 21, 2025", "early")
  {
    assert "early"[1] == 'a';
    assert "early"[4] == 'y';
    assert 'y' !in "march 21, 2025";
    NotContainsWithoutChar("march 21, 2025", "early", 4);
  }

  lemma MarchExampleIsNotMonthYear()
    ensures !IsMonthYearText("march 21, 2025")
  {
    assert "march 21, 2025" == "march" + " " + "21, 2025";
    NotMonthYearText("march", " ", "21, 2025");
  }

  lemma MarchExampleShape()
    ensures ShapeOf("March 21, 2025") == Exact
  {
    MarchExampleText();
    MarchExampleHasNoEarly();
    MarchExampleIsNotMonthYear();
  }

  /** "March 21, 2025", read by `Date.parse` as that day, gives midnight UTC
      of 2025-03-21 once that day has come. */
  lemma ExactDateExample(now: int, parse: string -> Option<CivilDate>)
    requires parse("March 21, 2025") == Some(CivilDate(2025, 2, 21))
    requires now >= 1742515200000
    ensures ParseStartDateToTimestamp("March 21, 2025", now, parse) == Epoch(1742515200)
  {
    var d := CivilDate(2025, 2, 21);
    assert CivilSeconds(d) == 1742515200 by {
      Calendar.March21Of2025();
      assert CivilSeconds(d) == Calendar.DateUtcSeconds(2025, 2, 21);
    }
    assert 1742515200 <= NowSeconds(now);
    assert ShapeOf("March 21, 2025") == Exact by { MarchExampleShape(); }
    ExactDateAccepted("March 21, 2025", d, now, parse);
  }

  // ---------------------------------------------------------------------
  // Day buckets (`getDaysFromStartDate`)

  /** The day counts the upstream API accepts, in increasing order. */
  const DayBuckets: seq<int> := [1, 7, 14, 30, 90, 180, 365]

  /** The chained `if`s of `getDaysFromStartDate`: 30 for a non-positive count,
      otherwise the smallest bucket holding the count, 365 past the largest. */
  function DayBucket(days: int): (b: int)
    ensures b in DayBuckets
    ensures days <= 0 ==> b == 30
    ensures 0 < days <= 365 ==> days <= b && forall c :: c in DayBuckets && days <= c ==> b <= c
    ensures days > 365 ==> b == 365
  {
    if days <= 0 then 30
    else if days <= 1 then 1
    else if days <= 7 then 7
    else if days <= 14 then 14
    else if days <= 30 then 30
    else if days <= 90 then 90
    else if days <= 180 then 180
    else if days <= 365 then 365
    else 365
  }

  /** `days` is the count for `x` elapsed seconds: 30 when no time has passed,
      otherwise the smallest bucket whose days cover `x`, and 365 once `x`
      exceeds 365 days. */
  predicate CountsElapsed(x: int, days: int) {
    && days in DayBuckets
    && (x <= 0 ==> days == 30)
    && (0 < x <= 365 * Calendar.SecondsPerDay ==>
          x <= Calendar.SecondsPerDay * days
          && forall c :: c in DayBuckets && x <= Calendar.SecondsPerDay * c ==> days <= c)
    && (x > 365 * Calendar.SecondsPerDay ==> days == 365)
  }

  /** `Math.ceil(x / 86400)` for an integer number of seconds `x`. */
  function CeilDays(x: int): (r: int)
    ensures Calendar.SecondsPerDay * (r - 1) < x <= Calendar.SecondsPerDay * r
  {
    (x + Calendar.SecondsPerDay - 1) / Calendar.SecondsPerDay
  }

  /** `getDaysFromStartDate(startDate)`: the launch instant is resolved at
      `nowAtParse`, the day count is taken at `nowAtCount` (the source reads
      the clock twice). A `NaN` instant fails every comparison and gives 365. */
  function GetDaysFromStartDate(startDate: string, nowAtParse: int, nowAtCount: int,
                                parse: string -> Option<CivilDate>): (days: int)
    ensures days in DayBuckets
    ensures ParseStartDateToTimestamp(startDate, nowAtParse, parse).NaN? ==> days == 365
    ensures var t := ParseStartDateToTimestamp(startDate, nowAtParse, parse);
            t.Epoch? ==> CountsElapsed(NowSeconds(nowAtCount) - t.seconds, days)
  {
    DaysSince(ParseStartDateToTimestamp(startDate, nowAtParse, parse), nowAtCount)
  }

  /** The bucketed number of whole-or-partial days from launch instant `t`
      to the clock reading `now`. */
  function DaysSince(t: Timestamp, now: int): (days: int)
    ensures days in DayBuckets
    ensures t.NaN? ==> days == 365
    ensures t.Epoch? ==> CountsElapsed(NowSeconds(now) - t.seconds, days)
  {
    match t
    case NaN => 365
    case Epoch(s) =>
      var x := NowSeconds(now) - s;
      var r := CeilDays(x);
      assert x > 0 ==> r >= 1;
      assert x <= 365 * Calendar.SecondsPerDay ==> r <= 365;
      assert x > 365 * Calendar.SecondsPerDay ==> r > 365;
      DayBucket(r)
  }

  /** A launch resolved to the one-year-ago fallback is counted as 365 days,
      provided the clock has not gone back between the two readings. */
  lemma FallbackCountsAsAYear(nowAtParse: int, nowAtCount: int)
    requires nowAtParse <= nowAtCount
    ensures DaysSince(Epoch(YearAgoSeconds(nowAtParse)), nowAtCount) == 365
  {
    var x := NowSeconds(nowAtCount) - YearAgoSeconds(nowAtParse);
    assert x >= 365 * Calendar.SecondsPerDay;
    assert CeilDays(x) >= 365;
  }

  /** A launch at the very second of counting gives the default 30. */
  lemma LaunchNowCountsAsDefault(now: int)
    ensures DaysSince(Epoch(NowSeconds(now)), now) == 30
  {
  }

  /** One second after launch counts as one day; one full day after a launch
      is still one day, one second later it is a week. */
  lemma DayCountBoundaries(launch: int, now: int)
    ensures NowSeconds(now) == launch + 1 ==> DaysSince(Epoch(launch), now) == 1
    ensures NowSeconds(now) == launch + Calendar.SecondsPerDay ==> DaysSince(Epoch(launch), now) == 1
    ensures NowSeconds(now) == launch + Calendar.SecondsPerDay + 1 ==> DaysSince(Epoch(launch), now) == 7
  {
  }
}
