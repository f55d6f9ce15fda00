// Utils.js: toBool_, ymd_, toMDYString_, parseLooseDate_ and
// _clearDataRows_, with the calendar arithmetic JavaScript's Date does for
// them.
module Utils {
  import opened Wrappers
  import opened Strings
  import opened Cells

  // ------------------------------------------------------------ calendar

  predicate IsLeap(y: int) {
    (y % 4 == 0 && y % 100 != 0) || y % 400 == 0
  }

  function DaysInMonth(y: int, m: int): int
    requires 1 <= m <= 12
  {
    if m == 2 then (if IsLeap(y) then 29 else 28)
    else if m == 4 || m == 6 || m == 9 || m == 11 then 30
    else 31
  }

  predicate ValidDay(d: Day) {
    1 <= d.month <= 12 && 1 <= d.day <= DaysInMonth(d.year, d.month)
  }

  function NextDay(d: Day): (r: Day)
    requires ValidDay(d)
    ensures ValidDay(r)
  {
    if d.day < DaysInMonth(d.year, d.month) then Day(d.year, d.month, d.day + 1)
    else if d.month < 12 then Day(d.year, d.month + 1, 1)
    else Day(d.year + 1, 1, 1)
  }

  function PrevDay(d: Day): (r: Day)
    requires ValidDay(d)
    ensures ValidDay(r)
  {
    if d.day > 1 then Day(d.year, d.month, d.day - 1)
    else if d.month > 1 then Day(d.year, d.month - 1, DaysInMonth(d.year, d.month - 1))
    else Day(d.year - 1, 12, 31)
  }

  lemma NextOfPrev(d: Day)
    requires ValidDay(d)
    ensures NextDay(PrevDay(d)) == d
  {
  }

  /** The day n days after d (before it for negative n). */
  function AddDays(d: Day, n: int): (r: Day)
    requires ValidDay(d)
    ensures ValidDay(r)
    decreases if n >= 0 then n else -n
  {
    if n == 0 then d
    else if n > 0 then NextDay(AddDays(d, n - 1))
    else PrevDay(AddDays(d, n + 1))
  }

  lemma {:induction false} AddDaysSucc(d: Day, n: int)
    requires ValidDay(d)
    ensures AddDays(d, n + 1) == NextDay(AddDays(d, n))
  {
    if n < 0 {
      NextOfPrev(AddDays(d, n + 1));
    }
  }

  lemma {:induction false} AddDaysWithinMonth(y: int, m: int, k: nat)
    requires 1 <= m <= 12 && k < DaysInMonth(y, m)
    ensures AddDays(Day(y, m, 1), k) == Day(y, m, 1 + k)
  {
    if k > 0 {
      AddDaysWithinMonth(y, m, k - 1);
    }
  }

  /** new Date(y, m - 1, d): a year 0..99 means 1900 + y, and a month or
      day out of range rolls over into the neighbouring months. */
  function MakeDate(y: int, m: int, d: int): Day {
    var y1 := if 0 <= y <= 99 then 1900 + y else y;
    var first := Day(y1 + (m - 1) / 12, (m - 1) % 12 + 1, 1);
    AddDays(first, d - 1)
  }

  lemma MakeDateOfValid(d: Day)
    requires ValidDay(d) && !(0 <= d.year <= 99)
    ensures MakeDate(d.year, d.month, d.day) == d
  {
    assert (d.month - 1) / 12 == 0 && (d.month - 1) % 12 + 1 == d.month;
    AddDaysWithinMonth(d.year, d.month, d.day - 1);
  }

  /** Day 0 of the spreadsheet serial-number calendar. */
  const SerialEpoch: Day := Day(1899, 12, 30)

  // ---------------------------------------------------------- formatting

  function Pad2(n: int): string {
    PadZeros(IntToString(n), 2)
  }

  /** Utilities.formatDate(d, tz, 'yyyy-MM-dd'). */
  function FormatYmd(d: Day): string {
    PadZeros(IntToString(d.year), 4) + "-" + Pad2(d.month) + "-" + Pad2(d.day)
  }

  /** ymd_(v): a date formatted as yyyy-MM-dd; anything else as the first
      ten characters of its trimmed text ('' for blank). */
  function Ymd(c: Cell): (r: string)
    ensures c.When? ==> r == FormatYmd(c.date)
    ensures !c.When? ==> |r| <= 10 && StartsWith(CellText(c), r)
    ensures !c.When? ==> (r == "" <==> CellText(c) == "")
  {
    if c.When? then FormatYmd(c.date)
    else
      var s := CellText(c);
      if s == "" then "" else if |s| <= 10 then s else s[..10]
  }

  /** toMDYString_(d): MM/DD/YYYY for a date, '' for anything else. */
  function ToMDY(c: Cell): string {
    if c.When? then MdyText(c.date) else ""
  }

  function MdyText(d: Day): string {
    Pad2(d.month) + "/" + Pad2(d.day) + "/" + IntToString(d.year)
  }

  /** date.toISOString(), with the script's time zone taken as UTC (the
      offset is not modelled). */
  function IsoStamp(d: Day, secs: nat): string {
    FormatYmd(d) + "T" + Pad2((secs / 3600) % 24) + ":" + Pad2((secs / 60) % 60) + ":" + Pad2(secs % 60) + ".000Z"
  }

  // ------------------------------------------------------------- parsing

  /** /^\d{4}-\d{2}-\d{2}$/ */
  predicate IsYmdText(s: string) {
    |s| == 10 && s[4] == '-' && s[7] == '-'
    && AllDigits(s[..4]) && AllDigits(s[5..7]) && AllDigits(s[8..])
  }

  /** /^\d{1,2}\/\d{1,2}\/\d{4}$/ */
  predicate IsMdyText(s: string) {
    var ps := Pieces(s, {'/'});
    |ps| == 3 && 1 <= |ps[0]| <= 2 && 1 <= |ps[1]| <= 2 && |ps[2]| == 4
    && AllDigits(ps[0]) && AllDigits(ps[1]) && AllDigits(ps[2])
  }

  /** parseLooseDate_(v): a date is kept (its day); a number is a serial
      day count from 1899-12-30; yyyy-MM-dd and M/D/yyyy text build a local
      date; blank and any other text give null. The engine's free-form
      Date(text) fallback is not modelled (it gives null here). */
  function ParseLooseDate(c: Cell): Option<Day>
  {
    match c
    case When(d, _) => Some(d)
    case Num(n) => Some(AddDays(SerialEpoch, n))
    case _ =>
      var s := CellText(c);
      if s == "" then None
      else if IsYmdText(s) then
        Some(MakeDate(DigitsValue(s[..4]), DigitsValue(s[5..7]), DigitsValue(s[8..])))
      else if IsMdyText(s) then
        var ps := Pieces(s, {'/'});
        Some(MakeDate(DigitsValue(ps[2]), DigitsValue(ps[0]), DigitsValue(ps[1])))
      else None
  }

  /** ymd_(parseLooseDate_(v) || new Date()): the day a request is about. */
  function RequestDay(c: Cell, today: Day): string
  {
    FormatYmd(ParseLooseDate(c).GetOr(today))
  }

  /** ymd_(parseLooseDate_(v)) with '' for an unparseable value. */
  function DayKey(c: Cell): string
  {
    match ParseLooseDate(c)
    case Some(d) => FormatYmd(d)
    case None => ""
  }

  lemma NatLen4(n: nat)
    requires 1000 <= n <= 9999
    ensures |NatToString(n)| == 4
  {
    assert NatToString(n) == NatToString(n / 10) + [DigitChar(n % 10)];
    assert NatToString(n / 10) == NatToString(n / 100) + [DigitChar((n / 10) % 10)];
    assert NatToString(n / 100) == NatToString(n / 1000) + [DigitChar((n / 100) % 10)];
  }

  lemma NatLenAtMost(n: nat, k: nat)
    requires 1 <= k && n < Pow10(k)
    ensures |NatToString(n)| <= k
  {
    NatToStringLength(n, k);
  }

  lemma Pad2Shape(n: int)
    requires 0 <= n <= 99
    ensures |Pad2(n)| == 2 && AllDigits(Pad2(n)) && DigitsValue(Pad2(n)) == n
  {
    assert Pow10(2) == 100;
    NatLenAtMost(n, 2);
    PaddedValue(n, 2);
  }

  lemma Year4Shape(y: int)
    requires 0 <= y <= 9999
    ensures var t := PadZeros(IntToString(y), 4);
            |t| == 4 && AllDigits(t) && DigitsValue(t) == y
  {
    assert Pow10(4) == 10000;
    NatLenAtMost(y, 4);
    PaddedValue(y, 4);
  }

  lemma FormatYmdShape(d: Day)
    requires ValidDay(d) && 0 <= d.year <= 9999
    ensures IsYmdText(FormatYmd(d))
    ensures var s := FormatYmd(d);
            DigitsValue(s[..4]) == d.year && DigitsValue(s[5..7]) == d.month
            && DigitsValue(s[8..]) == d.day
  {
    Year4Shape(d.year);
    Pad2Shape(d.month);
    Pad2Shape(d.day);
    var s := FormatYmd(d);
    var y4 := PadZeros(IntToString(d.year), 4);
    assert s[..4] == y4;
    assert s[5..7] == Pad2(d.month);
    assert s[8..] == Pad2(d.day);
  }

  /** Reading back a formatted day gives the day: ymd text round-trips
      through parseLooseDate_ (years 100..9999; 0..99 would be read as
      19xx). */
  lemma ParseFormatYmd(d: Day)
    requires ValidDay(d) && 100 <= d.year <= 9999
    ensures ParseLooseDate(Text(FormatYmd(d))) == Some(d)
  {
    var s := FormatYmd(d);
    FormatYmdShape(d);
    FormatYmdTrimmed(d);
    CellTextOfTrimmed(s);
    MakeDateOfValid(d);
  }

  lemma FormatYmdTrimmed(d: Day)
    requires ValidDay(d) && 0 <= d.year <= 9999
    ensures NoEdgeSpace(FormatYmd(d)) && FormatYmd(d) != ""
  {
    FormatYmdShape(d);
    var s := FormatYmd(d);
    assert IsDigit(s[..4][0]) && s[0] == s[..4][0];
    assert IsDigit(s[8..][1]) && s[9] == s[8..][1];
  }

  lemma MdyPieces(a: string, b: string, c: string)
    requires Avoids(a, {'/'}) && Avoids(b, {'/'}) && Avoids(c, {'/'})
    ensures Pieces(a + "/" + b + "/" + c, {'/'}) == [a, b, c]
  {
    var bc := b + (['/'] + c);
    SlashJoin(a, b, c);
    PiecesOfPlain(c, {'/'});
    PiecesAfterFirst(b, c, {'/'}, '/');
    PiecesAfterFirst(a, bc, {'/'}, '/');
  }

  lemma SlashJoin(a: string, b: string, c: string)
    ensures a + "/" + b + "/" + c == a + (['/'] + (b + (['/'] + c)))
  {
  }

  lemma MdyShape(d: Day)
    requires ValidDay(d) && 1000 <= d.year <= 9999
    ensures var s := MdyText(d);
            Pieces(s, {'/'}) == [Pad2(d.month), Pad2(d.day), IntToString(d.year)]
            && IsMdyText(s) && !IsYmdText(s) && NoEdgeSpace(s)
  {
    Pad2Shape(d.month);
    Pad2Shape(d.day);
    NatLen4(d.year);
    MdyOf(Pad2(d.month), Pad2(d.day), IntToString(d.year));
  }

  /** Two two-digit fields and a four-digit one, joined by slashes. */
  lemma MdyOf(m2: string, d2: string, y: string)
    requires |m2| == 2 && |d2| == 2 && |y| == 4 && AllDigits(m2) && AllDigits(d2) && AllDigits(y)
    ensures Pieces(m2 + "/" + d2 + "/" + y, {'/'}) == [m2, d2, y]
    ensures IsMdyText(m2 + "/" + d2 + "/" + y) && !IsYmdText(m2 + "/" + d2 + "/" + y)
    ensures NoEdgeSpace(m2 + "/" + d2 + "/" + y)
  {
    var s := m2 + "/" + d2 + "/" + y;
    MdyPieces(m2, d2, y);
    assert s[4] == d2[1] && s[0] == m2[0] && s[9] == y[3];
  }

  /** toMDYString_ text round-trips through parseLooseDate_ as well
      (four-digit years). */
  lemma ParseMdy(d: Day)
    requires ValidDay(d) && 1000 <= d.year <= 9999
    ensures ParseLooseDate(Text(MdyText(d))) == Some(d)
  {
    var s := MdyText(d);
    MdyShape(d);
    Pad2Shape(d.month);
    Pad2Shape(d.day);
    NatToStringValue(d.year);
    CellTextOfTrimmed(s);
    MakeDateOfValid(d);
  }

  /** Consecutive serial numbers are consecutive days, counted from
      1899-12-30. */
  lemma SerialDays(n: int)
    ensures ParseLooseDate(Num(0)) == Some(SerialEpoch)
    ensures ParseLooseDate(Num(n + 1)) == Some(NextDay(ParseLooseDate(Num(n)).value))
  {
    AddDaysSucc(SerialEpoch, n);
  }

  lemma YmdOfFormatted(d: Day)
    requires ValidDay(d) && 0 <= d.year <= 9999
    ensures Ymd(Text(FormatYmd(d))) == FormatYmd(d)
    ensures Ymd(When(d, 0)) == FormatYmd(d)
  {
    FormatYmdTrimmed(d);
    FormatYmdShape(d);
    CellTextOfTrimmed(FormatYmd(d));
  }

  /** Ymd is stable on its own output when that holds no trailing white
      space: the date keys the scripts write read back as themselves. */
  lemma YmdOfKey(key: string)
    requires |key| <= 10 && NoEdgeSpace(key)
    ensures Ymd(Text(key)) == key
  {
    CellTextOfTrimmed(key);
  }

  // -------------------------------------------------------------- toBool_

  const TrueWords: seq<string> := ["true", "yes", "y", "1", "✓", "done", "complete", "completed"]
  const FalseWords: seq<string> := ["false", "no", "n", "0"]

  /** toBool_(v): true, false or null (unrecognised) from the lower-cased,
      trimmed text of v. */
  function ToBool(c: Cell): Option<bool> {
    BoolWord(ToLower(Trim(StrOf(c))))
  }

  function BoolWord(s: string): Option<bool> {
    if s in TrueWords then Some(true)
    else if s in FalseWords then Some(false)
    else None
  }

  lemma TrimLowerLiteral(s: string)
    requires NoEdgeSpace(s) && forall i :: 0 <= i < |s| ==> !IsUpperAscii(s[i])
    ensures ToLower(Trim(s)) == s
  {
    TrimOfTrimmed(s);
  }

  lemma ToBoolOfFlag(b: bool)
    ensures ToBool(Flag(b)) == Some(b)
  {
    if b {
      assert StrOf(Flag(b)) == "true";
      TrimLowerLiteral("true");
      assert ToLower(Trim("true")) == "true";
    } else {
      assert StrOf(Flag(b)) == "false";
      TrimLowerLiteral("false");
      assert ToLower(Trim("false")) == "false";
    }
  }

  /** A number reads as true when it is 1, as false when it is 0, and as
      null (unrecognised) for every other value. */
  lemma ToBoolOfNum(n: int)
    ensures ToBool(Num(n)) == if n == 1 then Some(true) else if n == 0 then Some(false) else None
  {
    var s := IntToString(n);
    IntToStringShape(n);
    assert StrOf(Num(n)) == s;
    TrimLowerLiteral(s);
    BoolWordOfNumeral(s);
    assert s == "1" <==> n == 1 by {
      if n == 1 { assert s == NatToString(1); }
      if s == "1" && n >= 0 { assert DigitsValue("1") == 1; }
    }
    assert s == "0" <==> n == 0 by {
      if n == 0 { assert s == NatToString(0); }
      if s == "0" && n >= 0 { assert DigitsValue("0") == 0; }
    }
  }

  /** Among the recognised words only "1" and "0" are numerals. */
  lemma BoolWordOfNumeral(s: string)
    requires s != [] && forall i :: 0 <= i < |s| ==> IsDigit(s[i]) || (i == 0 && s[i] == '-')
    ensures BoolWord(s) == if s == "1" then Some(true) else if s == "0" then Some(false) else None
  {
    assert IsDigit(s[0]) || s[0] == '-';
    assert forall w :: w in TrueWords && w != "1" ==> !IsDigit(w[0]) && w[0] != '-';
    assert forall w :: w in FalseWords && w != "0" ==> !IsDigit(w[0]) && w[0] != '-';
  }

  lemma LowerUpper(c: char)
    ensures Lower(Upper(c)) == Lower(c)
  {
  }

  lemma ToLowerToUpper(s: string)
    ensures ToLower(ToUpper(s)) == ToLower(s)
  {
    forall i | 0 <= i < |s| ensures ToLower(ToUpper(s))[i] == ToLower(s)[i] {
      LowerUpper(s[i]);
    }
  }

  lemma LowerTrimIgnoresCaseAndSpace(s: string, p: string, q: string)
    requires AllSpace(p) && AllSpace(q)
    ensures ToLower(Trim(p + ToUpper(s) + q)) == ToLower(Trim(s))
  {
    TrimSpaceAround(p, ToUpper(s), q);
    TrimToUpper(s);
    ToLowerToUpper(Trim(s));
  }

  /** toBool_ ignores letter case and surrounding white space. */
  lemma ToBoolIgnoresCaseAndSpace(s: string, p: string, q: string)
    requires AllSpace(p) && AllSpace(q)
    ensures ToBool(Text(p + ToUpper(s) + q)) == ToBool(Text(s))
  {
    LowerTrimIgnoresCaseAndSpace(s, p, q);
    var k := ToLower(Trim(s));
    assert ToBool(Text(p + ToUpper(s) + q)) == BoolWord(k);
  }

  /** No text reads as both true and false. */
  lemma ToBoolWordsDisjoint()
    ensures forall w :: w in TrueWords ==> w !in FalseWords
  {
  }

  // ------------------------------------------------------ _clearDataRows_

  /** _clearDataRows_(sh): nothing to do with only the header row,
      otherwise rows 2..last are emptied and the header row stays. */
  method ClearDataRows(sh: Sheet)
    requires sh.Valid()
    modifies sh
    ensures sh.Valid() && sh.header == old(sh.header) && sh.data == []
  {
    if sh.LastRow() <= 1 {
      return;
    }
    sh.ClearData();
  }
}
