/** The duration printer and parser of group_manager.py, on strings. */
module Duration {
  import opened Common
  import opened Text

  // ---------------------------------------------------------------- the words

  const ROOZ: string := "\U{0631}\U{0648}\U{0632}"                        // day
  const SAAT: string := "\U{0633}\U{0627}\U{0639}\U{062A}"                // hour
  const DAGHIGHE: string := "\U{062F}\U{0642}\U{06CC}\U{0642}\U{0647}"    // minute
  const SANIYE: string := "\U{062B}\U{0627}\U{0646}\U{06CC}\U{0647}"      // second
  const HAMISHE: string := "\U{0647}\U{0645}\U{06CC}\U{0634}\U{0647}"     // always

  datatype Unit = Day | Hour | Minute | Second

  function Word(u: Unit): string {
    match u
    case Day => ROOZ
    case Hour => SAAT
    case Minute => DAGHIGHE
    case Second => SANIYE
  }

  function Seconds(u: Unit): nat {
    match u
    case Day => 86400
    case Hour => 3600
    case Minute => 60
    case Second => 1
  }

  // ---------------------------------------------------------------- decimal numbers

  predicate IsDigit(c: char) { '0' <= c <= '9' }

  /** The number a string of digits stands for. */
  function Number(s: string): nat
    requires forall i :: 0 <= i < |s| ==> IsDigit(s[i])
  {
    if s == "" then 0
    else
      assert IsDigit(s[|s| - 1]);
      10 * Number(s[..|s| - 1]) + (s[|s| - 1] as int - '0' as int)
  }

  lemma {:induction false} DecimalIsNumber(n: nat)
    ensures Decimal(n) != "" && forall i :: 0 <= i < |Decimal(n)| ==> IsDigit(Decimal(n)[i])
    ensures Number(Decimal(n)) == n
  {
    if n < 10 {
      assert [Digit(n)][..0] == "";
    } else {
      DecimalIsNumber(n / 10);
      var s := Decimal(n);
      assert s[..|s| - 1] == Decimal(n / 10);
    }
  }

  // ---------------------------------------------------------------- printing

  datatype Amount = Amount(count: int, unit: Unit)

  function Part(count: int, unit: Unit): seq<Amount> { if count != 0 then [Amount(count, unit)] else [] }

  /** What is printed: the non-zero amounts, without seconds when there are days. */
  function Amounts(sec: int): seq<Amount> {
    var d, r := sec / 86400, sec % 86400;
    var h, q := r / 3600, r % 3600;
    var m, s := q / 60, q % 60;
    Part(d, Day) + Part(h, Hour) + Part(m, Minute) + Part(if d == 0 then s else 0, Second)
  }

  function Phrase(a: Amount): string {
    Str(a.count) + Word(a.unit)
  }

  function Join(amounts: seq<Amount>): string {
    if amounts == [] then ""
    else if |amounts| == 1 then Phrase(amounts[0])
    else Phrase(amounts[0]) + " " + Join(amounts[1..])
  }

  /** fmt_duration. */
  function Format(sec: int): string {
    var s := Join(Amounts(sec));
    if s == "" then HAMISHE else s
  }

  // ---------------------------------------------------------------- parsing

  function LowerChar(c: char): char { if 'A' <= c <= 'Z' then c - 'A' + 'a' else c }

  function Lower(s: string): string { seq(|s|, i requires 0 <= i < |s| => LowerChar(s[i])) }

  function SkipDigits(s: string): (r: string)
    ensures |r| <= |s| && r == s[|s| - |r|..]
    ensures forall i :: 0 <= i < |s| - |r| ==> IsDigit(s[i])
    ensures s != "" && IsDigit(s[0]) ==> |r| < |s|
  {
    if s != "" && IsDigit(s[0]) then SkipDigits(s[1..]) else s
  }

  /** The unit at the front of s, with its length; the alternatives in their order. */
  function UnitAt(s: string): (r: Option<(nat, nat)>)
    ensures r.Some? ==> r.value.1 <= |s|
  {
    if s == "" then None
    else
      var c := s[0];
      if c == 's' || c == SANIYE[0] then Some((1, 1))
      else if c == 'm' || c == DAGHIGHE[0] then Some((60, 1))
      else if c == 'h' || c == SAAT[0] then Some((3600, 1))
      else if c == 'd' then Some((86400, 1))
      else if ROOZ <= s then Some((86400, 3))
      else if c == 'w' || c == HAMISHE[0] then Some((604800, 1))
      else None
  }

  /** A match of the pattern: the digits, and the seconds in one of its unit. */
  datatype Match = Match(number: nat, seconds: nat)

  /**
   * The matches of digits, spaces, unit, leftmost first.  No unit starts with a digit or a space, so a
   * match never gives any back: when the unit is missing the search goes on one character further.
   */
  function FindAll(s: string): seq<Match>
    decreases |s|
  {
    if s == "" then []
    else if !IsDigit(s[0]) then FindAll(s[1..])
    else
      var rest := SkipDigits(s);
      var tail := SkipSpaces(rest);
      match UnitAt(tail)
      case None => FindAll(s[1..])
      case Some((seconds, len)) => [Match(Number(s[..|s| - |rest|]), seconds)] + FindAll(tail[len..])
  }

  function SumMatches(ms: seq<Match>): nat {
    if ms == [] then 0 else ms[0].number * ms[0].seconds + SumMatches(ms[1..])
  }

  /** int(text) for an optional sign and decimal digits, with spaces around. */
  function PlainInt(text: string): Option<int> { SignedInt(Strip(text)) }

  function SignedInt(s: string): Option<int> {
    if s != "" && s[0] == '-' then
      var n := DigitsInt(s[1..]);
      if n.Some? then Some(0 - n.value) else None
    else if s != "" && s[0] == '+' then DigitsInt(s[1..])
    else DigitsInt(s)
  }

  function DigitsInt(s: string): Option<int> {
    if s == "" || SkipDigits(s) != "" then None else Some(Number(s))
  }

  /** parse_duration. */
  function Parse(text: string): Option<int> {
    if text == "" then None
    else
      var ms := FindAll(Lower(text));
      if ms == [] then
        var n := PlainInt(text);
        if n.Some? && n.value > 0 then n else None
      else if SumMatches(ms) > 0 then Some(SumMatches(ms)) else None
  }

  /** The accumulating loop of parse_duration. */
  method ParseDuration(text: string) returns (r: Option<int>)
    ensures r == Parse(text)
  {
    if text == "" {
      return None;
    }
    var total: int := 0;
    var found := false;
    var ms := FindAll(Lower(text));
    var i := 0;
    while i < |ms|
      invariant 0 <= i <= |ms|
      invariant total + SumMatches(ms[i..]) == SumMatches(ms)
      invariant found == (i > 0)
    {
      assert ms[i..][0] == ms[i] && ms[i..][1..] == ms[i + 1..];
      total := total + ms[i].number * ms[i].seconds;
      found := true;
      i := i + 1;
    }
    assert ms[i..] == [];
    if !found {
      var n := PlainInt(text);
      if n.None? {
        return None;
      }
      total := n.value;
    }
    r := if total > 0 then Some(total) else None;
  }

  // ---------------------------------------------------------------- printing, then parsing

  lemma {:induction false} SkipDigitsOf(d: string, rest: string)
    requires forall i :: 0 <= i < |d| ==> IsDigit(d[i])
    requires rest == "" || !IsDigit(rest[0])
    ensures SkipDigits(d + rest) == rest
  {
    if d == "" {
      assert d + rest == rest;
    } else {
      assert (d + rest)[1..] == d[1..] + rest;
      SkipDigitsOf(d[1..], rest);
    }
  }

  lemma {:induction false} LettersAreSkipped(w: string, rest: string)
    requires forall i :: 0 <= i < |w| ==> !IsDigit(w[i])
    ensures FindAll(w + rest) == FindAll(rest)
  {
    if w == "" {
      assert w + rest == rest;
    } else {
      assert (w + rest)[1..] == w[1..] + rest;
      LettersAreSkipped(w[1..], rest);
    }
  }

  /** How many characters of a unit's word the pattern takes. */
  function Taken(u: Unit): nat { if u.Day? then 3 else 1 }

  lemma UnitIsRecognised(u: Unit, rest: string)
    ensures UnitAt(Word(u) + rest) == Some((Seconds(u), Taken(u)))
    ensures SkipSpaces(Word(u) + rest) == Word(u) + rest && !IsDigit((Word(u) + rest)[0])
    ensures (Word(u) + rest)[Taken(u)..] == Word(u)[Taken(u)..] + rest
    ensures forall i :: Taken(u) <= i < |Word(u)| ==> !IsDigit(Word(u)[i])
  {
    var s := Word(u) + rest;
    assert s[0] == Word(u)[0];
    LettersAreNoSpaces(s[0]);
    if u.Day? {
      assert s[..3] == ROOZ;
    }
  }

  /** The definition of FindAll, for a string that starts with a digit. */
  lemma FindAllUnfolds(s: string)
    requires s != "" && IsDigit(s[0])
    ensures var rest := SkipDigits(s);
            var tail := SkipSpaces(rest);
            FindAll(s) == match UnitAt(tail)
                          case None => FindAll(s[1..])
                          case Some((seconds, len)) =>
                            [Match(Number(s[..|s| - |rest|]), seconds)] + FindAll(tail[len..])
  {
  }

  lemma MatchAtFront(s: string, rest: string, seconds: nat, len: nat)
    requires s != "" && IsDigit(s[0]) && SkipDigits(s) == rest && SkipSpaces(rest) == rest
    requires UnitAt(rest) == Some((seconds, len))
    ensures FindAll(s) == [Match(Number(s[..|s| - |rest|]), seconds)] + FindAll(rest[len..])
  {
    FindAllUnfolds(s);
  }

  /** Digits and a unit are one match. */
  lemma DigitsThenUnit(d: string, t: string, seconds: nat, len: nat)
    requires d != "" && (forall i :: 0 <= i < |d| ==> IsDigit(d[i])) && t != "" && !IsDigit(t[0])
    requires SkipSpaces(t) == t && UnitAt(t) == Some((seconds, len))
    ensures FindAll(d + t) == [Match(Number(d), seconds)] + FindAll(t[len..])
  {
    var s := d + t;
    SkipDigitsOf(d, t);
    assert s[0] == d[0];
    assert s[..|s| - |t|] == d;
    MatchAtFront(s, t, seconds, len);
  }

  lemma PhraseInParts(a: Amount, rest: string)
    requires a.count >= 0
    ensures Phrase(a) + rest == Decimal(a.count) + (Word(a.unit) + rest)
  {
    assert Phrase(a) == Decimal(a.count) + Word(a.unit);
  }

  /** One printed amount is one match, and what follows it is searched as if it stood alone. */
  lemma AmountIsOneMatch(a: Amount, rest: string)
    requires a.count >= 0
    ensures FindAll(Phrase(a) + rest) == [Match(a.count, Seconds(a.unit))] + FindAll(rest)
  {
    var w := Word(a.unit);
    DecimalIsNumber(a.count);
    UnitIsRecognised(a.unit, rest);
    PhraseInParts(a, rest);
    DigitsThenUnit(Decimal(a.count), w + rest, Seconds(a.unit), Taken(a.unit));
    LettersAreSkipped(w[Taken(a.unit)..], rest);
  }

  function Worth(amounts: seq<Amount>): int {
    if amounts == [] then 0 else amounts[0].count * Seconds(amounts[0].unit) + Worth(amounts[1..])
  }

  lemma {:induction false} JoinedIsWorth(amounts: seq<Amount>)
    requires forall i :: 0 <= i < |amounts| ==> amounts[i].count >= 0
    ensures SumMatches(FindAll(Join(amounts))) == Worth(amounts)
    ensures amounts != [] ==> FindAll(Join(amounts)) != []
  {
    if |amounts| == 1 {
      AmountIsOneMatch(amounts[0], "");
      assert Phrase(amounts[0]) + "" == Phrase(amounts[0]);
    } else if |amounts| > 1 {
      var rest := " " + Join(amounts[1..]);
      AmountIsOneMatch(amounts[0], rest);
      LettersAreSkipped(" ", Join(amounts[1..]));
      JoinedIsWorth(amounts[1..]);
      assert Join(amounts) == Phrase(amounts[0]) + rest;
      var ms := FindAll(Join(amounts));
      assert ms[1..] == FindAll(rest);
    }
  }

  // ---------------------------------------------------------------- what can be written

  /** The units that can be written, in either case, and their seconds. */
  predicate IsUnit(w: string, seconds: nat) {
    || (|w| == 1 && IsUnitLetter(w[0], seconds))
    || (w == "\U{0631}\U{0648}\U{0632}" && seconds == 86400)
  }

  predicate IsUnitLetter(c: char, seconds: nat) {
    || (c in {'s', 'S', '\U{062B}'} && seconds == 1)
    || (c in {'m', 'M', '\U{062F}'} && seconds == 60)
    || (c in {'h', 'H', '\U{0633}'} && seconds == 3600)
    || (c in {'d', 'D'} && seconds == 86400)
    || (c in {'w', 'W', '\U{0647}'} && seconds == 604800)
  }

  predicate NoDigits(s: string) { forall i :: 0 <= i < |s| ==> !IsDigit(s[i]) }

  /** A count, spaces, a unit of so many seconds, and anything but digits. */
  datatype Term = Term(count: nat, gap: string, unit: string, seconds: nat, after: string)
  {
    predicate Good() { AllSpaces(gap) && IsUnit(unit, seconds) && NoDigits(after) }

    function Written(): string { Decimal(count) + (gap + (unit + after)) }
  }

  ghost predicate AllGood(ts: seq<Term>) { forall i :: 0 <= i < |ts| ==> ts[i].Good() }

  function TextOf(ts: seq<Term>): string { if ts == [] then "" else ts[0].Written() + TextOf(ts[1..]) }

  function TermsWorth(ts: seq<Term>): nat {
    if ts == [] then 0 else ts[0].count * ts[0].seconds + TermsWorth(ts[1..])
  }

  lemma LowerConcat(a: string, b: string)
    ensures Lower(a + b) == Lower(a) + Lower(b)
  {
  }

  /** Capitals, digits and the Latin unit letters are no spaces. */
  lemma AsciiIsNoSpace(c: char)
    requires '0' <= c <= 'z'
    ensures !IsSpace(c)
  {
    NotInRanges(c, SPACES);
  }

  lemma LowerKeepsSpaces(gap: string)
    requires AllSpaces(gap)
    ensures Lower(gap) == gap && NoDigits(gap)
  {
    forall i | 0 <= i < |gap| ensures LowerChar(gap[i]) == gap[i] && !IsDigit(gap[i]) {
      if '0' <= gap[i] <= 'z' {
        AsciiIsNoSpace(gap[i]);
      }
    }
  }

  lemma LowerKeepsDigits(d: string)
    requires forall i :: 0 <= i < |d| ==> IsDigit(d[i])
    ensures Lower(d) == d
  {
  }

  lemma {:induction false} SkipSpacesOf(gap: string, t: string)
    requires AllSpaces(gap) && (t == "" || !IsSpace(t[0]))
    ensures SkipSpaces(gap + t) == t
  {
    if gap == "" {
      assert gap + t == t;
    } else {
      assert (gap + t)[1..] == gap[1..] + t;
      SkipSpacesOf(gap[1..], t);
    }
  }

  lemma LetterIsRead(c: char, seconds: nat, s: string)
    requires IsUnitLetter(c, seconds) && s != "" && s[0] == LowerChar(c)
    ensures UnitAt(s) == Some((seconds, 1)) && !IsDigit(s[0])
    ensures 'a' <= s[0] <= 'z' || '\U{600}' <= s[0] <= '\U{6FF}'
  {
  }

  /** A unit in lower case is what the pattern looks for. */
  lemma UnitIsRead(w: string, seconds: nat, rest: string)
    requires IsUnit(w, seconds)
    ensures w != "" && UnitAt(Lower(w) + rest) == Some((seconds, |w|))
    ensures !IsSpace(Lower(w)[0]) && !IsDigit(Lower(w)[0])
  {
    if |w| == 1 {
      LetterIsRead(w[0], seconds, Lower(w) + rest);
      if Lower(w)[0] <= 'z' {
        AsciiIsNoSpace(Lower(w)[0]);
      } else {
        LettersAreNoSpaces(Lower(w)[0]);
      }
    } else {
      assert Lower(w) == ROOZ == Word(Day);
      UnitIsRecognised(Day, rest);
      LettersAreNoSpaces(ROOZ[0]);
    }
  }

  lemma FindAllAtDigit(d: string, gap: string, t: string, seconds: nat, len: nat)
    requires d != "" && (forall i :: 0 <= i < |d| ==> IsDigit(d[i]))
    requires AllSpaces(gap) && NoDigits(gap) && t != "" && !IsSpace(t[0]) && !IsDigit(t[0])
    requires UnitAt(t) == Some((seconds, len))
    ensures FindAll(d + (gap + t)) == [Match(Number(d), seconds)] + FindAll(t[len..])
  {
    var s := d + (gap + t);
    SkipDigitsOf(d, gap + t);
    SkipSpacesOf(gap, t);
    assert s[0] == d[0];
    assert s[..|s| - |gap + t|] == d;
    FindAllUnfolds(s);
  }

  lemma RegroupFive(d: string, g: string, u: string, a: string, rest: string)
    ensures d + (g + (u + a)) + rest == d + (g + (u + (a + rest)))
  {
    Regroup(u, a, rest);
    Regroup(g, u + a, rest);
    Regroup(d, g + (u + a), rest);
  }

  lemma LowerWritten(t: Term)
    requires t.Good()
    ensures Lower(t.Written()) == Decimal(t.count) + (t.gap + (Lower(t.unit) + Lower(t.after)))
  {
    DecimalIsNumber(t.count);
    LowerKeepsDigits(Decimal(t.count));
    LowerKeepsSpaces(t.gap);
    LowerConcat(Decimal(t.count), t.gap + (t.unit + t.after));
    LowerConcat(t.gap, t.unit + t.after);
    LowerConcat(t.unit, t.after);
  }

  lemma CountAndUnit(d: string, gap: string, u: string, after: string, rest: string, seconds: nat)
    requires d != "" && (forall i :: 0 <= i < |d| ==> IsDigit(d[i])) && AllSpaces(gap) && NoDigits(gap)
    requires u != "" && !IsSpace(u[0]) && !IsDigit(u[0]) && UnitAt(u + (after + rest)) == Some((seconds, |u|))
    requires NoDigits(after)
    ensures FindAll(d + (gap + (u + after)) + rest) == [Match(Number(d), seconds)] + FindAll(rest)
  {
    var tail := after + rest;
    RegroupFive(d, gap, u, after, rest);
    assert (u + tail)[0] == u[0] && (u + tail)[|u|..] == tail;
    FindAllAtDigit(d, gap, u + tail, seconds, |u|);
    LettersAreSkipped(after, rest);
  }

  lemma TermIsOneMatch(t: Term, rest: string)
    requires t.Good()
    ensures FindAll(Lower(t.Written()) + rest) == [Match(t.count, t.seconds)] + FindAll(rest)
  {
    DecimalIsNumber(t.count);
    LowerKeepsSpaces(t.gap);
    LowerWritten(t);
    UnitIsRead(t.unit, t.seconds, Lower(t.after) + rest);
    CountAndUnit(Decimal(t.count), t.gap, Lower(t.unit), Lower(t.after), rest, t.seconds);
  }

  lemma {:induction false} TermsAreMatches(ts: seq<Term>)
    requires AllGood(ts)
    ensures |FindAll(Lower(TextOf(ts)))| == |ts| && SumMatches(FindAll(Lower(TextOf(ts)))) == TermsWorth(ts)
  {
    if ts != [] {
      LowerConcat(ts[0].Written(), TextOf(ts[1..]));
      TermIsOneMatch(ts[0], Lower(TextOf(ts[1..])));
      TermsAreMatches(ts[1..]);
      assert FindAll(Lower(TextOf(ts)))[1..] == FindAll(Lower(TextOf(ts[1..])));
    }
  }

  /**
   * Any counts with units after them, in either script and case, with spaces between and anything but digits
   * around, are worth the sum of count times unit.
   */
  lemma ParseWritten(before: string, ts: seq<Term>)
    requires NoDigits(before) && AllGood(ts) && ts != []
    ensures Parse(before + TextOf(ts)) == if TermsWorth(ts) > 0 then Some(TermsWorth(ts)) else None
  {
    TermsAreMatches(ts);
    LowerConcat(before, TextOf(ts));
    LettersAreSkipped(Lower(before), Lower(TextOf(ts)));
    DecimalIsNumber(ts[0].count);
    assert TextOf(ts) != "";
  }

  lemma {:induction false} DigitsHaveNoMatch(d: string)
    requires forall i :: 0 <= i < |d| ==> IsDigit(d[i])
    ensures FindAll(d) == []
  {
    if d != "" {
      SkipDigitsOf(d, "");
      assert d + "" == d;
      FindAllUnfolds(d);
      DigitsHaveNoMatch(d[1..]);
    }
  }

  lemma TightIsStripped(s: string)
    requires s != "" && !IsSpace(s[0]) && !IsSpace(s[|s| - 1])
    ensures Strip(s) == s
  {
  }

  lemma StripKeepsDigits(d: string)
    requires d != "" && (forall i :: 0 <= i < |d| ==> IsDigit(d[i]))
    ensures Strip(d) == d
  {
    AsciiIsNoSpace(d[0]);
    AsciiIsNoSpace(d[|d| - 1]);
    TightIsStripped(d);
  }

  lemma DigitsAreAll(d: string)
    requires forall i :: 0 <= i < |d| ==> IsDigit(d[i])
    ensures SkipDigits(d) == ""
  {
    SkipDigitsOf(d, "");
    assert d + "" == d;
  }

  lemma DigitIsNoSign(c: char)
    requires IsDigit(c)
    ensures c != '-' && c != '+'
  {
  }

  lemma PlainIsSigned(text: string)
    requires Strip(text) == text != ""
    ensures PlainInt(text) == SignedInt(text)
  {
  }

  lemma SignedDigits(d: string)
    requires d != "" && d[0] != '-' && d[0] != '+'
    ensures SignedInt(d) == DigitsInt(d)
  {
  }

  lemma PlainDigits(d: string)
    requires d != "" && (forall i :: 0 <= i < |d| ==> IsDigit(d[i]))
    ensures PlainInt(d) == DigitsInt(d)
  {
    StripKeepsDigits(d);
    PlainIsSigned(d);
    DigitIsNoSign(d[0]);
    SignedDigits(d);
  }

  lemma DigitsAreNumber(d: string)
    requires d != "" && (forall i :: 0 <= i < |d| ==> IsDigit(d[i]))
    ensures DigitsInt(d) == Some(Number(d))
  {
    DigitsAreAll(d);
  }

  lemma ParsePlain(text: string)
    requires text != "" && FindAll(Lower(text)) == []
    ensures Parse(text) == var n := PlainInt(text); if n.Some? && n.value > 0 then n else None
  {
  }

  /** A number without a unit is that many seconds. */
  lemma ParseNumber(n: nat)
    ensures Parse(Decimal(n)) == if n > 0 then Some(n) else None
  {
    var d := Decimal(n);
    DecimalIsNumber(n);
    LowerKeepsDigits(d);
    DigitsHaveNoMatch(d);
    PlainDigits(d);
    DigitsAreNumber(d);
    ParsePlain(d);
  }

  /** The four amounts of a duration. */
  ghost predicate Clock(n: nat, d: nat, h: nat, m: nat, s: nat) {
    n == 86400 * d + 3600 * h + 60 * m + s && h < 24 && m < 60 && s < 60
  }

  lemma ClockIsUnique(n: nat, d: nat, h: nat, m: nat, s: nat)
    requires Clock(n, d, h, m, s)
    ensures n / 86400 == d && n % 86400 / 3600 == h && n % 86400 % 3600 / 60 == m && n % 86400 % 3600 % 60 == s
  {
    var r := 3600 * h + 60 * m + s;
    assert n / 86400 == d && n % 86400 == r;
    var q := 60 * m + s;
    assert r / 3600 == h && r % 3600 == q;
  }

  /** What is printed: days, hours, minutes, and seconds only below a day, each if it is not zero. */
  lemma PrintedIs(n: nat, d: nat, h: nat, m: nat, s: nat)
    requires Clock(n, d, h, m, s)
    ensures Amounts(n) == (if d > 0 then [Amount(d, Day)] else []) + (if h > 0 then [Amount(h, Hour)] else [])
                        + (if m > 0 then [Amount(m, Minute)] else [])
                        + (if s > 0 && d == 0 then [Amount(s, Second)] else [])
    ensures Amounts(n) == [] ==> Format(n) == HAMISHE
  {
    ClockIsUnique(n, d, h, m, s);
  }

  lemma SmallDecimals()
    ensures Str(1) == "1" && Str(30) == "30"
  {
    assert Decimal(30) == Decimal(3) + [Digit(0)];
  }

  /** One day, one hour, one minute and one second: the words, the spaces, and the seconds left out. */
  lemma PrintedSample()
    ensures Format(90061)
         == "1\U{0631}\U{0648}\U{0632}" + " " + ("1\U{0633}\U{0627}\U{0639}\U{062A}"
            + " " + "1\U{062F}\U{0642}\U{06CC}\U{0642}\U{0647}")
  {
    var day, hour, minute := Amount(1, Day), Amount(1, Hour), Amount(1, Minute);
    SmallDecimals();
    PrintedIs(90061, 1, 1, 1, 1);
    assert Amounts(90061) == [day, hour, minute];
    assert [day, hour, minute][1..] == [hour, minute] && [hour, minute][1..] == [minute];
  }

  lemma PrintedSeconds()
    ensures Format(30) == "30" + "\U{062B}\U{0627}\U{0646}\U{06CC}\U{0647}"
  {
    SmallDecimals();
    PrintedIs(30, 0, 0, 0, 30);
    assert Amounts(30) == [Amount(30, Second)];
  }

  predicate NoCapitals(s: string) { forall i :: 0 <= i < |s| ==> !('A' <= s[i] <= 'Z') }

  lemma TextHasNoCapitals(a: Amount)
    requires a.count >= 0
    ensures NoCapitals(Phrase(a))
  {
    DecimalIsNumber(a.count);
  }

  lemma {:induction false} JoinHasNoCapitals(amounts: seq<Amount>)
    requires forall i :: 0 <= i < |amounts| ==> amounts[i].count >= 0
    ensures NoCapitals(Join(amounts))
  {
    if amounts != [] {
      TextHasNoCapitals(amounts[0]);
      JoinHasNoCapitals(amounts[1..]);
    }
  }

  lemma LowerChangesNothing(s: string)
    requires NoCapitals(s)
    ensures Lower(s) == s
  {
  }

  lemma PartIsWorth(count: int, unit: Unit)
    ensures Worth(Part(count, unit)) == count * Seconds(unit)
    ensures count > 0 ==> Part(count, unit) != []
  {
  }

  lemma PartsAreWorth(d: int, h: int, m: int, s: int)
    ensures Worth(Part(d, Day) + Part(h, Hour) + Part(m, Minute) + Part(s, Second)) == 86400 * d + 3600 * h + 60 * m + s
  {
    WorthConcat(Part(d, Day) + Part(h, Hour) + Part(m, Minute), Part(s, Second));
    WorthConcat(Part(d, Day) + Part(h, Hour), Part(m, Minute));
    WorthConcat(Part(d, Day), Part(h, Hour));
    PartIsWorth(d, Day);
    PartIsWorth(h, Hour);
    PartIsWorth(m, Minute);
    PartIsWorth(s, Second);
  }

  lemma PartsOf(n: int)
    requires n > 0
    ensures var d, r := n / 86400, n % 86400;
            var h, q := r / 3600, r % 3600;
            var m, s := q / 60, q % 60;
            && n == 86400 * d + 3600 * h + 60 * m + s && n % 60 == s
            && d >= 0 && h >= 0 && m >= 0 && s >= 0 && (d == 0 <==> n < 86400)
  {
  }

  lemma AmountsAreWorth(n: int)
    requires n > 0
    ensures Worth(Amounts(n)) == if n < 86400 then n else n - n % 60
    ensures Amounts(n) != [] && forall i :: 0 <= i < |Amounts(n)| ==> Amounts(n)[i].count >= 0
  {
    PartsOf(n);
    var d, r := n / 86400, n % 86400;
    var h, q := r / 3600, r % 3600;
    var m, s := q / 60, q % 60;
    PartsAreWorth(d, h, m, if d == 0 then s else 0);
  }

  lemma {:induction false} WorthConcat(xs: seq<Amount>, ys: seq<Amount>)
    ensures Worth(xs + ys) == Worth(xs) + Worth(ys)
  {
    if xs == [] {
      assert xs + ys == ys;
    } else {
      assert (xs + ys)[1..] == xs[1..] + ys;
      WorthConcat(xs[1..], ys);
    }
  }

  /** Parsing a printed duration gives it back, but for the seconds when it is a day or more. */
  lemma ParsePrinted(n: int)
    requires n > 0
    ensures Parse(Format(n)) == Some(if n < 86400 then n else n - n % 60)
  {
    var amounts := Amounts(n);
    AmountsAreWorth(n);
    JoinedIsWorth(amounts);
    JoinHasNoCapitals(amounts);
    LowerChangesNothing(Join(amounts));
    assert Join(amounts) != "";
  }

  /** Exactly which durations survive printing and parsing. */
  lemma RoundTripIff(n: int)
    ensures Parse(Format(n)) == Some(n) <==> n > 0 && (n < 86400 || n % 60 == 0)
  {
    if n > 0 {
      ParsePrinted(n);
    }
  }
}
