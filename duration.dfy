/**
 * The rendering of a shift's seconds in the list of recorded shifts:
 * "H hodin M minut S sekund" from one hour on, "M minut S sekund" from one
 * minute on, "S sekund" below that. A parser for the same text is given as
 * the inverse, so that the rendering is shown to lose nothing.
 */
module Duration {
  import opened Wrappers

  /** Whole hours, minutes within the hour, seconds within the minute. */
  datatype Clock = Clock(hours: nat, minutes: nat, seconds: nat)

  /** The hour decomposition the hour form prints (floor division, as `Math.floor`). */
  function ToClock(t: nat): (c: Clock)
    ensures c.minutes < 60 && c.seconds < 60
    ensures c.hours * 3600 + c.minutes * 60 + c.seconds == t
  {
    var c := Clock(t / 3600, (t % 3600) / 60, t % 60);
    ClockParts(t, t / 3600, t % 3600);
    c
  }

  /** The seconds within the hour split into minutes and the seconds within the minute. */
  lemma ClockParts(t: nat, q: nat, r: nat)
    requires t == q * 3600 + r && r < 3600
    ensures r / 60 < 60 && r % 60 == t % 60
    ensures q * 3600 + (r / 60) * 60 + r % 60 == t
  {
    var m, s := r / 60, r % 60;
    assert r == m * 60 + s;
    assert t == (q * 60 + m) * 60 + s;
  }

  predicate IsDigit(ch: char)
  {
    '0' <= ch <= '9'
  }

  predicate AllDigits(s: string)
  {
    forall i :: 0 <= i < |s| ==> IsDigit(s[i])
  }

  function DigitChar(d: nat): (ch: char)
    requires d < 10
    ensures IsDigit(ch) && (ch as int) - ('0' as int) == d
  {
    (('0' as int) + d) as char
  }

  function DigitValue(ch: char): (d: nat)
    requires IsDigit(ch)
    ensures d < 10
  {
    (ch as int) - ('0' as int)
  }

  /** A non-negative integer below 2^53 as a JavaScript template literal renders it: decimal, no leading zero. */
  function Decimal(n: nat): (r: string)
    ensures |r| > 0 && AllDigits(r)
    ensures r[0] == '0' ==> n == 0 && r == "0"
    ensures n == 0 ==> r == "0"
  {
    if n < 10 then [DigitChar(n)] else Decimal(n / 10) + [DigitChar(n % 10)]
  }

  /** The value of a string of decimal digits. */
  function ParseDecimal(s: string): nat
    requires AllDigits(s)
  {
    if |s| == 0 then 0 else ParseDecimal(s[..|s| - 1]) * 10 + DigitValue(s[|s| - 1])
  }

  lemma {:induction false} DecimalRoundTrip(n: nat)
    ensures ParseDecimal(Decimal(n)) == n
  {
    if n >= 10 {
      var r := Decimal(n);
      assert r[..|r| - 1] == Decimal(n / 10);
      DecimalRoundTrip(n / 10);
    }
  }

  /** `s` cut at every space. */
  function Words(s: string): (ws: seq<string>)
    ensures |ws| >= 1
  {
    if |s| == 0 then [""]
    else
      var rest := Words(s[1..]);
      if s[0] == ' ' then [""] + rest else [[s[0]] + rest[0]] + rest[1..]
  }

  lemma {:induction false} WordsOfWord(a: string)
    requires ' ' !in a
    ensures Words(a) == [a]
  {
    if |a| > 0 {
      WordsOfWord(a[1..]);
      assert [a[0]] + a[1..] == a;
    }
  }

  /** A space followed by one more word adds exactly that word at the end. */
  lemma {:induction false} WordsSnoc(x: string, w: string)
    requires ' ' !in w
    ensures Words(x + " " + w) == Words(x) + [w]
  {
    if |x| == 0 {
      assert x + " " + w == [' '] + w;
      WordsOfWord(w);
    } else {
      var s := x + " " + w;
      assert s[0] == x[0];
      assert s[1..] == x[1..] + " " + w;
      WordsSnoc(x[1..], w);
    }
  }

  /** Text followed by " u d", where neither `u` nor `d` holds a space. */
  lemma WordsUnitCount(x: string, unit: string, sep: string, d: string)
    requires ' ' !in unit && ' ' !in d && sep == " " + unit + " "
    ensures Words(x + sep + d) == Words(x) + [unit, d]
  {
    assert x + sep + d == x + " " + unit + " " + d;
    WordsSnoc(x, unit);
    WordsSnoc(x + " " + unit, d);
  }

  /** Text followed by " sekund". */
  lemma WordsSeconds(x: string)
    ensures Words(x + " sekund") == Words(x) + ["sekund"]
  {
    assert x + " sekund" == x + " " + "sekund";
    WordsSnoc(x, "sekund");
  }

  lemma DigitsHaveNoSpace(s: string)
    requires AllDigits(s)
    ensures ' ' !in s
  {
  }

  /** The list entry's time text. */
  function Format(t: nat): (r: string)
    ensures |r| > 7 && r[|r| - 7..] == " sekund"
  {
    if t >= 3600 then
      var c := ToClock(t);
      Decimal(c.hours) + " hodin " + Decimal(c.minutes) + " minut " + Decimal(c.seconds) + " sekund"
    else if t >= 60 then
      Decimal(t / 60) + " minut " + Decimal(t % 60) + " sekund"
    else
      Decimal(t) + " sekund"
  }

  /** A count word: a non-empty run of decimal digits. */
  function ParseCount(w: string): (r: Option<nat>)
    ensures r.Some? <==> |w| > 0 && AllDigits(w)
  {
    if |w| > 0 && AllDigits(w) then Some(ParseDecimal(w)) else None
  }

  /** Reads the three forms `Format` writes back into seconds. */
  function Parse(s: string): Option<nat>
  {
    var ws := Words(s);
    if |ws| == 6 && ws[1] == "hodin" && ws[3] == "minut" && ws[5] == "sekund" &&
       ParseCount(ws[0]).Some? && ParseCount(ws[2]).Some? && ParseCount(ws[4]).Some?
    then
      Some(ParseCount(ws[0]).value * 3600 + ParseCount(ws[2]).value * 60 + ParseCount(ws[4]).value)
    else if |ws| == 4 && ws[1] == "minut" && ws[3] == "sekund" &&
       ParseCount(ws[0]).Some? && ParseCount(ws[2]).Some?
    then
      Some(ParseCount(ws[0]).value * 60 + ParseCount(ws[2]).value)
    else if |ws| == 2 && ws[1] == "sekund" && ParseCount(ws[0]).Some? then
      Some(ParseCount(ws[0]).value)
    else
      None
  }

  /** The words of the hour form. */
  lemma HourFormWords(t: nat)
    requires t >= 3600
    ensures var c := ToClock(t);
      Words(Format(t)) == [Decimal(c.hours), "hodin", Decimal(c.minutes), "minut", Decimal(c.seconds), "sekund"]
  {
    var c := ToClock(t);
    var h, m, s := Decimal(c.hours), Decimal(c.minutes), Decimal(c.seconds);
    DigitsHaveNoSpace(h);
    DigitsHaveNoSpace(m);
    DigitsHaveNoSpace(s);
    WordsOfWord(h);
    WordsUnitCount(h, "hodin", " hodin ", m);
    WordsUnitCount(h + " hodin " + m, "minut", " minut ", s);
    WordsSeconds(h + " hodin " + m + " minut " + s);
  }

  /** The words of the minute form. */
  lemma MinuteFormWords(t: nat)
    requires 60 <= t < 3600
    ensures Words(Format(t)) == [Decimal(t / 60), "minut", Decimal(t % 60), "sekund"]
  {
    var m, s := Decimal(t / 60), Decimal(t % 60);
    DigitsHaveNoSpace(m);
    DigitsHaveNoSpace(s);
    WordsOfWord(m);
    WordsUnitCount(m, "minut", " minut ", s);
    WordsSeconds(m + " minut " + s);
  }

  /** The words of each of the three forms. */
  lemma FormatWords(t: nat)
    ensures t >= 3600 ==>
      var c := ToClock(t);
      Words(Format(t)) == [Decimal(c.hours), "hodin", Decimal(c.minutes), "minut", Decimal(c.seconds), "sekund"]
    ensures 60 <= t < 3600 ==>
      Words(Format(t)) == [Decimal(t / 60), "minut", Decimal(t % 60), "sekund"]
    ensures t < 60 ==>
      Words(Format(t)) == [Decimal(t), "sekund"]
  {
    if t >= 3600 {
      HourFormWords(t);
    } else if t >= 60 {
      MinuteFormWords(t);
    } else {
      DigitsHaveNoSpace(Decimal(t));
      WordsOfWord(Decimal(t));
      WordsSeconds(Decimal(t));
    }
  }

  /** A number's digits are never one of the unit words. */
  lemma CountIsNoUnit(w: string)
    requires |w| > 0 && AllDigits(w)
    ensures w != "hodin" && w != "minut" && w != "sekund"
  {
    assert IsDigit(w[0]);
  }

  /** The text always names its unit of seconds; hours appear iff `t` reaches an hour, minutes iff it reaches a minute. */
  lemma FormatForm(t: nat)
    ensures Words(Format(t))[|Words(Format(t))| - 1] == "sekund"
    ensures "hodin" in Words(Format(t)) <==> t >= 3600
    ensures "minut" in Words(Format(t)) <==> t >= 60
    ensures |Words(Format(t))| == (if t >= 3600 then 6 else if t >= 60 then 4 else 2)
  {
    FormatWords(t);
    if t >= 3600 {
      var c := ToClock(t);
      CountIsNoUnit(Decimal(c.hours));
      CountIsNoUnit(Decimal(c.minutes));
      CountIsNoUnit(Decimal(c.seconds));
    } else if t >= 60 {
      CountIsNoUnit(Decimal(t / 60));
      CountIsNoUnit(Decimal(t % 60));
    } else {
      CountIsNoUnit(Decimal(t));
    }
  }

  /** Rendering loses nothing: the text reads back as the same number of seconds. */
  lemma FormatRoundTrip(t: nat)
    ensures Parse(Format(t)) == Some(t)
  {
    if t >= 3600 {
      HourFormRoundTrip(t);
    } else if t >= 60 {
      MinuteFormRoundTrip(t);
    } else {
      FormatWords(t);
      DecimalRoundTrip(t);
    }
  }

  lemma HourFormRoundTrip(t: nat)
    requires t >= 3600
    ensures Parse(Format(t)) == Some(t)
  {
    var c := ToClock(t);
    HourFormWords(t);
    var ws := Words(Format(t));
    DecimalRoundTrip(c.hours);
    DecimalRoundTrip(c.minutes);
    DecimalRoundTrip(c.seconds);
    assert ParseCount(ws[0]) == Some(c.hours);
    assert ParseCount(ws[2]) == Some(c.minutes);
    assert ParseCount(ws[4]) == Some(c.seconds);
  }

  lemma MinuteFormRoundTrip(t: nat)
    requires 60 <= t < 3600
    ensures Parse(Format(t)) == Some(t)
  {
    MinuteFormWords(t);
    var ws := Words(Format(t));
    DecimalRoundTrip(t / 60);
    DecimalRoundTrip(t % 60);
    assert ParseCount(ws[0]) == Some(t / 60);
    assert ParseCount(ws[2]) == Some(t % 60);
    assert |ws| != 6;
  }

  /** Two different second counts never render alike. */
  lemma FormatInjective(t: nat, u: nat)
    requires Format(t) == Format(u)
    ensures t == u
  {
    FormatRoundTrip(t);
    FormatRoundTrip(u);
  }

  /** The rendering of 125 seconds is "2 minut 5 sekund". */
  lemma FormatMinutesExample()
    ensures Format(125) == "2 minut 5 sekund"
  {
    assert Decimal(2) == "2" && Decimal(5) == "5";
  }

  /** The rendering of 3661 seconds is "1 hodin 1 minut 1 sekund". */
  lemma FormatHoursExample()
    ensures Format(3661) == "1 hodin 1 minut 1 sekund"
  {
    assert 3661 / 3600 == 1 && 3661 % 3600 == 61 && 61 / 60 == 1 && 3661 % 60 == 1;
    var c := ToClock(3661);
    assert c == Clock(1, 1, 1);
    var one := Decimal(1);
    assert one == "1";
    assert Format(3661) == one + " hodin " + one + " minut " + one + " sekund";
  }

  /** The rendering of 45 seconds is "45 sekund". */
  lemma FormatSecondsExample()
    ensures Format(45) == "45 sekund"
  {
    assert Decimal(4) == "4";
    assert Decimal(45) == Decimal(4) + [DigitChar(5)] == "45";
  }
}
