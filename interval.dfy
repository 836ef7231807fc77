/**
 * The interval classifier of the scheduler (`_parse_interval`): a text such
 * as "5 seconds" or "1 day 10:00" becomes a repeat rule, or nothing when the
 * text cannot be read. The scheduling library's job object that the source
 * builds from the rule is represented by the rule alone.
 */
module Interval {
  import opened Wrappers
  import opened Text

  datatype Unit = Second | Minute | Hour | Day

  /** `every(n).<unit>` or `every().day.at(time)`. */
  datatype Rule = Every(quantity: int, unit: Unit) | DailyAt(time: string)

  /** The unit chosen by substring tests on the unit word, in the source's order. */
  function UnitOf(word: string): Option<Unit>
  {
    if Contains(word, "second") then Some(Second)
    else if Contains(word, "minute") then Some(Minute)
    else if Contains(word, "hour") then Some(Hour)
    else if Contains(word, "day") then Some(Day)
    else None
  }

  /** `every(int(quantity)).<unit>`, or `None` when `int` raises ValueError. */
  function Quantified(quantity: string, u: Unit): Option<Rule> {
    match ParseInt(quantity)
    case Some(n) => Some(Every(n, u))
    case None => None
  }

  /** The classification of the lower-cased tokens of an interval text. */
  function ParseTokens(parts: seq<string>): (r: Option<Rule>)
    ensures r.Some? ==> |parts| >= 2 && UnitOf(parts[1]).Some?
    ensures r.Some? && r.value.Every? ==>
      ParseInt(parts[0]) == Some(r.value.quantity) && UnitOf(parts[1]) == Some(r.value.unit)
    ensures r.Some? && r.value.DailyAt? ==>
      UnitOf(parts[1]) == Some(Day) && |parts| > 2 && r.value.time == parts[2]
      && Contains(r.value.time, ":")
    // and conversely, every readable quantity with a known unit word gives a rule
    ensures |parts| >= 2 && UnitOf(parts[1]).Some? && ParseInt(parts[0]).Some?
      && !(UnitOf(parts[1]) == Some(Day) && |parts| > 2 && Contains(parts[2], ":"))
      ==> r == Some(Every(ParseInt(parts[0]).value, UnitOf(parts[1]).value))
    ensures |parts| > 2 && UnitOf(parts[1]) == Some(Day) && Contains(parts[2], ":") ==>
      r == Some(DailyAt(parts[2]))
  {
    if |parts| < 2 then None
    else
      match UnitOf(parts[1])
      case None => None
      case Some(Day) =>
        if |parts| > 2 && Contains(parts[2], ":") then Some(DailyAt(parts[2]))
        else Quantified(parts[0], Day)
      case Some(u) => Quantified(parts[0], u)
  }

  /**
   * `_parse_interval(text)`: the text is lower-cased and split on white
   * space. Fewer than two tokens (IndexError), an unknown unit word and a
   * non-integer quantity (ValueError) all give `None`.
   */
  function ParseInterval(text: string): Option<Rule> {
    ParseTokens(Words(Lower(text)))
  }

  // ---------------------------------------------------------------------
  // Properties

  lemma LowerIsLower(s: string)
    ensures IsLower(Lower(s))
  {
  }

  /** Interval texts are read case-insensitively. */
  lemma ParseIntervalIgnoresCase(text: string)
    ensures ParseInterval(Lower(text)) == ParseInterval(text)
  {
    LowerIsLower(text);
    LowerOfLower(Lower(text));
  }

  /** Fewer than two tokens never parse. */
  lemma ParseIntervalNeedsTwoTokens(text: string)
    requires |Words(Lower(text))| < 2
    ensures ParseInterval(text) == None
  {
  }

  /** A second token naming none of the four units never parses. */
  lemma ParseIntervalUnknownUnit(text: string)
    requires |Words(Lower(text))| >= 2
    requires UnitOf(Words(Lower(text))[1]).None?
    ensures ParseInterval(text) == None
  {
  }

  /** The texts a rule is usually written as. */
  function Render(r: Rule): string {
    Join(RenderTokens(r))
  }

  /** A daily time is one lower-case token containing ':'. */
  predicate WellFormedRule(r: Rule) {
    r.DailyAt? ==> IsWord(r.time) && IsLower(r.time) && Contains(r.time, ":")
  }

  /** A needle whose first character does not occur early enough in the text is not a substring of it. */
  lemma NotContains(hay: string, needle: string)
    requires |needle| > 0
    requires forall i :: 0 <= i < |hay| ==> hay[i] != needle[0] || |hay| - i < |needle|
    ensures !Contains(hay, needle)
  {
    forall i ensures !OccursAt(hay, needle, i) {
      if 0 <= i && i + |needle| <= |hay| {
        assert hay[i..i + |needle|][0] == hay[i];
      }
    }
  }

  /** The unit test is a substring test: every word containing "second" counts as seconds. */
  lemma UnitOfSecondWord(pre: string, post: string)
    ensures UnitOf(pre + "second" + post) == Some(Second)
  {
    ContainsInLonger(pre, "second", post);
  }

  lemma UnitOfSeconds()
    ensures UnitOf("seconds") == Some(Second)
  {
    UnitOfSecondWord("", "s");
    assert "" + "second" + "s" == "seconds";
  }

  lemma UnitOfMinutes()
    ensures UnitOf("minutes") == Some(Minute)
  {
    NotContains("minutes", "second");
    ContainsInLonger("", "minute", "s");
    assert "" + "minute" + "s" == "minutes";
  }

  lemma UnitOfHours()
    ensures UnitOf("hours") == Some(Hour)
  {
    NotContains("hours", "second");
    NotContains("hours", "minute");
    ContainsInLonger("", "hour", "s");
    assert "" + "hour" + "s" == "hours";
  }

  lemma UnitOfDay(word: string)
    requires word == "day" || word == "days"
    ensures UnitOf(word) == Some(Day)
  {
    NotContains(word, "second");
    NotContains(word, "minute");
    NotContains(word, "hour");
    ContainsInLonger("", "day", word[3..]);
    assert "" + "day" + word[3..] == word;
  }

  /** The unit word `Render` writes for each unit. */
  function UnitWord(u: Unit): string {
    match u
    case Second => "seconds"
    case Minute => "minutes"
    case Hour => "hours"
    case Day => "days"
  }

  lemma UnitOfUnitWord(u: Unit)
    ensures UnitOf(UnitWord(u)) == Some(u)
  {
    match u
    case Second => UnitOfSeconds();
    case Minute => UnitOfMinutes();
    case Hour => UnitOfHours();
    case Day => UnitOfDay("days");
  }

  /** The unit word in the singular, as in "1 minute" or "1 day". */
  function SingularWord(u: Unit): string {
    match u
    case Second => "second"
    case Minute => "minute"
    case Hour => "hour"
    case Day => "day"
  }

  lemma UnitOfSingularWord(u: Unit)
    ensures UnitOf(SingularWord(u)) == Some(u)
  {
    match u
    case Second => ContainsItself("second");
    case Minute =>
      NotContains("minute", "second");
      ContainsItself("minute");
    case Hour => UnitOfHour();
    case Day => UnitOfDay("day");
  }

  /** "n second", "n minute", "n hour" and "n day" repeat every n units; "1 day" is every day. */
  lemma ParseIntervalOfSingular(n: int, u: Unit)
    ensures ParseInterval(IntToString(n) + " " + SingularWord(u)) == Some(Every(n, u))
  {
    WordsOfSingularText(n, u);
    UnitOfSingularWord(u);
    ParseIntOfIntToString(n);
    ParseTokensOfTwo(IntToString(n), SingularWord(u), n, u);
  }

  lemma SingularWordIsLowerWord(u: Unit)
    ensures IsWord(SingularWord(u)) && IsLower(SingularWord(u))
  {
  }

  lemma WordsOfSingularText(n: int, u: Unit)
    ensures Words(Lower(IntToString(n) + " " + SingularWord(u))) == [IntToString(n), SingularWord(u)]
  {
    IntToStringIsWord(n);
    SingularWordIsLowerWord(u);
    WordsOfTwo(IntToString(n), SingularWord(u));
  }

  /** The tokens of every rule's usual text. */
  function RenderTokens(r: Rule): seq<string> {
    match r
    case Every(n, u) => [IntToString(n), UnitWord(u)]
    case DailyAt(t) => ["1", "day", t]
  }

  lemma UnitWordIsLowerWord(u: Unit)
    ensures IsWord(UnitWord(u)) && IsLower(UnitWord(u))
  {
  }

  lemma WordsOfEveryText(n: int, u: Unit)
    ensures Words(Lower(IntToString(n) + " " + UnitWord(u))) == [IntToString(n), UnitWord(u)]
  {
    IntToStringIsWord(n);
    UnitWordIsLowerWord(u);
    WordsOfTwo(IntToString(n), UnitWord(u));
  }

  lemma WordsOfDailyRender(t: string)
    requires IsWord(t) && IsLower(t)
    ensures Words(Lower(Join(["1", "day", t]))) == ["1", "day", t]
  {
    JoinThree("1", "day", t);
    assert "1" + " " + "day" + " " + t == "1" + " day " + t;
    assert IsWord("1") && IsLower("1");
    WordsOfDailyText("1", t);
    LowerOfLower("1");
    LowerOfLower(t);
  }

  lemma WordsOfRender(r: Rule)
    requires WellFormedRule(r)
    ensures Words(Lower(Render(r))) == RenderTokens(r)
  {
    match r
    case Every(n, u) =>
      JoinTwo(IntToString(n), UnitWord(u));
      WordsOfEveryText(n, u);
    case DailyAt(t) =>
      WordsOfDailyRender(t);
  }

  lemma ParseTokensOfRender(r: Rule)
    requires WellFormedRule(r)
    ensures ParseTokens(RenderTokens(r)) == Some(r)
  {
    match r
    case Every(n, u) =>
      UnitOfUnitWord(u);
      ParseIntOfIntToString(n);
    case DailyAt(t) =>
      UnitOfDay("day");
  }

  /** Every rule read back from its usual text is the rule itself. */
  lemma ParseIntervalOfRender(r: Rule)
    requires WellFormedRule(r)
    ensures ParseInterval(Render(r)) == Some(r)
  {
    WordsOfRender(r);
    ParseTokensOfRender(r);
  }

  lemma LowerKeepsColon(t: string)
    requires Contains(t, ":")
    ensures Contains(Lower(t), ":")
  {
    var i :| 0 <= i <= |t| - |":"| && OccursAt(t, ":", i);
    assert t[i..i + 1] == ":" && t[i] == ':';
    LowerAt(t);
    assert Lower(t)[i..i + 1] == [ToLower(t[i])];
    assert OccursAt(Lower(t), ":", i);
  }

  lemma LowerOfDailyText(quantity: string, time: string)
    ensures Lower(quantity + " day " + time) == Lower(quantity) + " day " + Lower(time)
  {
    assert quantity + " day " + time == quantity + (" day " + time);
    LowerAppend(quantity, " day " + time);
    LowerAppend(" day ", time);
    LowerOfDay();
  }

  lemma LowerOfDay()
    ensures Lower(" day ") == " day "
  {
    assert IsLower(" day ");
    LowerOfLower(" day ");
  }

  lemma WordsOfDailyTokens(q: string, t: string)
    requires IsWord(q) && IsWord(t)
    ensures Words(q + " day " + t) == [q, "day", t]
  {
    JoinThree(q, "day", t);
    assert q + " " + "day" + " " + t == q + " day " + t;
    assert IsWord("day");
    WordsOfJoin([q, "day", t]);
  }

  lemma WordsOfDailyText(quantity: string, time: string)
    requires IsWord(quantity) && IsWord(time)
    ensures Words(Lower(quantity + " day " + time)) == [Lower(quantity), "day", Lower(time)]
  {
    LowerOfDailyText(quantity, time);
    LowerOfWord(quantity);
    LowerOfWord(time);
    WordsOfDailyTokens(Lower(quantity), Lower(time));
  }

  /** In the daily-at-time branch the quantity token is never read as an integer. */
  lemma DailyAtIgnoresQuantity(quantity: string, time: string)
    requires IsWord(quantity) && IsWord(time) && Contains(time, ":")
    ensures ParseInterval(quantity + " day " + time) == Some(DailyAt(Lower(time)))
  {
    WordsOfDailyText(quantity, time);
    UnitOfDay("day");
    LowerKeepsColon(time);
  }

  // ---------------------------------------------------------------------
  // The interval texts used by the program's own examples

  /** Two lower-case tokens joined by one space split back into those tokens. */
  lemma WordsOfTwo(a: string, b: string)
    requires IsWord(a) && IsWord(b) && IsLower(a) && IsLower(b)
    ensures Words(Lower(a + " " + b)) == [a, b]
  {
    JoinTwo(a, b);
    IsLowerAppend(a, " ");
    IsLowerAppend(a + " ", b);
    LowerOfLower(a + " " + b);
    WordsOfJoin([a, b]);
  }

  lemma WordsOfThree(a: string, b: string, c: string)
    requires IsWord(a) && IsWord(b) && IsWord(c)
    ensures Words(a + " " + b + " " + c) == [a, b, c]
  {
    JoinThree(a, b, c);
    WordsOfJoin([a, b, c]);
  }

  lemma ExampleFiveSeconds()
    ensures ParseInterval("5 seconds") == Some(Every(5, Second))
  {
    WordsOfFiveSeconds();
    UnitOfSeconds();
    FiveNumeral();
    ParseTokensOfTwo("5", "seconds", 5, Second);
  }

  lemma FiveNumeral()
    ensures ParseInt("5") == Some(5)
  {
    assert NatToString(5) == "5";
    ParseIntOfNumeral(5, "5");
  }

  lemma WordsOfFiveSeconds()
    ensures Words(Lower("5 seconds")) == ["5", "seconds"]
  {
    assert IsWord("5") && IsLower("5");
    assert IsWord("seconds") && IsLower("seconds");
    assert "5" + " " + "seconds" == "5 seconds";
    WordsOfTwo("5", "seconds");
  }

  /** Two tokens, a quantity and a unit word, give a repeat every that many units. */
  lemma ParseTokensOfTwo(quantity: string, word: string, n: int, u: Unit)
    requires ParseInt(quantity) == Some(n) && UnitOf(word) == Some(u)
    ensures ParseTokens([quantity, word]) == Some(Every(n, u))
  {
  }

  lemma ParseIntOfNumeral(i: int, s: string)
    requires IntToString(i) == s
    ensures ParseInt(s) == Some(i)
  {
    ParseIntOfIntToString(i);
  }

  lemma TenNumeral()
    ensures ParseInt("10") == Some(10)
  {
    assert NatToString(1) == "1";
    assert NatToString(10) == "1" + "0";
    ParseIntOfNumeral(10, "10");
  }

  lemma WordsOfTenSeconds()
    ensures Words(Lower("10 seconds")) == ["10", "seconds"]
  {
    assert IsWord("10") && IsLower("10");
    assert IsWord("seconds") && IsLower("seconds");
    assert "10" + " " + "seconds" == "10 seconds";
    WordsOfTwo("10", "seconds");
  }

  lemma ExampleTenSeconds()
    ensures ParseInterval("10 seconds") == Some(Every(10, Second))
  {
    WordsOfTenSeconds();
    UnitOfSeconds();
    TenNumeral();
    ParseTokensOfTwo("10", "seconds", 10, Second);
  }

  lemma UnitOfHour()
    ensures UnitOf("hour") == Some(Hour)
  {
    NotContains("hour", "second");
    NotContains("hour", "minute");
    ContainsItself("hour");
  }

  lemma OneNumeral()
    ensures ParseInt("1") == Some(1)
  {
    assert NatToString(1) == "1";
    ParseIntOfNumeral(1, "1");
  }

  lemma WordsOfOneHour()
    ensures Words(Lower("1 hour")) == ["1", "hour"]
  {
    assert IsWord("1") && IsLower("1");
    assert IsWord("hour") && IsLower("hour");
    assert "1" + " " + "hour" == "1 hour";
    WordsOfTwo("1", "hour");
  }

  lemma ExampleOneHour()
    ensures ParseInterval("1 hour") == Some(Every(1, Hour))
  {
    WordsOfOneHour();
    UnitOfHour();
    OneNumeral();
    ParseTokensOfTwo("1", "hour", 1, Hour);
  }

  /** The docstring's "1 minute". */
  lemma ExampleOneMinute()
    ensures ParseInterval("1 minute") == Some(Every(1, Minute))
  {
    ParseIntervalOfSingular(1, Minute);
    assert IntToString(1) == "1";
    assert "1" + " " + "minute" == "1 minute";
  }

  /** "1 day" without a time repeats every day. */
  lemma ExampleOneDay()
    ensures ParseInterval("1 day") == Some(Every(1, Day))
  {
    ParseIntervalOfSingular(1, Day);
    assert IntToString(1) == "1";
    assert "1" + " " + "day" == "1 day";
  }

  lemma ColonInEight()
    ensures Contains("08:00", ":")
  {
    ContainsInLonger("08", ":", "00");
    assert "08" + ":" + "00" == "08:00";
  }

  lemma EightIsLowerWord()
    ensures IsWord("08:00") && IsLower("08:00")
  {
  }

  lemma LowerOfEight()
    ensures Lower("08:00") == "08:00"
  {
    EightIsLowerWord();
    LowerOfLower("08:00");
  }

  lemma DailyAtEightText()
    ensures ParseInterval("1" + " day " + "08:00") == Some(DailyAt("08:00"))
  {
    ColonInEight();
    EightIsLowerWord();
    LowerOfEight();
    DailyAtIgnoresQuantity("1", "08:00");
  }

  lemma ExampleDailyAtEight()
    ensures ParseInterval("1 day 08:00") == Some(DailyAt("08:00"))
  {
    DailyAtEightText();
    assert "1" + " day " + "08:00" == "1 day 08:00";
  }

  lemma LowerOfBlueMoon()
    ensures Lower("every blue moon") == "every blue moon"
  {
    assert IsLower("every blue moon");
    LowerOfLower("every blue moon");
  }

  lemma SplitOfBlueMoon()
    ensures Words("every blue moon") == ["every", "blue", "moon"]
  {
    assert "every" + " " + "blue" + " " + "moon" == "every blue moon";
    WordsOfThree("every", "blue", "moon");
  }

  lemma WordsOfBlueMoon()
    ensures Words(Lower("every blue moon")) == ["every", "blue", "moon"]
  {
    LowerOfBlueMoon();
    SplitOfBlueMoon();
  }

  lemma UnitOfBlue()
    ensures UnitOf("blue") == None
  {
    NotContains("blue", "second");
    NotContains("blue", "minute");
    NotContains("blue", "hour");
    NotContains("blue", "day");
  }

  /** "every blue moon" names no unit and is rejected without an error. */
  lemma ExampleBlueMoon()
    ensures ParseInterval("every blue moon") == None
  {
    WordsOfBlueMoon();
    UnitOfBlue();
  }

  lemma UnitOfMilliseconds()
    ensures UnitOf("milliseconds") == Some(Second)
  {
    UnitOfSecondWord("milli", "s");
    assert "milli" + "second" + "s" == "milliseconds";
  }

  /** The unit test is a substring test: "milliseconds" counts as seconds. */
  lemma WordsOfMilliseconds()
    ensures Words(Lower("5 milliseconds")) == ["5", "milliseconds"]
  {
    assert IsWord("5") && IsLower("5");
    assert IsWord("milliseconds") && IsLower("milliseconds");
    assert "5" + " " + "milliseconds" == "5 milliseconds";
    WordsOfTwo("5", "milliseconds");
  }

  lemma ExampleMilliseconds()
    ensures ParseInterval("5 milliseconds") == Some(Every(5, Second))
  {
    WordsOfMilliseconds();
    UnitOfMilliseconds();
    FiveNumeral();
    ParseTokensOfTwo("5", "milliseconds", 5, Second);
  }

  lemma UnitOfWeeks()
    ensures UnitOf("weeks") == None
  {
    NotContains("weeks", "second");
    NotContains("weeks", "minute");
    NotContains("weeks", "hour");
    NotContains("weeks", "day");
  }

  /** There is no week unit. */
  lemma ExampleWeeks()
    ensures ParseInterval("2 weeks") == None
  {
    WordsOfTwo("2", "weeks");
    UnitOfWeeks();
  }

  lemma FiveIsNotAnInteger()
    ensures ParseInt("five") == None
  {
    assert !IsDigit('f') && "five"[0] == 'f';
    assert !DecimalCharAt("five", 0);
  }

  /** A quantity that is not an integer is rejected without an error. */
  lemma WordsOfFiveMinutes()
    ensures Words(Lower("five minutes")) == ["five", "minutes"]
  {
    assert IsWord("five") && IsLower("five");
    assert IsWord("minutes") && IsLower("minutes");
    assert "five" + " " + "minutes" == "five minutes";
    WordsOfTwo("five", "minutes");
  }

  lemma ExampleNonInteger()
    ensures ParseInterval("five minutes") == None
  {
    WordsOfFiveMinutes();
    UnitOfMinutes();
    FiveIsNotAnInteger();
  }
}
