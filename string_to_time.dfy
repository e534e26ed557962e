/** `StringToTime`: resolving a free-form range boundary into the date-time
    string handed to the parser with layout "2006-01-02 15:04:05". */
module DateTimeInput {

  predicate IsDigit(c: char)
  {
    '0' <= c <= '9'
  }

  /** `\d{4}-\d{2}-\d{2}` occurs in `s` at offset `p`. */
  predicate DateAt(s: string, p: nat)
  {
    && p + 10 <= |s|
    && IsDigit(s[p]) && IsDigit(s[p + 1]) && IsDigit(s[p + 2]) && IsDigit(s[p + 3])
    && s[p + 4] == '-' && IsDigit(s[p + 5]) && IsDigit(s[p + 6])
    && s[p + 7] == '-' && IsDigit(s[p + 8]) && IsDigit(s[p + 9])
  }

  /** `\d{2}:\d{2}:\d{2}` occurs in `s` at offset `p`. */
  predicate ClockAt(s: string, p: nat)
  {
    && p + 8 <= |s|
    && IsDigit(s[p]) && IsDigit(s[p + 1]) && s[p + 2] == ':'
    && IsDigit(s[p + 3]) && IsDigit(s[p + 4]) && s[p + 5] == ':'
    && IsDigit(s[p + 6]) && IsDigit(s[p + 7])
  }

  /** Exactly a date, or exactly a clock time. */
  predicate IsDate(s: string) { |s| == 10 && DateAt(s, 0) }
  predicate IsClock(s: string) { |s| == 8 && ClockAt(s, 0) }

  /** Where the time group may start: after the date, if any, and after one
      optional space. */
  function ClockStart(str: string): nat
  {
    var d := if DateAt(str, 0) then 10 else 0;
    if d < |str| && str[d] == ' ' then d + 1 else d
  }

  /** The result of `FindStringSubmatch`: the whole match and the two groups,
      a group that did not take part being empty. */
  datatype Submatch = Submatch(whole: string, date: string, clock: string)

  /** `dateTimeRegex.FindStringSubmatch` for `(\d{4}-\d{2}-\d{2})? ?(\d{2}:\d{2}:\d{2})?`.
      Every part is optional, so the empty string matches at offset 0 and the
      leftmost match always starts there; each optional part is taken when it
      can be, in order: a date, then a space, then a clock time. */
  function FindStringSubmatch(str: string): (m: Submatch)
    ensures m.whole <= str
    ensures m.date == "" || IsDate(m.date)
    ensures m.clock == "" || IsClock(m.clock)
    ensures m.date != "" <==> DateAt(str, 0)
    ensures m.clock != "" <==> ClockAt(str, ClockStart(str))
    ensures m.date <= m.whole
    ensures m.date != "" ==> m.date == str[..10]
    ensures ClockAt(str, ClockStart(str)) ==> m.whole == str[..ClockStart(str) + 8]
    ensures !ClockAt(str, ClockStart(str)) ==> m.whole == str[..ClockStart(str)]
    ensures m.clock != "" ==> m.clock == str[ClockStart(str)..ClockStart(str) + 8]
  {
    var d := if DateAt(str, 0) then 10 else 0;
    var q := ClockStart(str);
    var e := if ClockAt(str, q) then q + 8 else q;
    Submatch(str[..e], str[..d], str[q..e])
  }

  /** `StringToTime` up to the parse: the string it hands to `time.ParseInLocation`.
      `today` stands for `time.Now().Format("2006-01-02")`. A date and a time
      at the start are handed on verbatim as the 18- or 19-character matched
      prefix; a date alone gets the fallback time; a time alone gets today's
      date; neither gives today at the fallback time. */
  function StringToTime(str: string, today: string, defaultTime: string): (s: string)
    ensures DateAt(str, 0) && ClockAt(str, ClockStart(str)) ==>
      s == str[..ClockStart(str) + 8] && |s| in {18, 19}
    ensures DateAt(str, 0) && !ClockAt(str, ClockStart(str)) ==>
      s == str[..10] + " " + defaultTime
    ensures !DateAt(str, 0) && ClockAt(str, ClockStart(str)) ==>
      s == today + " " + str[ClockStart(str)..ClockStart(str) + 8]
    ensures !DateAt(str, 0) && !ClockAt(str, ClockStart(str)) ==>
      s == today + " " + defaultTime
  {
    var m := FindStringSubmatch(str);
    if m.date != "" && m.clock != "" then m.whole
    else if m.date != "" then m.date + " " + defaultTime
    else if m.clock != "" then today + " " + m.clock
    else today + " " + defaultTime
  }

  /** Only the first 19 characters matter: the match starts at offset 0, so a
      date or time further into the string is ignored. */
  lemma OnlyPrefixMatters(str: string, tail: string, today: string, defaultTime: string)
    requires |str| >= 19
    ensures StringToTime(str + tail, today, defaultTime) == StringToTime(str, today, defaultTime)
  {
    var s := str + tail;
    assert forall i :: 0 <= i < |str| ==> s[i] == str[i];
    assert DateAt(s, 0) == DateAt(str, 0);
    var q := ClockStart(str);
    assert ClockStart(s) == q;
    assert ClockAt(s, q) == ClockAt(str, q);
    assert s[..q + 8] == str[..q + 8] && s[..q] == str[..q];
    assert s[..10] == str[..10] && s[q..q + 8] == str[q..q + 8];
  }

  /** A string whose first character is neither a digit nor a space matches the
      empty prefix only, and resolves to today at the fallback time. */
  lemma NoLeadingMatch(str: string, today: string, defaultTime: string)
    requires str == [] || (!IsDigit(str[0]) && str[0] != ' ')
    ensures StringToTime(str, today, defaultTime) == today + " " + defaultTime
  {
  }

  /** The cases of the repository's own test of `StringToTime`, with fallback
      time "01:02:03": a full date and time is kept as it is. */
  lemma FullInputExample(today: string)
    ensures StringToTime("2020-02-03 13:22:33", today, "01:02:03") == "2020-02-03 13:22:33"
  {
    var full := "2020-02-03 13:22:33";
    assert DateAt(full, 0);
    assert ClockStart(full) == 11;
    assert ClockAt(full, 11);
    assert full[..19] == full;
  }

  /** A date alone takes the fallback time. */
  lemma MissingTimeExample(today: string)
    ensures StringToTime("2020-02-03", today, "01:02:03") == "2020-02-03 01:02:03"
  {
    var date := "2020-02-03";
    assert DateAt(date, 0);
    assert ClockStart(date) == 10 && !ClockAt(date, 10);
    assert date[..10] == date;
    assert StringToTime(date, today, "01:02:03") == date + " " + "01:02:03";
  }

  /** A time alone is taken on today's date. */
  lemma MissingDateExample(today: string)
    ensures StringToTime("13:22:33", today, "01:02:03") == today + " 13:22:33"
  {
    var clock := "13:22:33";
    assert !DateAt(clock, 0);
    assert ClockStart(clock) == 0 && ClockAt(clock, 0);
    assert clock[0..8] == clock;
  }

  /** Empty and unmatched input resolve to today at the fallback time. */
  lemma UnmatchedInputExamples(today: string)
    ensures StringToTime("", today, "01:02:03") == today + " 01:02:03"
    ensures StringToTime("lsbhewr", today, "01:02:03") == today + " 01:02:03"
  {
    NoLeadingMatch("", today, "01:02:03");
    NoLeadingMatch("lsbhewr", today, "01:02:03");
  }
}
