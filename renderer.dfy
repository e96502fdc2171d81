/** `form_schedule`: the reply text is split into lines; every line that starts
    with a lesson number gets a clock sign and that lesson's time, taken from the
    shortened table on a day with a class hour; every line naming the class hour
    gets a clock sign; the lines are joined back together. */
module Renderer {
  import opened Outcomes
  import opened PyText
  import opened Workbook
  import opened Seqs

  /** The clock sign (U+1F552) and the space after it. */
  const Clock: string := "\U{1F552} "

  /** Lesson times on an ordinary day. */
  const StandardTimes: map<nat, string> := map[
    1 := "8:00 - 9:30",
    2 := "9:40 - 11:10",
    3 := "11:30 - 13:00",
    4 := "13:10 - 14:40",
    5 := "15:00 - 16:30",
    6 := "16:40 - 18:10",
    7 := "18:20 - 19:50"]

  /** Lesson times on a day with a class hour, which moves the afternoon lessons
      and has no seventh lesson. */
  const ExtendedTimes: map<nat, string> := map[
    1 := "8:00 - 9:30",
    2 := "9:40 - 11:10",
    3 := "11:30 - 13:00",
    4 := "14:10 - 15:40",
    5 := "16:00 - 17:30",
    6 := "17:40 - 19:10"]

  // ----- lines -----

  /** `s.split('\n')`: the pieces between line breaks; always at least one. */
  function Split(s: string): (r: seq<string>)
    ensures |r| >= 1
    ensures forall k :: 0 <= k < |r| ==> '\n' !in r[k]
    decreases |s|
  {
    if s == [] then [""]
    else
      var t := Split(s[1..]);
      if s[0] == '\n' then [""] + t else [[s[0]] + t[0]] + t[1..]
  }

  /** `'\n'.join(lines)`. */
  function Join(lines: seq<string>): string
  {
    if lines == [] then ""
    else if |lines| == 1 then lines[0]
    else lines[0] + "\n" + Join(lines[1..])
  }

  /** Joining the pieces of a split gives back the text. */
  lemma {:induction false} JoinSplit(s: string)
    ensures Join(Split(s)) == s
    decreases |s|
  {
    if s != [] {
      var t := Split(s[1..]);
      JoinSplit(s[1..]);
      if s[0] == '\n' {
        assert ([""] + t)[1..] == t;
        assert s == "\n" + s[1..];
      } else if |t| == 1 {
        assert s == [s[0]] + s[1..];
      } else {
        var first := [s[0]] + t[0];
        assert ([first] + t[1..])[1..] == t[1..];
        assert s == [s[0]] + (t[0] + "\n" + Join(t[1..]));
      }
    }
  }

  /** Splitting after a piece without line breaks extends the first line. */
  lemma {:induction false} SplitAfter(a: string, rest: string)
    requires '\n' !in a
    ensures Split(a + rest) == [a + Split(rest)[0]] + Split(rest)[1..]
    decreases |a|
  {
    if a != [] {
      SplitAfter(a[1..], rest);
      var u := Split(rest);
      var t := Split(a[1..] + rest);
      assert (a + rest)[1..] == a[1..] + rest;
      assert (a + rest)[0] == a[0];
      assert t[1..] == u[1..];
      assert [a[0]] + t[0] == a + u[0];
    } else {
      assert a + rest == rest;
      assert a + Split(rest)[0] == Split(rest)[0];
      assert Split(rest) == [Split(rest)[0]] + Split(rest)[1..];
    }
  }

  /** Splitting the joined lines gives back the lines, when none of them holds a
      line break. */
  lemma {:induction false} SplitJoin(lines: seq<string>)
    requires |lines| >= 1
    requires forall k :: 0 <= k < |lines| ==> '\n' !in lines[k]
    ensures Split(Join(lines)) == lines
  {
    if |lines| == 1 {
      SplitAfter(lines[0], "");
      assert lines[0] + "" == lines[0];
    } else {
      var rest := Join(lines[1..]);
      SplitJoin(lines[1..]);
      assert Join(lines) == lines[0] + ("\n" + rest);
      SplitAfter(lines[0], "\n" + rest);
      assert ("\n" + rest)[1..] == rest;
      assert lines[0] + "" == lines[0];
      assert lines == [lines[0]] + lines[1..];
    }
  }

  // ----- one line -----

  /** `any('Классный час' in line for line in lines)`. */
  predicate ClassHourDay(lines: seq<string>) {
    exists k :: 0 <= k < |lines| && Contains(lines[k], ClassHour)
  }

  /** The guard of a lesson line, as written: `line.strip() and line[0].isdigit()`. */
  predicate IsLessonLine(line: string) {
    Strip(line) != "" && line != "" && IsDigit(line[0])
  }

  /** A line starting with a digit is never all white space, so the guard only
      looks at the first character. */
  lemma LessonLineLeadingDigit(line: string)
    ensures IsLessonLine(line) <==> line != "" && IsDigit(line[0])
  {
    StripSpec(line);
  }

  /** What one line becomes, or the `KeyError` looking up its time raises. */
  function RenderLine(line: string, classHourDay: bool): Result<string, Fault> {
    if IsLessonLine(line) then
      var pairNumber := DigitValue(line[0]);
      if classHourDay && pairNumber in StandardTimes then
        if pairNumber in ExtendedTimes then Ok(Clock + line + " " + ExtendedTimes[pairNumber])
        else Failure(KeyError(pairNumber))
      else if pairNumber in StandardTimes then Ok(Clock + line + " " + StandardTimes[pairNumber])
      else Ok("")
    else if Contains(line, ClassHour) then Ok(Clock + line)
    else Ok(line)
  }

  /** The outcome of rendering each line. */
  function RenderAll(lines: seq<string>, classHourDay: bool): (rs: seq<Result<string, Fault>>)
    ensures |rs| == |lines|
  {
    seq(|lines|, k requires 0 <= k < |lines| => RenderLine(lines[k], classHourDay))
  }

  /** The text `form_schedule` returns, or the exception it raises. */
  function FormScheduleText(schedule: string): Result<string, Fault> {
    var lines := Split(schedule);
    match Collect(RenderAll(lines, ClassHourDay(lines)), 0)
    case Failure(e) => Failure(e)
    case Ok(rendered) => Ok(Join(rendered))
  }

  // ----- what a line becomes -----

  /** A line raises exactly when it names lesson 7 on a class-hour day: the guard
      consults the ordinary table, which has a seventh lesson, but the time is
      read from the shortened one, which has none. */
  lemma RenderLineFails(line: string, classHourDay: bool)
    ensures RenderLine(line, classHourDay).Failure? <==>
      classHourDay && line != "" && line[0] == '7'
    ensures RenderLine(line, classHourDay).Failure? ==> RenderLine(line, classHourDay).error == KeyError(7)
  {
    LessonLineLeadingDigit(line);
  }

  /** A lesson line numbered 1..7 on an ordinary day, or 1..6 on a class-hour day,
      gets the clock sign before it and its time after it, from the table of the
      day. */
  lemma RenderLessonLine(line: string, classHourDay: bool)
    requires line != "" && '1' <= line[0] <= '7'
    requires classHourDay ==> line[0] != '7'
    ensures var n := line[0] as int - '0' as int;
      RenderLine(line, classHourDay)
      == Ok(Clock + line + " " + (if classHourDay then ExtendedTimes[n] else StandardTimes[n]))
  {
    LessonLineLeadingDigit(line);
  }

  /** A line whose number is not a lesson (0, 8 or 9) is blanked. */
  lemma RenderUnknownLesson(line: string, classHourDay: bool)
    requires line != "" && (line[0] == '0' || line[0] == '8' || line[0] == '9')
    ensures RenderLine(line, classHourDay) == Ok("")
  {
    LessonLineLeadingDigit(line);
  }

  /** A line that does not start with a digit keeps its text, with a clock sign
      before it if it names the class hour. */
  lemma RenderOtherLine(line: string, classHourDay: bool)
    requires line == "" || !IsDigit(line[0])
    ensures RenderLine(line, classHourDay)
      == Ok(if Contains(line, ClassHour) then Clock + line else line)
  {
    LessonLineLeadingDigit(line);
  }

  /** No time of either table holds a line break. */
  lemma TimesUnbroken()
    ensures forall n :: n in StandardTimes ==> '\n' !in StandardTimes[n]
    ensures forall n :: n in ExtendedTimes ==> '\n' !in ExtendedTimes[n]
  {
  }

  /** Rendering adds no line break. */
  lemma RenderLineNoBreak(line: string, classHourDay: bool)
    requires '\n' !in line
    ensures RenderLine(line, classHourDay).Ok? ==> '\n' !in RenderLine(line, classHourDay).value
  {
    TimesUnbroken();
    assert '\n' !in Clock && '\n' !in " ";
  }

  // ----- what the text becomes -----

  /** Line by line, the outcomes of `RenderLineFails`. */
  lemma RenderAllFails(lines: seq<string>, classHourDay: bool)
    ensures forall k :: 0 <= k < |lines| ==>
      (RenderAll(lines, classHourDay)[k].Failure? <==> classHourDay && lines[k] != "" && lines[k][0] == '7')
    ensures forall k :: 0 <= k < |lines| && RenderAll(lines, classHourDay)[k].Failure? ==>
      RenderAll(lines, classHourDay)[k].error == KeyError(7)
  {
    forall k | 0 <= k < |lines|
      ensures RenderLine(lines[k], classHourDay).Failure? <==> classHourDay && lines[k] != "" && lines[k][0] == '7'
      ensures RenderLine(lines[k], classHourDay).Failure? ==> RenderLine(lines[k], classHourDay).error == KeyError(7)
    {
      RenderLineFails(lines[k], classHourDay);
    }
  }

  /** `form_schedule` raises `KeyError(7)` exactly when the text names the class
      hour on one of its lines and some line starts with `7`. */
  lemma FormScheduleFails(schedule: string)
    ensures var lines := Split(schedule);
      FormScheduleText(schedule).Failure? <==>
        ClassHourDay(lines) && exists k :: 0 <= k < |lines| && lines[k] != "" && lines[k][0] == '7'
    ensures FormScheduleText(schedule).Failure? ==> FormScheduleText(schedule).error == KeyError(7)
  {
    var lines := Split(schedule);
    var ch := ClassHourDay(lines);
    CollectSpec(RenderAll(lines, ch), 0);
    RenderAllFails(lines, ch);
  }

  /** When `form_schedule` returns, its result has the same number of lines as
      its input and line `k` of the result is line `k` of the input, rendered. */
  lemma FormScheduleRendered(schedule: string)
    ensures var lines := Split(schedule);
      FormScheduleText(schedule).Ok? ==>
        var out := Split(FormScheduleText(schedule).value);
        |out| == |lines| &&
        forall k :: 0 <= k < |lines| ==> RenderLine(lines[k], ClassHourDay(lines)) == Ok(out[k])
  {
    var lines := Split(schedule);
    var ch := ClassHourDay(lines);
    var rs := RenderAll(lines, ch);
    if Collect(rs, 0).Ok? {
      CollectSpec(rs, 0);
      var r := Collect(rs, 0).value;
      forall k | 0 <= k < |r|
        ensures RenderLine(lines[k], ch) == Ok(r[k]) && '\n' !in r[k]
      {
        assert rs[k] == RenderLine(lines[k], ch);
        RenderLineNoBreak(lines[k], ch);
      }
      SplitJoin(r);
    }
  }

  /** A text none of whose lines names the class hour never raises. */
  lemma OrdinaryDayNeverFails(schedule: string)
    requires !ClassHourDay(Split(schedule))
    ensures FormScheduleText(schedule).Ok?
  {
    FormScheduleFails(schedule);
  }

  // ----- the operation -----

  /** `form_schedule`: splits the text into lines, overwrites each line of the
      list in place with its rendered form, and joins the list again; a lesson 7
      on a class-hour day raises `KeyError`. */
  method FormSchedule(schedule: string) returns (r: Result<string, Fault>)
    ensures r == FormScheduleText(schedule)
  {
    var lines := Split(schedule);
    var scheduleText := lines;
    var classHourDay := ClassHourDay(scheduleText);
    ghost var rs := RenderAll(lines, classHourDay);
    AppendEmpty(Collect(rs, 0));
    var i := 0;
    while i < |scheduleText|
      invariant i <= |scheduleText| == |lines|
      invariant forall k :: i <= k < |lines| ==> scheduleText[k] == lines[k]
      invariant Collect(rs, 0) == Append(Ok(scheduleText[..i]), Collect(rs, i))
    {
      var line := scheduleText[i];
      ghost var done := scheduleText[..i];
      NextResult(rs, i, done);
      TakeNext(scheduleText, i);
      var scheduleTextStr := "";
      if Strip(line) != "" && line != "" && IsDigit(line[0]) {
        var pairNumber := DigitValue(line[0]);
        if classHourDay && pairNumber in StandardTimes {
          if pairNumber !in ExtendedTimes {
            return Failure(KeyError(pairNumber));
          }
          scheduleTextStr := Clock + scheduleText[i] + " " + ExtendedTimes[pairNumber];
        } else if pairNumber in StandardTimes {
          scheduleTextStr := Clock + scheduleText[i] + " " + StandardTimes[pairNumber];
        }
        TakeUpdate(scheduleText, i, scheduleTextStr);
        scheduleText := scheduleText[i := scheduleTextStr];
      } else if Contains(line, ClassHour) {
        TakeUpdate(scheduleText, i, Clock + line);
        scheduleText := scheduleText[i := Clock + line];
      }
      i := i + 1;
    }
    TakeAll(scheduleText);
    AppendNil(scheduleText);
    r := Ok(Join(scheduleText));
  }
}
