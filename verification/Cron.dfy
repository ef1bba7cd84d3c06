/** Job schedules: seven space-separated cron fields on one side, a structure on the other. */
module Cron {
  import opened Wrappers
  import opened GoStrings

  datatype Schedule = Schedule(
    seconds: string,
    minute: string,
    hour: string,
    dayOfMonth: string,
    month: string,
    dayOfWeek: string,
    year: string)

  /** The two day fields exclude each other: exactly one is "?", unless neither restricts the days. */
  predicate DayRule(dayOfMonth: string, dayOfWeek: string) {
    (dayOfMonth == "*" && dayOfWeek == "*") || (dayOfMonth == "?") != (dayOfWeek == "?")
  }

  function FieldsOf(s: Schedule): seq<string> {
    [s.seconds, s.minute, s.hour, s.dayOfMonth, s.month, s.dayOfWeek, s.year]
  }

  function OfFields(fields: seq<string>): Schedule
    requires |fields| == 7
  {
    Schedule(fields[0], fields[1], fields[2], fields[3], fields[4], fields[5], fields[6])
  }

  /** `JobScheduleFromResourceData`, on a non-empty spec. */
  function ParseCron(spec: string): (r: Result<Schedule>)
    ensures r.Success? <==> |Split(spec, ' ')| == 7 && DayRule(Split(spec, ' ')[3], Split(spec, ' ')[5])
    ensures r.Success? ==> FieldsOf(r.value) == Split(spec, ' ')
  {
    var schedule := Split(spec, ' ');
    if |schedule| != 7 then Failure
    else if schedule[3] == schedule[5] then
      if schedule[3] != "*" then Failure else Success(OfFields(schedule))
    else if schedule[3] != "?" && schedule[5] != "?" then Failure
    else Success(OfFields(schedule))
  }

  /** The schedule with its blank day fields filled in. */
  function Filled(s: Schedule): Schedule {
    if s.dayOfMonth == "" && s.dayOfWeek == "" then s.(dayOfMonth := "*", dayOfWeek := "*")
    else if s.dayOfMonth == "" then s.(dayOfMonth := if s.dayOfWeek == "*" then "*" else "?")
    else if s.dayOfWeek == "" then s.(dayOfWeek := if s.dayOfMonth == "*" then "*" else "?")
    else s
  }

  function PrintCron(s: Schedule): string {
    Join(FieldsOf(Filled(s)), ' ')
  }

  /** A schedule as the job converters hold it; printing fills its blank day fields in place. */
  class JobSchedule {
    var seconds: string
    var minute: string
    var hour: string
    var dayOfMonth: string
    var month: string
    var dayOfWeek: string
    var year: string

    constructor (s: Schedule)
      ensures Value() == s
    {
      seconds, minute, hour := s.seconds, s.minute, s.hour;
      dayOfMonth, month, dayOfWeek, year := s.dayOfMonth, s.month, s.dayOfWeek, s.year;
    }

    function Value(): Schedule
      reads this
    {
      Schedule(seconds, minute, hour, dayOfMonth, month, dayOfWeek, year)
    }

    /** `scheduleToCronSpec`. */
    method ToCronSpec() returns (spec: string)
      modifies this
      ensures Value() == Filled(old(Value()))
      ensures spec == PrintCron(old(Value()))
    {
      if dayOfMonth == "" {
        if dayOfWeek == "*" || dayOfWeek == "" {
          dayOfMonth := "*";
        } else {
          dayOfMonth := "?";
        }
      }
      if dayOfWeek == "" {
        if dayOfMonth == "*" {
          dayOfWeek := "*";
        } else {
          dayOfWeek := "?";
        }
      }
      var cronSpec: seq<string> := [];
      cronSpec := cronSpec + [seconds];
      cronSpec := cronSpec + [minute];
      cronSpec := cronSpec + [hour];
      cronSpec := cronSpec + [dayOfMonth];
      cronSpec := cronSpec + [month];
      cronSpec := cronSpec + [dayOfWeek];
      cronSpec := cronSpec + [year];
      assert cronSpec == FieldsOf(Value());
      return Join(cronSpec, ' ');
    }
  }

  lemma FillIsIdempotent(s: Schedule)
    ensures Filled(Filled(s)) == Filled(s)
    ensures Filled(s) == s <==> s.dayOfMonth != "" && s.dayOfWeek != ""
  {
  }

  lemma FieldsDetermine(s: Schedule, t: Schedule)
    requires FieldsOf(s) == FieldsOf(t)
    ensures s == t
  {
    assert FieldsOf(s)[0] == s.seconds && FieldsOf(s)[1] == s.minute && FieldsOf(s)[2] == s.hour;
    assert FieldsOf(s)[3] == s.dayOfMonth && FieldsOf(s)[4] == s.month && FieldsOf(s)[5] == s.dayOfWeek;
    assert FieldsOf(s)[6] == s.year;
  }

  ghost predicate SpaceFree(s: Schedule) {
    Lacks(FieldsOf(s), ' ')
  }

  /** Printing a parsed schedule gives the original text back, exactly when neither day field is blank. */
  lemma PrintParsedExactly(spec: string)
    requires ParseCron(spec).Success?
    ensures PrintCron(ParseCron(spec).value) == spec <==>
            ParseCron(spec).value.dayOfMonth != "" && ParseCron(spec).value.dayOfWeek != ""
  {
    var s := ParseCron(spec).value;
    JoinSplit(spec, ' ');
    FillIsIdempotent(s);
    if PrintCron(s) == spec {
      SplitJoin(FieldsOf(Filled(s)), ' ');
      FieldsDetermine(Filled(s), s);
    }
  }

  /** A spec that is accepted with a blank day field is never printed in an acceptable form. */
  lemma BlankDayIsNotPrinted(spec: string)
    requires ParseCron(spec).Success?
    ensures var s := ParseCron(spec).value;
            s.dayOfMonth == "" || s.dayOfWeek == "" ==> ParseCron(PrintCron(s)).Failure?
  {
    var s := ParseCron(spec).value;
    ParsePrintedExactly(s);
    assert FieldsOf(s)[3] == s.dayOfMonth && FieldsOf(s)[5] == s.dayOfWeek;
  }

  /** The day fields that a schedule prints in an acceptable form. */
  predicate PrintableDays(dayOfMonth: string, dayOfWeek: string) {
    if dayOfMonth == "" && dayOfWeek == "" then true
    else if dayOfMonth == "" then dayOfWeek != "?"
    else if dayOfWeek == "" then dayOfMonth != "?"
    else DayRule(dayOfMonth, dayOfWeek)
  }

  /** For any schedule whatever, such as a server's: its printed form is accepted and parses to the
      filled schedule exactly when no field has a space and the day fields are printable. */
  lemma ParsePrintedExactly(s: Schedule)
    ensures ParseCron(PrintCron(s)) == Success(Filled(s)) <==> SpaceFree(s) && PrintableDays(s.dayOfMonth, s.dayOfWeek)
    ensures ParseCron(PrintCron(s)).Success? ==> SpaceFree(s) && PrintableDays(s.dayOfMonth, s.dayOfWeek)
  {
    var fields := FieldsOf(Filled(s));
    SpaceFreeFill(s);
    DayRuleOfFilled(s);
    if SpaceFree(s) {
      SplitJoin(fields, ' ');
      if ParseCron(PrintCron(s)).Success? {
        FieldsDetermine(ParseCron(PrintCron(s)).value, Filled(s));
      }
    } else {
      JoinedParts(fields, ' ');
    }
  }

  lemma SpaceFreeFill(s: Schedule)
    ensures SpaceFree(Filled(s)) <==> SpaceFree(s)
  {
    var f := Filled(s);
    assert ' ' !in f.dayOfMonth <==> ' ' !in s.dayOfMonth;
    assert ' ' !in f.dayOfWeek <==> ' ' !in s.dayOfWeek;
    assert forall t: Schedule :: SpaceFree(t) <==>
      ' ' !in t.seconds && ' ' !in t.minute && ' ' !in t.hour && ' ' !in t.dayOfMonth && ' ' !in t.month &&
      ' ' !in t.dayOfWeek && ' ' !in t.year by {
      forall t: Schedule ensures SpaceFree(t) <==>
        ' ' !in t.seconds && ' ' !in t.minute && ' ' !in t.hour && ' ' !in t.dayOfMonth && ' ' !in t.month &&
        ' ' !in t.dayOfWeek && ' ' !in t.year {
        SpaceFreeFields(t);
      }
    }
  }

  lemma SpaceFreeFields(t: Schedule)
    ensures SpaceFree(t) <==>
            ' ' !in t.seconds && ' ' !in t.minute && ' ' !in t.hour && ' ' !in t.dayOfMonth && ' ' !in t.month &&
            ' ' !in t.dayOfWeek && ' ' !in t.year
  {
    var f := FieldsOf(t);
    assert f[0] == t.seconds && f[1] == t.minute && f[2] == t.hour && f[3] == t.dayOfMonth;
    assert f[4] == t.month && f[5] == t.dayOfWeek && f[6] == t.year;
  }

  lemma DayRuleOfFilled(s: Schedule)
    ensures DayRule(Filled(s).dayOfMonth, Filled(s).dayOfWeek) <==> PrintableDays(s.dayOfMonth, s.dayOfWeek)
  {
  }

  /** Joining never yields fewer parts, and it yields more when an item holds the separator. */
  lemma {:induction false} JoinedParts(parts: seq<string>, sep: char)
    requires |parts| > 0
    ensures |Split(Join(parts, sep), sep)| >= |parts|
    ensures !Lacks(parts, sep) ==> |Split(Join(parts, sep), sep)| > |parts|
  {
    PartsOf(parts[0], sep);
    if |parts| > 1 {
      JoinedParts(parts[1..], sep);
      SplitAppend(parts[0], Join(parts[1..], sep), sep);
      if sep !in parts[0] && !Lacks(parts, sep) {
        var i :| 0 <= i < |parts| && sep in parts[i];
        assert parts[1..][i - 1] == parts[i];
      }
    }
  }

  lemma PartsOf(s: string, sep: char)
    ensures sep in s ==> |Split(s, sep)| > 1
  {
    JoinSplit(s, sep);
  }

  // ---------------------------------------------------------------- What specs and schedules say

  lemma JoinedText(a: string, b: string, c: string, d: string, e: string, f: string, g: string)
    ensures Join([a, b, c, d, e, f, g], ' ') == a + " " + b + " " + c + " " + d + " " + e + " " + f + " " + g
  {
    var s := [a, b, c, d, e, f, g];
    assert s[6..] == [g];
    forall i: nat | i < 6 ensures Join(s[i..], ' ') == s[i] + " " + Join(s[i + 1..], ' ') {
      assert s[i..][1..] == s[i + 1..];
    }
    assert s[0..] == s;
    var t := e + " " + (f + " " + g);
    assert Join(s[4..], ' ') == t;
    assert Join(s[2..], ' ') == c + " " + (d + " " + t);
  }

  /** The text of any schedule: a blank day field is printed as "*" beside one that restricts nothing
      either, and as "?" beside any other. */
  lemma PrintedText(s: Schedule)
    ensures var day := if s.dayOfMonth != "" then s.dayOfMonth
                       else if s.dayOfWeek == "" || s.dayOfWeek == "*" then "*" else "?";
            var weekday := if s.dayOfWeek != "" then s.dayOfWeek
                           else if s.dayOfMonth == "" || s.dayOfMonth == "*" then "*" else "?";
            PrintCron(s) == s.seconds + " " + s.minute + " " + s.hour + " " + day + " " + s.month + " " + weekday +
                            " " + s.year
  {
    var f := Filled(s);
    JoinedText(f.seconds, f.minute, f.hour, f.dayOfMonth, f.month, f.dayOfWeek, f.year);
  }

  /** What an accepted spec means, and which ones are accepted, field by field. */
  lemma ParsedTextExactly(seconds: string, minute: string, hour: string, dayOfMonth: string, month: string,
                          dayOfWeek: string, year: string)
    requires forall f :: f in [seconds, minute, hour, dayOfMonth, month, dayOfWeek, year] ==> ' ' !in f
    ensures ParseCron(seconds + " " + minute + " " + hour + " " + dayOfMonth + " " + month + " " + dayOfWeek + " " +
                      year)
            == if (dayOfMonth == "*" && dayOfWeek == "*") || (dayOfMonth == "?" && dayOfWeek != "?") ||
                  (dayOfMonth != "?" && dayOfWeek == "?")
               then Success(Schedule(seconds, minute, hour, dayOfMonth, month, dayOfWeek, year)) else Failure
  {
    var fields := [seconds, minute, hour, dayOfMonth, month, dayOfWeek, year];
    JoinedText(seconds, minute, hour, dayOfMonth, month, dayOfWeek, year);
    SplitJoin(fields, ' ');
    assert OfFields(fields) == Schedule(seconds, minute, hour, dayOfMonth, month, dayOfWeek, year);
  }

  /** How blank day fields are printed: the one that is blank restricts the days no more than the other. */
  lemma BlankDaysPrinted(s: Schedule)
    requires ParseCron(PrintCron(s)).Success?
    ensures ParseCron(PrintCron(s)).value == s.(
              dayOfMonth := if s.dayOfMonth != "" then s.dayOfMonth
                            else if s.dayOfWeek == "" || s.dayOfWeek == "*" then "*" else "?",
              dayOfWeek := if s.dayOfWeek != "" then s.dayOfWeek
                           else if s.dayOfMonth == "" || s.dayOfMonth == "*" then "*" else "?")
  {
    ParsePrintedExactly(s);
  }

  /** There are specs with a blank day field: one with two adjacent spaces before the month and "?" for the
      weekday. */
  lemma BlankDayIsAccepted(spec: string)
    requires spec == "0 0 12  * ? *"
    ensures ParseCron(spec) == Success(Schedule("0", "0", "12", "", "*", "?", "*"))
  {
    ParsedTextExactly("0", "0", "12", "", "*", "?", "*");
    SpecText(spec);
  }

  lemma SpecText(spec: string)
    requires spec == "0 0 12  * ? *"
    ensures "0" + " " + "0" + " " + "12" + " " + "" + " " + "*" + " " + "?" + " " + "*" == spec
  {
  }
}
