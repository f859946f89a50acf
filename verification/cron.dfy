/** The five-field cron subset of the schedule components: the builder's
    description, build and parse (src/components/schedule/cron-builder.tsx)
    and the list's own shorter description
    (src/components/schedule/schedule-list.tsx). Fields are separated by
    single spaces, as `split(' ')` sees them. */
module Cron {
  import opened Common
  import opened Text

  const Presets: seq<string> :=
    ["0 * * * *", "0 9 * * *", "0 9 * * MON-FRI", "0 9 * * MON", "0 0 * * SUN", "0 0 1 * *"]

  const Weekdays: seq<string> := ["MON", "TUE", "WED", "THU", "FRI"]
  const AllDays: seq<string> := ["MON", "TUE", "WED", "THU", "FRI", "SAT", "SUN"]

  const Invalid := "Invalid expression"

  predicate NoSpace(s: string) {
    ' ' !in s
  }

  /** A cron string made of five space-free fields splits back into them. */
  lemma FiveFields(a: string, b: string, c: string, d: string, e: string)
    ensures NoSpace(a) && NoSpace(b) && NoSpace(c) && NoSpace(d) && NoSpace(e) ==>
              Split(Join([a, b, c, d, e], ' '), ' ') == [a, b, c, d, e]
  {
    if NoSpace(a) && NoSpace(b) && NoSpace(c) && NoSpace(d) && NoSpace(e) {
      SplitJoin([a, b, c, d, e], ' ');
    }
  }

  function Hour(hour: string): string {
    PadStart2(hour) + ":00"
  }

  /** The fields of the two expressions both descriptions single out. */
  const Hourly: seq<string> := ["0", "*", "*", "*", "*"]
  const Midnight: seq<string> := ["0", "0", "*", "*", "*"]

  /** Comparing the fields is comparing the whole string: a string splits
      into given space-free fields exactly when it is their join. */
  lemma SameExpression(cron: string, fields: seq<string>)
    requires |fields| >= 1 && forall k :: 0 <= k < |fields| ==> NoSpace(fields[k])
    ensures Split(cron, ' ') == fields <==> cron == Join(fields, ' ')
  {
    JoinSplit(cron, ' ');
    SplitJoin(fields, ' ');
  }

  lemma HourlyText()
    ensures Join(Hourly, ' ') == "0 * * * *"
  {
    assert Join(Hourly[3..], ' ') == "* *";
    assert Join(Hourly[2..], ' ') == "* * *";
    assert Join(Hourly[1..], ' ') == "* * * *";
  }

  lemma MidnightText()
    ensures Join(Midnight, ' ') == "0 0 * * *"
  {
    assert Join(Midnight[3..], ' ') == "* *";
    assert Join(Midnight[2..], ' ') == "* * *";
    assert Join(Midnight[1..], ' ') == "0 * * *";
  }

  /** The descriptions test `cron === '0 * * * *'` and
      `cron === '0 0 * * *'` by their fields. */
  lemma FieldTestsAreStringTests(cron: string)
    ensures Split(cron, ' ') == Hourly <==> cron == "0 * * * *"
    ensures Split(cron, ' ') == Midnight <==> cron == "0 0 * * *"
  {
    SameExpression(cron, Hourly);
    SameExpression(cron, Midnight);
    HourlyText();
    MidnightText();
  }

  // ----- the builder's description ----------------------------------------------------

  /** The builder's `describeCron`. Only a string without five fields is
      called invalid. */
  function Describe(cron: string): (r: string)
    ensures r == Invalid <==> |Split(cron, ' ')| != 5
  {
    var parts := Split(cron, ' ');
    if |parts| != 5 then Invalid
    else if parts == Hourly then "Every hour at minute 0"
    else if parts == Midnight then "Every day at midnight"
    else
      var minute, hour, dom, month, dow := parts[0], parts[1], parts[2], parts[3], parts[4];
      var r :=
        if minute == "0" && hour != "*" && dom == "*" && month == "*" then DayRule(hour, dow)
        else "At " + minute + " minutes past " + (if hour == "*" then "every hour" else hour + ":00");
      assert r[0] != Invalid[0];
      r
  }

  /** The builder's wording for an expression at minute '0' of a given
      hour on every day of the month. */
  function DayRule(hour: string, dow: string): (r: string)
    ensures |r| > 0 && r[0] == 'E'
  {
    if dow == "*" then "Every day at " + Hour(hour)
    else if dow == "MON-FRI" then "Every weekday at " + Hour(hour)
    else "Every " + dow + " at " + Hour(hour)
  }

  // ----- the list's description ---------------------------------------------------------

  /** The list's `describeCron` as written: it never looks at the
      day-of-month and month fields. */
  function ListDescribeAsWritten(cron: string): (r: string)
    ensures |Split(cron, ' ')| != 5 ==> r == cron
  {
    var parts := Split(cron, ' ');
    if |parts| != 5 then cron
    else if parts == Hourly then "Every hour"
    else if parts == Midnight then "Daily at midnight"
    else
      var minute, hour, dow := parts[0], parts[1], parts[4];
      if minute == "0" && hour != "*" then
        if dow == "*" then "Daily at " + Hour(hour)
        else if dow == "MON-FRI" then "Weekdays at " + Hour(hour)
        else dow + " at " + Hour(hour)
      else cron
  }

  /** The list's description with the day-of-month and month test the
      builder's version makes: a schedule bound to a day of the month or
      to a month is shown as its raw expression. */
  function ListDescribe(cron: string): (r: string)
    ensures |Split(cron, ' ')| != 5 ==> r == cron
    ensures |Split(cron, ' ')| == 5 && (Split(cron, ' ')[2] != "*" || Split(cron, ' ')[3] != "*") ==> r == cron
  {
    var parts := Split(cron, ' ');
    if |parts| == 5 && parts[2] == "*" && parts[3] == "*" then ListDescribeAsWritten(cron)
    else cron
  }

  /** As written, the list calls every expression with minute '0', an
      hour other than '0' or '*' and day-of-week '*' daily, whatever its
      day-of-month and month say. */
  lemma ListIgnoresDayOfMonth(cron: string, hour: string, dom: string, month: string)
    requires Split(cron, ' ') == ["0", hour, dom, month, "*"] && hour != "*"
    requires hour != "0" || dom != "*" || month != "*"
    ensures ListDescribeAsWritten(cron) == "Daily at " + Hour(hour)
  {
  }

  /** The builder describes the same expressions as a single time when
      day-of-month or month is set. */
  lemma BuilderHonoursDayOfMonth(cron: string, hour: string, dom: string, month: string)
    requires Split(cron, ' ') == ["0", hour, dom, month, "*"] && hour != "*"
    requires dom != "*" || month != "*"
    ensures Describe(cron) == "At 0 minutes past " + hour + ":00"
  {
    var parts := Split(cron, ' ');
    assert parts != Hourly && parts != Midnight;
    assert Describe(cron) == "At " + "0" + " minutes past " + (hour + ":00");
    AtMinuteZero(hour);
  }

  lemma AtMinuteZero(hour: string)
    ensures "At " + "0" + " minutes past " + (hour + ":00") == "At 0 minutes past " + hour + ":00"
  {
  }

  /** The monthly preset is shown in the list as a daily schedule, while
      the builder describes it as a single time and the corrected list
      shows the raw expression. */
  lemma MonthlyPresetShownAsDaily()
    ensures "0 0 1 * *" in Presets
    ensures ListDescribeAsWritten("0 0 1 * *") == "Daily at 00:00"
    ensures Describe("0 0 1 * *") == "At 0 minutes past 0:00"
    ensures ListDescribe("0 0 1 * *") == "0 0 1 * *"
  {
    MonthlyFields();
    MonthlyShape("0 0 1 * *");
  }

  /** Any expression with the monthly preset's fields. */
  lemma MonthlyShape(cron: string)
    requires Split(cron, ' ') == ["0", "0", "1", "*", "*"]
    ensures ListDescribeAsWritten(cron) == "Daily at 00:00"
    ensures Describe(cron) == "At 0 minutes past 0:00"
    ensures ListDescribe(cron) == cron
  {
    MonthlyTexts();
    ListIgnoresDayOfMonth(cron, "0", "1", "*");
    BuilderHonoursDayOfMonth(cron, "0", "1", "*");
  }

  const Monthly: seq<string> := ["0", "0", "1", "*", "*"]

  lemma MonthlyFields()
    ensures Split("0 0 1 * *", ' ') == ["0", "0", "1", "*", "*"]
  {
    MonthlyText();
    SameExpression("0 0 1 * *", Monthly);
  }

  lemma MonthlyText()
    ensures Join(Monthly, ' ') == "0 0 1 * *"
  {
    assert Join(Monthly[3..], ' ') == "* *";
    assert Join(Monthly[2..], ' ') == "1 * *";
    assert Join(Monthly[1..], ' ') == "0 1 * *";
  }

  lemma MonthlyTexts()
    ensures "Daily at " + Hour("0") == "Daily at 00:00"
    ensures "At " + "0" + " minutes past " + ("0" + ":00") == "At 0 minutes past 0:00"
  {
    assert Hour("0") == "00:00";
  }

  /** The correction changes nothing for every expression whose
      day-of-month and month are both '*'. */
  lemma CorrectionOnlyNarrows(cron: string)
    requires |Split(cron, ' ')| == 5 && Split(cron, ' ')[2] == "*" && Split(cron, ' ')[3] == "*"
    ensures ListDescribe(cron) == ListDescribeAsWritten(cron)
  {
  }

  // ----- building from selections ---------------------------------------------------------

  datatype Selection = Selection(days: seq<string>, hour: string, minute: string)

  const InitialSelection := Selection(Weekdays, "9", "0")

  /** The day-of-week field: none or all seven days are '*', exactly the
      five weekdays are 'MON-FRI', anything else is listed in selection
      order. */
  function DayField(days: seq<string>): string {
    if |days| == 7 || |days| == 0 then "*"
    else if |days| == 5 && forall d :: d in Weekdays ==> d in days then "MON-FRI"
    else Join(days, ',')
  }

  /** `${minute} ${hour} * * ${dayOfWeek}` */
  function BuildCron(sel: Selection): (r: string)
    ensures NoSpace(sel.minute) && NoSpace(sel.hour) && NoSpace(DayField(sel.days)) ==>
              Split(r, ' ') == [sel.minute, sel.hour, "*", "*", DayField(sel.days)]
  {
    FiveFields(sel.minute, sel.hour, "*", "*", DayField(sel.days));
    Join([sel.minute, sel.hour, "*", "*", DayField(sel.days)], ' ')
  }

  /** The day selection read back from a day-of-week field. */
  function ParseDays(dow: string): (r: seq<string>)
    ensures |r| >= 1
  {
    if dow == "*" then AllDays
    else if dow == "MON-FRI" then Weekdays
    else Split(dow, ',')
  }

  /** The parse in the value effect: a '*' minute or hour reads as '0';
      a value without five fields leaves the selections as they were. */
  function Parse(sel: Selection, value: string): (r: Selection)
    ensures |Split(value, ' ')| != 5 ==> r == sel
    ensures |Split(value, ' ')| == 5 ==> r.minute != "*" && r.hour != "*"
  {
    var parts := Split(value, ' ');
    if |parts| == 5 then
      Selection(ParseDays(parts[4]),
                if parts[1] == "*" then "0" else parts[1],
                if parts[0] == "*" then "0" else parts[0])
    else sel
  }

  predicate DayName(d: string) {
    d in AllDays
  }

  /** A selection the builder's controls can produce: hour and minute
      from the drop-downs, days from the seven checkboxes. */
  predicate WellFormed(sel: Selection) {
    && NoSpace(sel.minute) && sel.minute != "*"
    && NoSpace(sel.hour) && sel.hour != "*"
    && forall i :: 0 <= i < |sel.days| ==> DayName(sel.days[i])
  }

  lemma DayNamesHaveNoSeparators(days: seq<string>)
    requires forall i :: 0 <= i < |days| ==> DayName(days[i])
    ensures forall i :: 0 <= i < |days| ==> ',' !in days[i] && ' ' !in days[i]
  {
  }

  lemma DayFieldHasNoSpace(days: seq<string>)
    requires forall i :: 0 <= i < |days| ==> ' ' !in days[i]
    ensures NoSpace(DayField(days))
  {
    if !(|days| == 7 || |days| == 0) && !(|days| == 5 && forall d :: d in Weekdays ==> d in days) {
      JoinWithout(days, ',', ' ');
    }
  }

  /** Joining parts that avoid a character other than the separator gives
      a string that avoids it too. */
  lemma {:induction false} JoinWithout(parts: seq<string>, sep: char, c: char)
    requires c != sep
    requires forall i :: 0 <= i < |parts| ==> c !in parts[i]
    ensures c !in Join(parts, sep)
  {
    if |parts| > 1 {
      JoinWithout(parts[1..], sep, c);
    }
  }

  /** Building, reading the built value back and building again gives the
      same expression: once the parent adopts what the sync effect sent,
      the value effect reads it back to a selection that builds it again.
      The first commit and the expressions the selection cannot hold are
      another matter (see `MountAsWritten` and `HourlyPresetBecomesDaily`). */
  lemma BuildParseBuild(sel: Selection, any: Selection)
    requires WellFormed(sel)
    ensures BuildCron(Parse(any, BuildCron(sel))) == BuildCron(sel)
  {
    DayNamesHaveNoSeparators(sel.days);
    DayFieldHasNoSpace(sel.days);
    var field := DayField(sel.days);
    var back := Parse(any, BuildCron(sel));
    assert back == Selection(ParseDays(field), sel.hour, sel.minute);
    ParsedDayField(sel.days);
  }

  /** What the builder shows for the expression it builds itself at
      minute '0': the day rule read off its own day field (only midnight
      on every day has its own wording). */
  lemma DescribeBuilt(sel: Selection)
    requires WellFormed(sel) && sel.minute == "0"
    requires !(sel.hour == "0" && DayField(sel.days) == "*")
    ensures var f := DayField(sel.days);
            Describe(BuildCron(sel))
            == if f == "*" then "Every day at " + Hour(sel.hour)
               else if f == "MON-FRI" then "Every weekday at " + Hour(sel.hour)
               else "Every " + f + " at " + Hour(sel.hour)
  {
    DayNamesHaveNoSeparators(sel.days);
    DayFieldHasNoSpace(sel.days);
    DescribeDaily(BuildCron(sel), sel.hour, DayField(sel.days));
  }

  lemma DescribeDaily(cron: string, hour: string, f: string)
    requires Split(cron, ' ') == ["0", hour, "*", "*", f] && hour != "*"
    requires !(hour == "0" && f == "*")
    ensures Describe(cron) == DayRule(hour, f)
  {
    var parts := Split(cron, ' ');
    assert |parts| == 5 && parts[0] == "0" && parts[1] == hour && parts[2] == "*" && parts[3] == "*" && parts[4] == f;
    DescribeDailyFields(cron, parts);
  }

  lemma DescribeDailyFields(cron: string, parts: seq<string>)
    requires parts == Split(cron, ' ')
    requires |parts| == 5 && parts[0] == "0" && parts[1] != "*" && parts[2] == "*" && parts[3] == "*"
    requires !(parts[1] == "0" && parts[4] == "*")
    ensures Describe(cron) == DayRule(parts[1], parts[4])
  {
    assert parts != Hourly by { assert parts[1] != Hourly[1]; }
    assert parts != Midnight by {
      if parts[1] == "0" { assert parts[4] != Midnight[4]; } else { assert parts[1] != Midnight[1]; }
    }
  }

  /** Reading a built day field back and rebuilding it gives the same
      field. */
  lemma ParsedDayField(days: seq<string>)
    requires forall i :: 0 <= i < |days| ==> DayName(days[i])
    ensures DayField(ParseDays(DayField(days))) == DayField(days)
  {
    var field := DayField(days);
    if |days| == 7 || |days| == 0 {
      assert ParseDays(field) == AllDays;
    } else if |days| == 5 && forall d :: d in Weekdays ==> d in days {
      assert ParseDays(field) == Weekdays;
      assert forall d :: d in Weekdays ==> d in Weekdays;
    } else {
      DayNamesHaveNoSeparators(days);
      SplitJoin(days, ',');
      DayNameIsNoKeyword(days[0]);
      JoinIsNoKeyword(days);
      assert ParseDays(field) == days;
    }
  }

  /** A comma-join of day names is neither '*' nor 'MON-FRI'. */
  lemma JoinIsNoKeyword(days: seq<string>)
    requires |days| >= 1 && days[0] != "*" && days[0] != "MON-FRI"
    requires Split(Join(days, ','), ',') == days
    ensures Join(days, ',') != "*" && Join(days, ',') != "MON-FRI"
  {
    JoinIsNotStar(days);
    JoinIsNotWeekdays(days);
  }

  lemma JoinIsNotStar(days: seq<string>)
    requires |days| >= 1 && days[0] != "*"
    requires Split(Join(days, ','), ',') == days
    ensures Join(days, ',') != "*"
  {
    NoCommaInKeywords();
    NotAJoinOf(days, "*");
  }

  lemma JoinIsNotWeekdays(days: seq<string>)
    requires |days| >= 1 && days[0] != "MON-FRI"
    requires Split(Join(days, ','), ',') == days
    ensures Join(days, ',') != "MON-FRI"
  {
    NoCommaInKeywords();
    NotAJoinOf(days, "MON-FRI");
  }

  lemma NoCommaInKeywords()
    ensures ',' !in "*" && ',' !in "MON-FRI"
  {
    var w := "MON-FRI";
    assert forall i :: 0 <= i < |w| ==> w[i] != ',';
  }

  /** A separator-free word whose split is not the parts is not their
      join. */
  lemma NotAJoinOf(parts: seq<string>, w: string)
    requires |parts| >= 1 && ',' !in w && parts[0] != w
    requires Split(Join(parts, ','), ',') == parts
    ensures Join(parts, ',') != w
  {
    SplitWithout(w, ',');
  }

  lemma DayNameIsNoKeyword(d: string)
    requires DayName(d)
    ensures d != "*" && d != "MON-FRI"
  {
    assert |d| == 3;
  }

  lemma KeywordsAreNoDays()
    ensures !DayName("*") && !DayName("MON-FRI")
  {
  }

  // ----- the day round trip ----------------------------------------------------------

  function Elems(s: seq<string>): set<string> {
    set x | x in s
  }

  lemma {:induction false} DistinctCard(s: seq<string>)
    requires NoDuplicates(s)
    ensures |Elems(s)| == |s|
  {
    if |s| > 0 {
      DistinctCard(s[1..]);
      assert Elems(s) == {s[0]} + Elems(s[1..]);
      assert s[0] !in Elems(s[1..]) by {
        forall k | 0 <= k < |s[1..]| ensures s[1..][k] != s[0] {
          assert s[1..][k] == s[k + 1];
        }
      }
    } else {
      assert Elems(s) == {};
    }
  }

  lemma {:induction false} CardAtMost(s: seq<string>)
    ensures |Elems(s)| <= |s|
  {
    if |s| > 0 {
      CardAtMost(s[1..]);
      assert Elems(s) == {s[0]} + Elems(s[1..]);
    } else {
      assert Elems(s) == {};
    }
  }

  lemma {:induction false} SubsetCard(a: set<string>, b: set<string>)
    requires a <= b
    ensures |a| <= |b|
    decreases |a|
  {
    if a != {} {
      var x :| x in a;
      SubsetCard(a - {x}, b - {x});
    }
  }

  /** Pigeonhole: distinct elements of `b`, as many as `b` has, cover `b`. */
  lemma Covers(a: seq<string>, b: seq<string>)
    requires NoDuplicates(a) && |a| >= |b|
    requires forall i :: 0 <= i < |a| ==> a[i] in b
    ensures forall x :: x in b ==> x in a
  {
    forall y | y in b
      ensures y in a
    {
      if y !in a {
        DistinctCard(a);
        CardAtMost(b);
        assert Elems(a) <= Elems(b) - {y};
        SubsetCard(Elems(a), Elems(b) - {y});
        assert false;
      }
    }
  }

  /** A non-empty selection of distinct day names comes back from its
      built day field as the same set of days. */
  lemma DaysRoundTrip(days: seq<string>)
    requires |days| >= 1 && NoDuplicates(days)
    requires forall i :: 0 <= i < |days| ==> DayName(days[i])
    ensures forall d :: d in ParseDays(DayField(days)) <==> d in days
  {
    var field := DayField(days);
    if |days| == 7 {
      Covers(days, AllDays);
      assert ParseDays(field) == AllDays;
    } else if |days| == 5 && forall d :: d in Weekdays ==> d in days {
      assert ParseDays(field) == Weekdays;
      if exists d :: d in days && d !in Weekdays {
        var d :| d in days && d !in Weekdays;
        var six := Weekdays + [d];
        assert NoDuplicates(six);
        assert forall i :: 0 <= i < |six| ==> six[i] in days;
        DistinctCard(six);
        CardAtMost(days);
        assert Elems(six) <= Elems(days);
        SubsetCard(Elems(six), Elems(days));
        assert false;
      }
    } else {
      DayNamesHaveNoSeparators(days);
      SplitJoin(days, ',');
      DayNameIsNoKeyword(days[0]);
      JoinIsNoKeyword(days);
    }
  }

  /** An empty selection builds '*', which reads back as all seven days. */
  lemma EmptySelectionMeansEveryDay()
    ensures ParseDays(DayField([])) == AllDays
  {
  }

  // ----- the builder's state ---------------------------------------------------------

  datatype Mode = PresetMode | CustomMode

  datatype Builder = Builder(mode: Mode, sel: Selection, customCron: string)

  function InitialBuilder(value: string): Builder {
    Builder(PresetMode, InitialSelection, value)
  }

  /** The value effect: preset mode iff the value is one of the presets;
      otherwise the value also becomes the custom text. */
  function OnValue(b: Builder, value: string): (r: Builder)
    ensures r.mode == PresetMode <==> value in Presets
    ensures value !in Presets ==> r.customCron == value
    ensures value in Presets ==> r.customCron == b.customCron
    ensures r.sel == Parse(b.sel, value)
  {
    Builder(if value in Presets then PresetMode else CustomMode,
            Parse(b.sel, value),
            if value in Presets then b.customCron else value)
  }

  /** `handleDayToggle`: removes a selected day, appends another. */
  function ToggleDay(days: seq<string>, day: string): (r: seq<string>)
    ensures day in r <==> day !in days
    ensures forall d :: d != day ==> (d in r <==> d in days)
    ensures day !in days ==> r == days + [day]
    ensures day in days ==> KeptInOrder(r, days, IsNot(day))
  {
    Toggle(days, day)
  }

  /** Unticking Monday from Monday, Wednesday and Friday leaves Wednesday
      and Friday in that order, and the day field joins them so. */
  lemma UntickKeepsOrder(days: seq<string>)
    requires days == ["MON", "WED", "FRI"]
    ensures ToggleDay(days, days[0]) == [days[1], days[2]]
    ensures DayField(ToggleDay(days, days[0])) == days[1] + "," + days[2]
  {
    var r := ToggleDay(days, days[0]);
    assert days[0] in days;
    assert KeptIndices(days, IsNot(days[0])) == [1, 2] by {
      var idx := KeptIndices(days, IsNot(days[0]));
      assert 1 in idx && 2 in idx;
      assert |idx| <= 2 by {
        assert forall k :: 0 <= k < |idx| ==> 1 <= idx[k] <= 2;
      }
      assert idx[0] < idx[1];
    }
    assert KeptElem(days, IsNot(days[0]), 0) == days[1];
    assert KeptElem(days, IsNot(days[0]), 1) == days[2];
    assert r == [days[1], days[2]];
  }

  /** Toggling keeps the selection a duplicate-free list of day names, so
      the day round trip applies to every selection the checkboxes can
      reach from the initial one. */
  lemma ToggleKeepsDayNames(days: seq<string>, day: string)
    requires NoDuplicates(days) && forall i :: 0 <= i < |days| ==> DayName(days[i])
    requires DayName(day)
    ensures NoDuplicates(ToggleDay(days, day))
    ensures forall i :: 0 <= i < |ToggleDay(days, day)| ==> DayName(ToggleDay(days, day)[i])
  {
    var r := ToggleDay(days, day);
    if day in days {
      FilterDistinct(days, IsNot(day));
    }
    forall i | 0 <= i < |r| ensures DayName(r[i]) {
      assert r[i] in r;
      if r[i] != day {
        var j :| 0 <= j < |days| && days[j] == r[i];
      }
    }
  }

  /** The sync effect: outside custom mode, a built expression that
      differs from the value is handed to `onChange`. */
  function Sync(b: Builder, value: string): (r: Option<string>)
    ensures b.mode == CustomMode ==> r.None?
    ensures r.Some? ==> r.value == BuildCron(b.sel) && r.value != value
    ensures b.mode == PresetMode && BuildCron(b.sel) != value ==> r.Some?
  {
    if b.mode == CustomMode then None
    else
      var built := BuildCron(b.sel);
      if built != value then Some(built) else None
  }

  /** Once the parent adopts an emitted expression and the value effect
      has run, the sync effect has nothing more to send. */
  lemma SyncSettles(b: Builder, value: string)
    requires WellFormed(b.sel) && Sync(b, value).Some?
    ensures Sync(OnValue(b, Sync(b, value).value), Sync(b, value).value).None?
  {
    BuildParseBuild(b.sel, b.sel);
  }

  // ----- the first commit and the preset buttons -------------------------------------------

  lemma InitialText()
    ensures BuildCron(InitialSelection) == "0 9 * * MON-FRI"
  {
    WeekdaysField();
    PresetText("0", "9", "MON-FRI", "0 9 * * MON-FRI");
  }

  lemma WeekdaysField()
    ensures DayField(Weekdays) == "MON-FRI"
  {
    assert forall d :: d in Weekdays ==> d in Weekdays;
  }

  /** The texts of the presets whose fields the selection can hold. */
  lemma PresetText(m: string, h: string, dow: string, text: string)
    requires m == "0" && (h == "9" || h == "0")
    requires text == m + " " + h + " * * " + dow
    ensures Join([m, h, "*", "*", dow], ' ') == text
  {
    var f := [m, h, "*", "*", dow];
    assert Join(f[3..], ' ') == "* " + dow;
    assert Join(f[2..], ' ') == "* * " + dow;
    assert Join(f[1..], ' ') == h + " * * " + dow;
  }

  /** The first commit as written: both effects run after the first
      render, and the sync effect still sees the initial preset mode and
      weekday selection, because the value effect's updates only show on
      the next render. The result is what reaches `onChange`: the default
      expression, for every value that is not already the default. */
  function MountAsWritten(value: string): (r: Option<string>)
    ensures r.Some? <==> value != BuildCron(InitialSelection)
    ensures r.Some? ==> r.value == BuildCron(InitialSelection)
  {
    Sync(InitialBuilder(value), value)
  }

  /** The first commit with the sync effect reading the builder the value
      effect produced: a value outside the presets switches to custom mode
      and is never sent back. */
  function Mount(value: string): (r: Option<string>)
    ensures value !in Presets ==> r.None?
    ensures r.Some? ==> value in Presets && r.value == BuildCron(Parse(InitialSelection, value)) && r.value != value
  {
    Sync(OnValue(InitialBuilder(value), value), value)
  }

  /** Opening a schedule at 14:30 every day: as written, the builder sends
      the weekday default to the form before it has read the value; with
      the effects in order it sends nothing. */
  lemma MountOverwritesCustom()
    ensures "30 14 * * *" !in Presets
    ensures MountAsWritten("30 14 * * *") == Some("0 9 * * MON-FRI")
    ensures Mount("30 14 * * *") == None
  {
    InitialText();
  }

  /** A five-field value whose day field reads back to itself, with a
      concrete minute and hour, is rebuilt unchanged. */
  lemma {:induction false} BuildsBack(any: Selection, m: string, h: string, dow: string)
    requires NoSpace(m) && NoSpace(h) && NoSpace(dow) && m != "*" && h != "*"
    requires DayField(ParseDays(dow)) == dow
    ensures BuildCron(Parse(any, Join([m, h, "*", "*", dow], ' '))) == Join([m, h, "*", "*", dow], ' ')
  {
    FiveFields(m, h, "*", "*", dow);
  }

  lemma SingleDayReadsBack(day: string)
    requires DayName(day)
    ensures DayField(ParseDays(day)) == day
  {
    DayNameIsNoKeyword(day);
    assert ',' !in day;
    SplitJoin([day], ',');
  }

  /** The four presets the selection can hold are rebuilt as they are, so
      the ordered first commit sends nothing for them either. */
  lemma MountQuietExceptTwo(value: string)
    requires value in Presets && value != "0 * * * *" && value != "0 0 1 * *"
    ensures Mount(value).None?
  {
    if value == "0 9 * * *" {
      QuietDaily(value);
    } else if value == "0 9 * * MON-FRI" {
      QuietWeekdays(value);
    } else if value == "0 9 * * MON" {
      QuietMonday(value);
    } else {
      QuietSunday(value);
    }
  }

  lemma QuietDaily(value: string)
    requires value == "0 9 * * *"
    ensures Mount(value).None?
  {
    assert DayField(ParseDays("*")) == "*";
    QuietPreset(value, "9", "*");
  }

  lemma QuietWeekdays(value: string)
    requires value == "0 9 * * MON-FRI"
    ensures Mount(value).None?
  {
    WeekdaysField();
    QuietPreset(value, "9", "MON-FRI");
  }

  lemma QuietMonday(value: string)
    requires value == "0 9 * * MON"
    ensures Mount(value).None?
  {
    SingleDayReadsBack("MON");
    QuietPreset(value, "9", "MON");
  }

  lemma QuietSunday(value: string)
    requires value == "0 0 * * SUN"
    ensures Mount(value).None?
  {
    SingleDayReadsBack("SUN");
    QuietPreset(value, "0", "SUN");
  }

  /** A preset at minute 0 whose day field reads back to itself. */
  lemma QuietPreset(value: string, h: string, dow: string)
    requires value in Presets && (h == "9" || h == "0")
    requires value == "0 " + h + " * * " + dow && NoSpace(dow)
    requires DayField(ParseDays(dow)) == dow
    ensures Mount(value).None?
  {
    PresetText("0", h, dow, value);
    BuildsBack(InitialSelection, "0", h, dow);
    var b := OnValue(InitialBuilder(value), value);
    assert b.mode == PresetMode;
    assert BuildCron(b.sel) == value;
  }

  /** Both presets read back as midnight on every day. */
  lemma MidnightEveryDay(any: Selection, value: string)
    requires value == "0 * * * *" || value == "0 0 1 * *"
    ensures Parse(any, value) == Selection(AllDays, "0", "0")
    ensures BuildCron(Parse(any, value)) == "0 0 * * *"
  {
    if value == "0 * * * *" {
      HourlyText();
      SameExpression(value, Hourly);
    } else {
      MonthlyFields();
    }
    MidnightBuild();
  }

  lemma MidnightBuild()
    ensures BuildCron(Selection(AllDays, "0", "0")) == "0 0 * * *"
  {
    assert DayField(AllDays) == "*";
    assert ["0", "0", "*", "*", "*"] == Midnight;
    MidnightText();
  }

  /** A preset that reads back as midnight on every day is sent back as
      the daily midnight expression. */
  lemma BecomesDaily(b: Builder, value: string)
    requires value == "0 * * * *" || value == "0 0 1 * *"
    ensures Sync(OnValue(b, value), value) == Some("0 0 * * *")
  {
    MidnightEveryDay(b.sel, value);
    var b1 := OnValue(b, value);
    assert value in Presets;
    assert b1.mode == PresetMode;
    assert BuildCron(b1.sel) == "0 0 * * *" != value;
  }

  /** Choosing the hourly preset: the value effect reads the '*' hour as
      '0', and the sync effect sends back what that selection builds, the
      daily midnight expression. */
  lemma HourlyPresetBecomesDaily(b: Builder)
    ensures "0 * * * *" in Presets
    ensures Sync(OnValue(b, "0 * * * *"), "0 * * * *") == Some("0 0 * * *")
    ensures Mount("0 * * * *") == Some("0 0 * * *")
  {
    BecomesDaily(b, "0 * * * *");
    BecomesDaily(InitialBuilder("0 * * * *"), "0 * * * *");
  }

  /** Choosing the monthly preset: the selection has no day of month, so
      the sync effect sends back the daily midnight expression. */
  lemma MonthlyPresetBecomesDaily(b: Builder)
    ensures "0 0 1 * *" in Presets
    ensures Sync(OnValue(b, "0 0 1 * *"), "0 0 1 * *") == Some("0 0 * * *")
    ensures Mount("0 0 1 * *") == Some("0 0 * * *")
  {
    BecomesDaily(b, "0 0 1 * *");
    BecomesDaily(InitialBuilder("0 0 1 * *"), "0 0 1 * *");
  }

  /** The sync effect comparing what the selection builds with what the
      value's own reading builds, rather than with the value itself: an
      expression the selection cannot hold is left alone until a control
      changes the selection. */
  function SyncFixed(b: Builder, value: string): (r: Option<string>)
    ensures b.mode == CustomMode ==> r.None?
    ensures r.Some? ==> r.value == BuildCron(b.sel)
  {
    if b.mode == CustomMode then None
    else
      var built := BuildCron(b.sel);
      if built != BuildCron(Parse(b.sel, value)) then Some(built) else None
  }

  /** After the value effect has run, the corrected sync effect has
      nothing to send, whatever the value: neither on the first commit nor
      after a preset button. */
  lemma SyncFixedAfterValue(b: Builder, value: string)
    ensures SyncFixed(OnValue(b, value), value).None?
  {
    var sel := OnValue(b, value).sel;
    assert Parse(sel, value) == sel;
  }

  /** On every value the selection can hold, the correction behaves as
      the sync effect as written: a control that changes the selection is
      still sent to the parent. */
  lemma SyncFixedAgrees(b: Builder, value: string)
    requires BuildCron(Parse(b.sel, value)) == value
    ensures SyncFixed(b, value) == Sync(b, value)
  {
  }
}
