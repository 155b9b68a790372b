/**
 * The `list` action: either pick the n-th file name, or keep the
 * calendars whose principal event overlaps a date range and which live
 * in a named calendar directory.
 *
 * Parsing dates and reading calendars from files are helpers outside this
 * model: the date parser is a parameter and the calendars read are given.
 */
module List {
  import opened Wrappers
  import opened Strings
  import opened Paths
  import opened Times
  import opened IcalWrap
  import opened VEvent
  import Select

  datatype ListFilters = ListFilters(from: Option<Date>, to: Option<Date>, num: Option<nat>, calendar: Option<string>)

  const Usage: string := "select [from|to parameter]+"

  /**
   * What the pair loop of `ListFilters::parse_from_args` returns from the
   * values so far: the keyword is looked at first, and only `from`/`to`
   * parse their date; a later pair overrides an earlier one.
   */
  function ParseChunks(dateFromStr: string -> Result<Date>, args: seq<string>,
                       from: Option<Date>, to: Option<Date>, calendar: Option<string>): Result<ListFilters>
    decreases |args|
  {
    if args == [] then Ok(ListFilters(from, to, None, calendar))
    else if |args| == 1 then Err("Syntax error!")
    else if args[0] == "from" then
      match dateFromStr(args[1])
      case Err(e) => Err(e)
      case Ok(d) => ParseChunks(dateFromStr, args[2..], Some(d), to, calendar)
    else if args[0] == "to" then
      match dateFromStr(args[1])
      case Err(e) => Err(e)
      case Ok(d) => ParseChunks(dateFromStr, args[2..], from, Some(d), calendar)
    else if args[0] == "cal" then ParseChunks(dateFromStr, args[2..], from, to, Some(args[1]))
    else Err("Incorrect!")
  }

  /**
   * What `ListFilters::parse_from_args` returns: no arguments are refused;
   * a single one must be a `usize` and sets only `num`; longer lists are
   * read in pairs.
   */
  function Parse(dateFromStr: string -> Result<Date>, args: seq<string>): Result<ListFilters>
  {
    if |args| < 1 then Err(Usage)
    else if |args| == 1 then
      match ParseUsize(args[0])
      case Some(n) => Ok(ListFilters(None, None, Some(n), None))
      case None => Err(Usage)
    else ParseChunks(dateFromStr, args, None, None, None)
  }

  /** `ListFilters::parse_from_args`. */
  method ParseFromArgs(dateFromStr: string -> Result<Date>, args: seq<string>) returns (r: Result<ListFilters>)
    ensures r == Parse(dateFromStr, args)
  {
    var from: Option<Date> := None;
    var to: Option<Date> := None;
    var calendar: Option<string> := None;
    if |args| < 1 {
      return Err(Usage);
    }
    if |args| == 1 {
      var num := ParseUsize(args[0]);
      if num.Some? {
        return Ok(ListFilters(from, to, num, calendar));
      } else {
        return Err(Usage);
      }
    }
    var k := 0;
    while k < |args|
      invariant 0 <= k <= |args| && k % 2 == 0
      invariant ParseChunks(dateFromStr, args[k..], from, to, calendar) == Parse(dateFromStr, args)
    {
      if k + 2 <= |args| {
        if args[k] == "from" {
          var d := dateFromStr(args[k + 1]);
          if d.Err? {
            return Err(d.error);
          }
          from := Some(d.value);
        } else if args[k] == "to" {
          var d := dateFromStr(args[k + 1]);
          if d.Err? {
            return Err(d.error);
          }
          to := Some(d.value);
        } else if args[k] == "cal" {
          calendar := Some(args[k + 1]);
        } else {
          return Err("Incorrect!");
        }
        assert args[k..][2..] == args[k + 2..];
        k := k + 2;
      } else {
        return Err("Syntax error!");
      }
    }
    r := Ok(ListFilters(from, to, None, calendar));
  }

  /** Short argument lists: none is refused, one is a count or refused. */
  lemma ShortArgs(dateFromStr: string -> Result<Date>, s: string, n: nat)
    requires n < 18446744073709551616
    ensures Parse(dateFromStr, []) == Err(Usage)
    ensures Parse(dateFromStr, [s]).Ok? <==> ParseUsize(s).Some?
    ensures Parse(dateFromStr, [s]).Ok? ==> Parse(dateFromStr, [s]).value == ListFilters(None, None, ParseUsize(s), None)
    ensures Parse(dateFromStr, [Digits(n)]) == Ok(ListFilters(None, None, Some(n), None))
  {
    ParseUsizeRoundTrip(n);
  }

  /** Longer lists never set `num`, and an unpaired last word is a syntax error. */
  lemma {:induction false} PairsNeverCount(dateFromStr: string -> Result<Date>, args: seq<string>,
                                           from: Option<Date>, to: Option<Date>, calendar: Option<string>)
    ensures ParseChunks(dateFromStr, args, from, to, calendar).Ok? ==> ParseChunks(dateFromStr, args, from, to, calendar).value.num.None?
    ensures |args| % 2 == 1 ==> ParseChunks(dateFromStr, args, from, to, calendar).Err?
    decreases |args|
  {
    if |args| >= 2 {
      var from' := if args[0] == "from" && dateFromStr(args[1]).Ok? then Some(dateFromStr(args[1]).value) else from;
      var to' := if args[0] == "to" && dateFromStr(args[1]).Ok? then Some(dateFromStr(args[1]).value) else to;
      var calendar' := if args[0] == "cal" then Some(args[1]) else calendar;
      PairsNeverCount(dateFromStr, args[2..], from', to', calendar');
    }
  }

  /** An unknown keyword is refused before its argument is looked at. */
  lemma KeywordCheckedFirst(dateFromStr: string -> Result<Date>, args: seq<string>,
                            from: Option<Date>, to: Option<Date>, calendar: Option<string>)
    requires |args| >= 2 && args[0] !in {"from", "to", "cal"}
    ensures ParseChunks(dateFromStr, args, from, to, calendar) == Err("Incorrect!")
  {
  }

  /** The calendar filter is the argument of the last `cal` pair, or unset when there is none. */
  lemma {:induction false} LastCalWins(dateFromStr: string -> Result<Date>, args: seq<string>,
                                       from: Option<Date>, to: Option<Date>, calendar: Option<string>)
    requires ParseChunks(dateFromStr, args, from, to, calendar).Ok?
    ensures var f := ParseChunks(dateFromStr, args, from, to, calendar).value;
            (forall i :: Select.LastPairAt(args, "cal", i) ==> i + 1 < |args| && f.calendar == Some(args[i + 1]))
            && ((forall j :: 0 <= j < |args| && j % 2 == 0 ==> args[j] != "cal") ==> f.calendar == calendar)
    decreases |args|
  {
    if args != [] {
      var from' := if args[0] == "from" then Some(dateFromStr(args[1]).value) else from;
      var to' := if args[0] == "to" then Some(dateFromStr(args[1]).value) else to;
      var calendar' := if args[0] == "cal" then Some(args[1]) else calendar;
      var rest := args[2..];
      LastCalWins(dateFromStr, rest, from', to', calendar');
      Select.LastPairShift(args, "cal");
      forall i | 2 <= i < |args| ensures args[i] == rest[i - 2] {}
      if forall j :: 0 <= j < |rest| && j % 2 == 0 ==> rest[j] != "cal" {
        forall j | 2 <= j < |args| && j % 2 == 0 ensures args[j] != "cal" {
          assert rest[j - 2] != "cal";
        }
      } else {
        var j :| 0 <= j < |rest| && j % 2 == 0 && rest[j] == "cal";
        assert args[j + 2] == "cal";
      }
    }
  }

  // ---------------------------------------------------------------------
  // Filtering calendars

  /** `predicate_is_from`: the principal event's start or end day is on or after the bound. */
  predicate IsFrom(f: ListFilters, cal: Calendar, localOffset: int)
    requires f.from.Some? ==> PrincipalReady(cal)
    reads cal.comp
  {
    f.from.None? ||
      var e := GetPrincipalEvent(cal);
      Select.FromPasses(f.from, DtStartDate(e, localOffset), DtEndDate(e, localOffset))
  }

  /** `predicate_is_to`: the principal event's start or end day is on or before the bound. */
  predicate IsTo(f: ListFilters, cal: Calendar, localOffset: int)
    requires f.to.Some? ==> PrincipalReady(cal)
    reads cal.comp
  {
    f.to.None? ||
      var e := GetPrincipalEvent(cal);
      Select.ToPasses(f.to, DtStartDate(e, localOffset), DtEndDate(e, localOffset))
  }

  /** `predicate_is_in_calendar`: no filter, or the file's directory ends with the calendar's name. */
  predicate IsInCalendar(f: ListFilters, cal: Calendar)
  {
    f.calendar.None?
    || (cal.path.Some? && Parent(cal.path.value).Some? && EndsWith(Parent(cal.path.value).value, Paths.FromStr(f.calendar.value)))
  }

  /** A plain calendar name matches exactly the files whose directory is named so. */
  lemma InCalendarByDirectory(f: ListFilters, cal: Calendar, name: string)
    requires f.calendar == Some(name) && Paths.FromStr(name) == Path(false, [name])
    ensures IsInCalendar(f, cal) <==>
              cal.path.Some? && |cal.path.value.parts| >= 2 && cal.path.value.parts[|cal.path.value.parts| - 2] == name
  {
    if cal.path.Some? && |cal.path.value.parts| >= 2 {
      var p := cal.path.value.parts;
      var dir := Parent(cal.path.value).value;
      assert dir.parts == p[..|p| - 1];
      assert dir.parts[|dir.parts| - 1..] == [p[|p| - 2]];
    }
  }

  /** What filtering needs: a principal event wherever a date test reads one. */
  ghost predicate FilterReady(f: ListFilters, cals: seq<Calendar>, localOffset: int)
    reads set c | c in cals :: c.comp
  {
    forall i :: 0 <= i < |cals| ==>
      (f.from.Some? ==> PrincipalReady(cals[i])) && (f.to.Some? && IsFrom(f, cals[i], localOffset) ==> PrincipalReady(cals[i]))
  }

  predicate Passes(f: ListFilters, cal: Calendar, localOffset: int)
    requires (f.from.Some? ==> PrincipalReady(cal)) && (f.to.Some? && IsFrom(f, cal, localOffset) ==> PrincipalReady(cal))
    reads cal.comp
  {
    IsFrom(f, cal, localOffset) && IsTo(f, cal, localOffset) && IsInCalendar(f, cal)
  }

  /** The calendars among the first `k` that pass all three tests, in their order. */
  function Kept(f: ListFilters, cals: seq<Calendar>, k: nat, localOffset: int): (r: seq<Calendar>)
    requires k <= |cals| && FilterReady(f, cals, localOffset)
    reads set c | c in cals :: c.comp
    ensures |r| <= k
    ensures forall i :: 0 <= i < |r| ==> r[i] in cals[..k] && Passes(f, r[i], localOffset)
    ensures forall i :: 0 <= i < k && Passes(f, cals[i], localOffset) ==> cals[i] in r
  {
    if k == 0 then []
    else
      var last := cals[k - 1];
      assert cals[..k] == cals[..k - 1] + [last];
      Kept(f, cals, k - 1, localOffset) + (if Passes(f, last, localOffset) then [last] else [])
  }

  /** Filtering the calendars one by one, as the iterator chain does. */
  method FilterCalendars(f: ListFilters, cals: seq<Calendar>, localOffset: int) returns (kept: seq<Calendar>)
    requires FilterReady(f, cals, localOffset)
    ensures kept == Kept(f, cals, |cals|, localOffset)
  {
    kept := [];
    var i := 0;
    while i < |cals|
      invariant 0 <= i <= |cals|
      invariant kept == Kept(f, cals, i, localOffset)
    {
      if IsFrom(f, cals[i], localOffset) && IsTo(f, cals[i], localOffset) && IsInCalendar(f, cals[i]) {
        kept := kept + [cals[i]];
      }
      i := i + 1;
    }
  }

  /** What `list_by_args` prints: the chosen file name, or the calendars kept. */
  datatype Listing = Nth(filename: string) | Listed(cals: seq<Calendar>)

  /** What `list_by_args` demands: filters that parse, an n-th file when a count is given, and principal events to test. */
  ghost predicate ListReady(dateFromStr: string -> Result<Date>, args: seq<string>, filenames: seq<string>,
                            cals: seq<Calendar>, localOffset: int)
    reads set c | c in cals :: c.comp
  {
    Parse(dateFromStr, args).Ok?
    && (Parse(dateFromStr, args).value.num.Some? ==> Parse(dateFromStr, args).value.num.value < |filenames|)
    && (Parse(dateFromStr, args).value.num.None? ==> FilterReady(Parse(dateFromStr, args).value, cals, localOffset))
  }

  /**
   * `list_by_args`: with a count, the file name at that position and no
   * filtering; otherwise the calendars read from the files that pass the
   * date and calendar tests, in order.
   */
  method ListByArgs(dateFromStr: string -> Result<Date>, args: seq<string>, filenames: seq<string>,
                    cals: seq<Calendar>, localOffset: int) returns (r: Listing)
    requires ListReady(dateFromStr, args, filenames, cals, localOffset)
    ensures var f := Parse(dateFromStr, args).value;
            (f.num.Some? ==> r == Nth(filenames[f.num.value]))
            && (f.num.None? ==> r == Listed(Kept(f, cals, |cals|, localOffset)))
  {
    var parsed := ParseFromArgs(dateFromStr, args);
    var f := parsed.value;
    if f.num.Some? {
      return Nth(filenames[f.num.value]);
    }
    var kept := FilterCalendars(f, cals, localOffset);
    r := Listed(kept);
  }
}
