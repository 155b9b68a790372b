/**
 * The event view `IcalVEvent`: its start and end in Unix seconds and local
 * dates, all-day and recurrence tests, recurrence instances and the
 * one-line index entry. An instance timestamp, when set, stands in for the
 * event's own DTSTART.
 *
 * Recurrence expansion (`icalcomponent_foreach_recurrence`, section 3.8.5.3
 * of RFC 5545) is a parameter: a function from the event and the window
 * to the spans libical reports, in the order it reports them.
 */
module VEvent {
  import opened Wrappers
  import opened Strings
  import opened Paths
  import opened Times
  import opened Component
  import opened IcalWrap

  /** `icaltime_span`: one occurrence, from `start` to `end` in Unix seconds. */
  datatype Span = Span(start: Timestamp, end: Timestamp)

  /** libical's expansion of `event`'s recurrence between two times. */
  type Expander = (IcalComponent, IcalTime, IcalTime) -> seq<Span>

  // ---------------------------------------------------------------------
  // Start and end

  /**
   * `get_dtstart_unix` (and `get_dtstart_ical` followed by `get_timestamp`):
   * the instance timestamp, else DTSTART unless it is the null time.
   */
  function DtStartUnix(e: IcalVEvent): (r: Option<Timestamp>)
    ensures e.instanceTimestamp.Some? ==> r == e.instanceTimestamp
    ensures e.instanceTimestamp.None? ==>
              (r.None? <==> IsNullTime(GetDtStart(e.comp)))
              && (r.Some? ==> r.value == AsUnix(GetDtStart(e.comp)))
  {
    match e.instanceTimestamp
    case Some(t) => Some(t)
    case None =>
      var dtstart := GetDtStart(e.comp);
      if IsNullTime(dtstart) then None else Some(AsUnix(dtstart))
  }

  /**
   * `get_dtend_unix`: for an instance, its timestamp moved by the event's
   * duration (0 when libical reports none), None when that leaves chrono's
   * range; otherwise DTEND (or DTSTART + DURATION) unless it is the null time.
   */
  function DtEndUnix(e: IcalVEvent): (r: Option<Timestamp>)
    ensures e.instanceTimestamp.Some? ==>
              var end := e.instanceTimestamp.value + GetDuration(e.comp).GetOr(0);
              (r.Some? <==> MinDateTime <= end <= MaxDateTime) && (r.Some? ==> r.value == end)
    ensures e.instanceTimestamp.None? ==>
              (r.None? <==> IsNullTime(GetDtEnd(e.comp)))
              && (r.Some? ==> r.value == AsUnix(GetDtEnd(e.comp)))
  {
    match e.instanceTimestamp
    case Some(t) => CheckedAdd(t, GetDuration(e.comp).GetOr(0))
    case None =>
      var dtend := GetDtEnd(e.comp);
      if IsNullTime(dtend) then None else Some(AsUnix(dtend))
  }

  /** `get_dtstart_date`: the local day of the start. */
  function DtStartDate(e: IcalVEvent, localOffset: int): Option<Date>
  {
    if DtStartUnix(e).Some? then Some(LocalDate(localOffset, DtStartUnix(e).value)) else None
  }

  /** `get_dtend_date`: the local day of the end. */
  function DtEndDate(e: IcalVEvent, localOffset: int): Option<Date>
  {
    if DtEndUnix(e).Some? then Some(LocalDate(localOffset, DtEndUnix(e).value)) else None
  }

  /** `is_allday`: DTSTART is a date without a time of day. */
  predicate IsAllday(e: IcalVEvent)
  {
    GetDtStart(e.comp).isDate
  }

  /**
   * `get_last_relevant_date`: the end's local date, one day earlier for an
   * all-day event, whose DTEND is exclusive.
   */
  function LastRelevantDate(e: IcalVEvent, localOffset: int): (r: Option<Date>)
    ensures r.Some? <==> DtEndUnix(e).Some?
    ensures r.Some? ==> r.value == DtEndDate(e, localOffset).value - (if IsAllday(e) then 1 else 0)
  {
    match DtEndDate(e, localOffset)
    case None => None
    case Some(d) => if IsAllday(e) then Some(d - 1) else Some(d)
  }

  /** A timed event ending no earlier than it starts is last relevant no earlier than its start date. */
  lemma LastRelevantNotBeforeStart(e: IcalVEvent, localOffset: int)
    requires !IsAllday(e) && DtStartUnix(e).Some? && DtEndUnix(e).Some?
    requires DtStartUnix(e).value <= DtEndUnix(e).value
    ensures DtStartDate(e, localOffset).value <= LastRelevantDate(e, localOffset).value
  {
    LocalDateMonotone(localOffset, DtStartUnix(e).value, DtEndUnix(e).value);
  }

  // ---------------------------------------------------------------------
  // Recurrence

  /** `is_recur`: the event has an RRULE property. */
  predicate IsRecur(e: IcalVEvent)
  {
    Matching(e.comp.props, RRule) != []
  }

  /** `is_recur_master`: a recurring event that is not one of its own instances. */
  predicate IsRecurMaster(e: IcalVEvent)
  {
    IsRecur(e) && e.instanceTimestamp.None?
  }

  /** `IcalVEvent::has_recur` in the older wrapper: the same test as `is_recur_master`. */
  predicate HasRecur(e: IcalVEvent)
  {
    Matching(e.comp.props, RRule) != [] && e.instanceTimestamp.None?
  }

  lemma HasRecurIsRecurMaster(e: IcalVEvent)
    ensures HasRecur(e) <==> IsRecurMaster(e)
    ensures HasRecur(e) <==> GetProperty(e.comp, RRule).Some? && e.instanceTimestamp.None?
  {
    GetPropertyIsFirstOfList(e.comp.props, RRule);
    assert GetProperty(e.comp, RRule) == GetProperty(IcalComponent(NoComponent, e.comp.props, []), RRule);
  }

  /** The end of the expansion window: DTEND with its year field one higher. */
  function RecurWindowEnd(c: IcalComponent): (r: IcalTime)
    ensures r.year == GetDtEnd(c).year + 1
    ensures r.(year := GetDtEnd(c).year) == GetDtEnd(c)
  {
    var dtend := GetDtEnd(c);
    dtend.(year := dtend.year + 1)
  }

  /** The spans libical reports for the event, from DTSTART to a year past DTEND. */
  function RecurSpans(e: IcalVEvent, expand: Expander): seq<Span>
  {
    expand(e.comp, GetDtStart(e.comp), RecurWindowEnd(e.comp))
  }

  /** The start of each reported span, in the order reported. */
  function RecurDatetimes(e: IcalVEvent, expand: Expander): (r: seq<Timestamp>)
    ensures |r| == |RecurSpans(e, expand)|
    ensures forall i :: 0 <= i < |r| ==> r[i] == RecurSpans(e, expand)[i].start
  {
    var spans := RecurSpans(e, expand);
    seq(|spans|, i requires 0 <= i < |spans| => spans[i].start)
  }

  /**
   * `get_recur_datetimes`: the expansion callback pushes each span's start
   * onto the result, one span at a time.
   */
  method GetRecurDatetimes(e: IcalVEvent, expand: Expander) returns (result: seq<Timestamp>)
    ensures result == RecurDatetimes(e, expand)
  {
    var spans := expand(e.comp, GetDtStart(e.comp), RecurWindowEnd(e.comp));
    result := [];
    var i := 0;
    while i < |spans|
      invariant 0 <= i <= |spans|
      invariant |result| == i
      invariant forall k :: 0 <= k < i ==> result[k] == spans[k].start
    {
      result := result + [spans[i].start];
      i := i + 1;
    }
  }

  /**
   * `is_recur_valid`: a master is valid; an instance of a recurring event is
   * valid when its timestamp is one of the expanded datetimes; a
   * non-recurring event is valid only without an instance timestamp.
   */
  predicate IsRecurValid(e: IcalVEvent, expand: Expander)
  {
    if IsRecurMaster(e) then true
    else if IsRecur(e) then e.instanceTimestamp.value in RecurDatetimes(e, expand)
    else e.instanceTimestamp.None?
  }

  /** Validity, case by case on the instance timestamp. */
  lemma IsRecurValidCases(e: IcalVEvent, expand: Expander)
    ensures e.instanceTimestamp.None? ==> IsRecurValid(e, expand)
    ensures e.instanceTimestamp.Some? ==>
              (IsRecurValid(e, expand) <==> IsRecur(e) && e.instanceTimestamp.value in RecurDatetimes(e, expand))
  {
  }

  /** `get_recur_instances`: one view per expanded datetime, in order. */
  function RecurInstances(e: IcalVEvent, expand: Expander): (r: seq<IcalVEvent>)
    ensures |r| == |RecurDatetimes(e, expand)|
  {
    var dts := RecurDatetimes(e, expand);
    seq(|dts|, i requires 0 <= i < |dts| => EventWithTimestamp(e, dts[i]))
  }

  /**
   * Each instance is the same event and parent at one expanded datetime;
   * it is no longer a master, and for a recurring event it is valid.
   */
  lemma RecurInstancesAreValid(e: IcalVEvent, expand: Expander, i: int)
    requires 0 <= i < |RecurInstances(e, expand)|
    ensures var inst := RecurInstances(e, expand)[i];
            inst.comp == e.comp && inst.parent == e.parent
            && inst.instanceTimestamp == Some(RecurDatetimes(e, expand)[i])
            && DtStartUnix(inst) == Some(RecurSpans(e, expand)[i].start)
            && !IsRecurMaster(inst)
            && (IsRecur(e) <==> IsRecurValid(inst, expand))
  {
    var inst := RecurInstances(e, expand)[i];
    assert RecurDatetimes(inst, expand) == RecurDatetimes(e, expand);
  }

  /** Re-wrapping with a timestamp keeps the event, and with it its start as Unix seconds. */
  lemma WithTimestampStart(e: IcalVEvent, t: Timestamp)
    ensures DtStartUnix(EventWithTimestamp(e, t)) == Some(t)
    ensures !IsRecurMaster(EventWithTimestamp(e, t))
    ensures IsRecur(EventWithTimestamp(e, t)) == IsRecur(e)
  {
  }

  // ---------------------------------------------------------------------
  // The index line

  /** What `get_khaleesi_line` needs: a started event in a calendar must have a path. */
  predicate LineReady(e: IcalVEvent)
  {
    DtStartUnix(e).Some? && e.parent.Some? ==> e.parent.value.path.Some?
  }

  /**
   * `get_khaleesi_line`: the start in Unix seconds zero-padded to ten
   * digits, a space, and the calendar's path; None with no start or no
   * calendar.
   */
  function KhaleesiLine(e: IcalVEvent): (r: Option<string>)
    requires LineReady(e)
    ensures r.Some? <==> DtStartUnix(e).Some? && e.parent.Some?
  {
    match DtStartUnix(e)
    case None => None
    case Some(start) =>
      match e.parent
      case None => None
      case Some(cal) => Some(Join([Format010(start), GetPathAsString(cal)], " "))
  }

  /**
   * A non-negative start is written as at least ten digits (exactly ten
   * below 10^10) that read back as the start, then one space, then the
   * calendar's path.
   */
  lemma KhaleesiLineRoundTrip(e: IcalVEvent)
    requires LineReady(e) && KhaleesiLine(e).Some?
    requires DtStartUnix(e).value >= 0
    ensures var line := KhaleesiLine(e).value;
            var w := |Format010(DtStartUnix(e).value)|;
            && w >= 10 && (DtStartUnix(e).value < Pow10(10) <==> w == 10)
            && |line| > w && line[w] == ' '
            && (forall i :: 0 <= i < w ==> IsDigit(line[i]))
            && DecimalValue(line[..w]) == DtStartUnix(e).value
            && line[w + 1..] == Display(e.parent.value.path.value)
  {
    var start := DtStartUnix(e).value;
    var f := Format010(start);
    Format010RoundTrip(start);
    var line := KhaleesiLine(e).value;
    JoinTwo(f, Display(e.parent.value.path.value), " ");
    assert line == f + " " + Display(e.parent.value.path.value);
    assert line[..|f|] == f;
  }

  /** A line with a start in [0, 10^10): ten digits, then a space and the path. */
  lemma LineShape(e: IcalVEvent)
    requires LineReady(e) && KhaleesiLine(e).Some?
    requires 0 <= DtStartUnix(e).value < Pow10(10)
    ensures |PadTo(DtStartUnix(e).value, 10)| == 10
    ensures KhaleesiLine(e).value == PadTo(DtStartUnix(e).value, 10) + (" " + Display(e.parent.value.path.value))
  {
    var path := Display(e.parent.value.path.value);
    JoinTwo(PadTo(DtStartUnix(e).value, 10), path, " ");
    PadToLength(DtStartUnix(e).value, 10);
  }

  /** Index lines sort by start time, whichever files the events are in. */
  lemma KhaleesiLineOrder(a: IcalVEvent, b: IcalVEvent)
    requires LineReady(a) && LineReady(b) && KhaleesiLine(a).Some? && KhaleesiLine(b).Some?
    requires 0 <= DtStartUnix(a).value < DtStartUnix(b).value < Pow10(10)
    ensures Below(KhaleesiLine(a).value, KhaleesiLine(b).value)
  {
    var sa, sb := DtStartUnix(a).value, DtStartUnix(b).value;
    LineShape(a);
    LineShape(b);
    PadToOrder(sa, sb, 10);
    BelowExtend(PadTo(sa, 10), PadTo(sb, 10), " " + Display(a.parent.value.path.value), " " + Display(b.parent.value.path.value));
  }

  lemma PadToStep(n: nat, width: nat, s: string)
    requires width > 0 && PadTo(n / 10, width - 1) == s
    ensures PadTo(n, width) == s + [DigitChar(n % 10)]
  {
  }

  lemma FormatExampleHigh()
    ensures PadTo(11829, 5) == "11829"
  {
    PadToStep(1, 1, "");
    PadToStep(11, 2, "1");
    PadToStep(118, 3, "11");
    PadToStep(1182, 4, "118");
    PadToStep(11829, 5, "1182");
  }

  /** 1182988800 fits in ten digits and is written as itself. */
  lemma FormatExample()
    ensures Format010(1182988800) == "1182988800"
  {
    assert Pow10(10) == 10000000000;
    FormatExampleHigh();
    PadToStep(118298, 6, "11829");
    PadToStep(1182988, 7, "118298");
    PadToStep(11829888, 8, "1182988");
    PadToStep(118298880, 9, "11829888");
    PadToStep(1182988800, 10, "118298880");
  }

  /** "test/path" is the relative path with components "test" and "path". */
  lemma PathExample()
    ensures Paths.FromStr("test/path") == Path(false, ["test", "path"])
  {
    SplitSlashTwo("test", "path");
    assert "test" + "/" + "path" == "test/path";
  }

  lemma DisplayExample()
    ensures Display(Path(false, ["test", "path"])) == "test/path"
  {
    JoinTwo("test", "path", "/");
  }

  lemma JoinExample()
    ensures Join(["1182988800", "test/path"], " ") == "1182988800 test/path"
  {
    JoinTwo("1182988800", "test/path", " ");
  }

  lemma LineExampleText()
    ensures Join([Format010(1182988800), Display(Path(false, ["test", "path"]))], " ") == "1182988800 test/path"
  {
    FormatExample();
    DisplayExample();
    JoinExample();
  }

  /** The index line of an event starting at 1182988800 in the calendar file `test/path`. */
  lemma KhaleesiLineExample(e: IcalVEvent)
    requires DtStartUnix(e) == Some(1182988800)
    requires e.parent.Some? && e.parent.value.path == Some(Paths.FromStr("test/path"))
    ensures LineReady(e) && KhaleesiLine(e) == Some("1182988800 test/path")
  {
    PathExample();
    LineExampleText();
  }
}
