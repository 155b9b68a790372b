/**
 * `KhEvent`: an event view together with the occurrence it stands for,
 * given as a libical time. Every operation is a choice on that optional
 * instance time or a delegation to the event.
 */
module KhEvent {
  import opened Wrappers
  import opened Times
  import opened Component
  import opened IcalWrap
  import opened VEvent

  datatype KhEvent = KhEvent(event: IcalVEvent, instanceTimestamp: Option<IcalTime>)

  /** The event's own DTSTART as a libical time, None when it is the null time. */
  function EventDtStart(e: IcalVEvent): (r: Option<IcalTime>)
    ensures r.None? <==> IsNullTime(GetDtStart(e.comp))
    ensures r.Some? ==> r.value == GetDtStart(e.comp)
  {
    var dtstart := GetDtStart(e.comp);
    if IsNullTime(dtstart) then None else Some(dtstart)
  }

  /** The event's own DTEND (or DTSTART + DURATION) as a libical time, None when it is the null time. */
  function EventDtEnd(e: IcalVEvent): (r: Option<IcalTime>)
    ensures r.None? <==> IsNullTime(GetDtEnd(e.comp))
    ensures r.Some? ==> r.value == GetDtEnd(e.comp)
  {
    var dtend := GetDtEnd(e.comp);
    if IsNullTime(dtend) then None else Some(dtend)
  }

  /** `get_start`: the instance time, else the event's DTSTART. */
  function GetStart(k: KhEvent): (r: Option<IcalTime>)
    ensures k.instanceTimestamp.Some? ==> r == k.instanceTimestamp
    ensures k.instanceTimestamp.None? ==> r == EventDtStart(k.event)
  {
    match k.instanceTimestamp
    case Some(t) => Some(t)
    case None => EventDtStart(k.event)
  }

  /** `get_end` unwraps the event's duration when an instance time is set. */
  predicate EndReady(k: KhEvent)
  {
    k.instanceTimestamp.Some? ==> GetDuration(k.event.comp).Some?
  }

  /** `get_end`: the instance time plus the event's duration, else the event's DTEND. */
  function GetEnd(k: KhEvent): (r: Option<IcalTime>)
    requires EndReady(k)
    ensures k.instanceTimestamp.Some? ==>
              r == Some(AddSeconds(k.instanceTimestamp.value, GetDuration(k.event.comp).value))
    ensures k.instanceTimestamp.None? ==> r == EventDtEnd(k.event)
  {
    match k.instanceTimestamp
    case Some(t) => Some(AddSeconds(t, GetDuration(k.event.comp).value))
    case None => EventDtEnd(k.event)
  }

  /** `IcalTime::pred`: one day earlier. */
  function Pred(t: IcalTime): IcalTime
  {
    AddSeconds(t, -SecondsPerDay)
  }

  /** `get_last_relevant_date`: the end, one day earlier for an all-day event. */
  function GetLastRelevantDate(k: KhEvent): (r: Option<IcalTime>)
    requires EndReady(k)
    ensures r.Some? <==> GetEnd(k).Some?
    ensures r.Some? && !IsAllday(k.event) ==> r == GetEnd(k)
    ensures r.Some? && IsAllday(k.event) ==> r.value == Pred(GetEnd(k).value)
  {
    match GetEnd(k)
    case None => None
    case Some(end) => if IsAllday(k.event) then Some(Pred(end)) else Some(end)
  }

  /** `is_recur_master`: the event has an RRULE and no instance time is set. */
  predicate IsRecurMaster(k: KhEvent)
  {
    IsRecur(k.event) && k.instanceTimestamp.None?
  }

  /** The event's recurrence datetimes as libical UTC times. */
  function RecurTimes(k: KhEvent, expand: Expander): (r: seq<IcalTime>)
    ensures |r| == |RecurDatetimes(k.event, expand)|
  {
    var dts := RecurDatetimes(k.event, expand);
    seq(|dts|, i requires 0 <= i < |dts| => UtcTime(dts[i]))
  }

  /**
   * `is_recur_valid`: a master is valid; a view with an instance time is
   * valid when that time is among the recurrence datetimes; any other view is.
   */
  predicate IsRecurValid(k: KhEvent, expand: Expander)
  {
    if IsRecurMaster(k) then true
    else if k.instanceTimestamp.Some? then k.instanceTimestamp.value in RecurTimes(k, expand)
    else k.instanceTimestamp.None?
  }

  /**
   * Unlike the event view's test, here only the instance time decides:
   * recurring or not, a view is valid iff it has none or it is expanded.
   */
  lemma IsRecurValidCases(k: KhEvent, expand: Expander)
    ensures IsRecurValid(k, expand) <==>
              k.instanceTimestamp.None? || k.instanceTimestamp.value in RecurTimes(k, expand)
  {
  }

  /** The UTC time of each expanded datetime is a valid instance time. */
  lemma ExpandedTimesAreValid(k: KhEvent, expand: Expander, i: int)
    requires 0 <= i < |RecurDatetimes(k.event, expand)|
    ensures IsRecurValid(KhEvent(k.event, Some(UtcTime(RecurDatetimes(k.event, expand)[i]))), expand)
  {
    var inst := KhEvent(k.event, Some(UtcTime(RecurDatetimes(k.event, expand)[i])));
    assert RecurTimes(inst, expand)[i] == inst.instanceTimestamp.value;
  }

  /** `get_calendar_name`: the calendar name of the event's calendar, None without one. */
  function GetCalendarName(k: KhEvent): (r: Option<string>)
    ensures k.event.parent.None? ==> r.None?
    ensures k.event.parent.Some? ==> r == IcalWrap.GetCalendarName(k.event.parent.value)
  {
    match k.event.parent
    case None => None
    case Some(cal) => IcalWrap.GetCalendarName(cal)
  }

  /** `from_event`: no instance time. */
  function FromEvent(e: IcalVEvent): (r: KhEvent)
    ensures r.event == e && r.instanceTimestamp.None?
  {
    KhEvent(e, None)
  }

  /** `from_event_with_timestamp`. */
  function FromEventWithTimestamp(e: IcalVEvent, t: Option<IcalTime>): (r: KhEvent)
    ensures r.event == e && r.instanceTimestamp == t
  {
    KhEvent(e, t)
  }

  /**
   * Without an instance time a view reports the event's own DTSTART and
   * DTEND, is a master exactly when the event recurs, and is valid.
   */
  lemma FromEventUsesEvent(e: IcalVEvent, expand: Expander)
    ensures EndReady(FromEvent(e))
    ensures GetStart(FromEvent(e)) == EventDtStart(e)
    ensures GetEnd(FromEvent(e)) == EventDtEnd(e)
    ensures IsRecurMaster(FromEvent(e)) <==> IsRecur(e)
    ensures IsRecurValid(FromEvent(e), expand)
  {
  }

  /**
   * For an event view without an instance timestamp, the view's start in
   * Unix seconds is the Unix time of the KhEvent's start.
   */
  lemma StartAgreesWithView(e: IcalVEvent)
    requires e.instanceTimestamp.None?
    ensures GetStart(FromEvent(e)).Some? <==> DtStartUnix(e).Some?
    ensures DtStartUnix(e).Some? ==> DtStartUnix(e).value == AsUnix(GetStart(FromEvent(e)).value)
  {
  }

  /** An instance view with a recurring event is never a master, and it ends its duration after it starts. */
  lemma InstanceEnd(e: IcalVEvent, t: IcalTime, dur: int)
    requires GetDuration(e.comp) == Some(dur)
    ensures var k := FromEventWithTimestamp(e, Some(t));
            EndReady(k) && !IsRecurMaster(k)
            && GetStart(k) == Some(t) && GetEnd(k) == Some(AddSeconds(t, dur))
  {
  }
}
