/**
 * Date bounds for selecting events: a lower bound (`SelectFilterFrom`) and
 * an upper bound (`SelectFilterTo`), each a local date together with the
 * name of the bucket file that date falls in, and the parser that builds
 * them from `from`/`to`/`in`/`on` arguments.
 *
 * The date parsers and the bucket naming are helpers outside this model;
 * they are passed in as a `DateUtil` value.
 */
module Selectors {
  import opened Wrappers
  import opened Times
  import opened IcalWrap
  import opened VEvent

  /**
   * `dateutil::date_from_str`, `dateutil::week_from_str_begin`,
   * `dateutil::week_from_str_end` (None for Err) and
   * `utils::get_bucket_for_date`.
   */
  datatype DateUtil = DateUtil(
    dateFromStr: string -> Option<Date>,
    weekFromStrBegin: string -> Option<Date>,
    weekFromStrEnd: string -> Option<Date>,
    bucketForDate: Date -> string)

  datatype SelectFilterFrom = SelectFilterFrom(date: Option<Date>, bucket: Option<string>)

  datatype SelectFilterTo = SelectFilterTo(date: Option<Date>, bucket: Option<string>)

  datatype SelectFilters = SelectFilters(from: SelectFilterFrom, to: SelectFilterTo)

  // ---------------------------------------------------------------------
  // Rust's order on Option<Date>: None below every Some

  function OptMax(a: Option<Date>, b: Option<Date>): (r: Option<Date>)
    ensures r == a || r == b
    ensures r.None? <==> a.None? && b.None?
    ensures r.Some? ==> (a.Some? ==> a.value <= r.value) && (b.Some? ==> b.value <= r.value)
  {
    if a.None? then b else if b.None? then a else if a.value <= b.value then b else a
  }

  function OptMin(a: Option<Date>, b: Option<Date>): (r: Option<Date>)
    ensures r == a || r == b
    ensures r.None? <==> a.None? || b.None?
    ensures r.Some? ==> r.value <= a.value && r.value <= b.value
  {
    if a.None? || b.None? then None else if a.value <= b.value then a else b
  }

  // ---------------------------------------------------------------------
  // The lower bound

  /** The bucket always names the bucket of the date, and is absent with it. */
  predicate FromAgrees(du: DateUtil, f: SelectFilterFrom)
  {
    f.bucket == if f.date.Some? then Some(du.bucketForDate(f.date.value)) else None
  }

  /** `SelectFilterFrom::includes_date`: no date, or the date is on or before the day compared. */
  predicate FromIncludes(f: SelectFilterFrom, day: Date)
  {
    f.date.None? || f.date.value <= day
  }

  /** `SelectFilterFrom::from_date`, and with None its `Default`. */
  function FromDate(du: DateUtil, date: Option<Date>): (r: SelectFilterFrom)
    ensures r.date == date && FromAgrees(du, r)
  {
    SelectFilterFrom(date, if date.Some? then Some(du.bucketForDate(date.value)) else None)
  }

  /** `SelectFilterFrom::combine_with`: the later of the two dates. */
  function CombineFrom(du: DateUtil, self: SelectFilterFrom, other: SelectFilterFrom): (r: SelectFilterFrom)
    ensures FromAgrees(du, r)
    ensures forall day :: FromIncludes(r, day) <==> FromIncludes(self, day) && FromIncludes(other, day)
  {
    FromDate(du, if self.date.Some? then OptMax(self.date, other.date) else other.date)
  }

  /** `SelectFilterFrom::from_str`: a plain date, else the first day of a week. */
  function ParseFrom(du: DateUtil, s: string): (r: Result<SelectFilterFrom>)
    ensures r.Ok? <==> du.dateFromStr(s).Some? || du.weekFromStrBegin(s).Some?
    ensures r.Ok? ==> FromAgrees(du, r.value)
                      && r.value.date == if du.dateFromStr(s).Some? then du.dateFromStr(s) else du.weekFromStrBegin(s)
    ensures r.Err? ==> r.error == "Could not parse date '" + s + "'"
  {
    if du.dateFromStr(s).Some? then Ok(FromDate(du, du.dateFromStr(s)))
    else if du.weekFromStrBegin(s).Some? then Ok(FromDate(du, du.weekFromStrBegin(s)))
    else Err("Could not parse date '" + s + "'")
  }

  // ---------------------------------------------------------------------
  // The upper bound

  predicate ToAgrees(du: DateUtil, t: SelectFilterTo)
  {
    t.bucket == if t.date.Some? then Some(du.bucketForDate(t.date.value)) else None
  }

  /** `SelectFilterTo::includes_date`: no date, or the day compared is on or before it. */
  predicate ToIncludes(t: SelectFilterTo, day: Date)
  {
    t.date.None? || day <= t.date.value
  }

  /** `SelectFilterTo::from_date`, and with None its `Default`. */
  function ToDate(du: DateUtil, date: Option<Date>): (r: SelectFilterTo)
    ensures r.date == date && ToAgrees(du, r)
  {
    SelectFilterTo(date, if date.Some? then Some(du.bucketForDate(date.value)) else None)
  }

  /**
   * `SelectFilterTo::combine_with`: the earlier of the two dates. Rust's
   * `min` puts None first, so a set bound combined with an unset one
   * becomes unset; every caller combines with a parsed, set bound.
   */
  function CombineTo(du: DateUtil, self: SelectFilterTo, other: SelectFilterTo): (r: SelectFilterTo)
    ensures ToAgrees(du, r)
    ensures self.date.None? || other.date.Some? ==>
              forall day :: ToIncludes(r, day) <==> ToIncludes(self, day) && ToIncludes(other, day)
    ensures self.date.Some? && other.date.None? ==> r.date.None?
  {
    ToDate(du, if self.date.Some? then OptMin(self.date, other.date) else other.date)
  }

  /** `SelectFilterTo::from_str`: a plain date, else the last day of a week. */
  function ParseTo(du: DateUtil, s: string): (r: Result<SelectFilterTo>)
    ensures r.Ok? <==> du.dateFromStr(s).Some? || du.weekFromStrEnd(s).Some?
    ensures r.Ok? ==> ToAgrees(du, r.value)
                      && r.value.date == if du.dateFromStr(s).Some? then du.dateFromStr(s) else du.weekFromStrEnd(s)
    ensures r.Err? ==> r.error == "Could not parse date '" + s + "'"
  {
    if du.dateFromStr(s).Some? then Ok(ToDate(du, du.dateFromStr(s)))
    else if du.weekFromStrEnd(s).Some? then Ok(ToDate(du, du.weekFromStrEnd(s)))
    else Err("Could not parse date '" + s + "'")
  }

  // ---------------------------------------------------------------------
  // Parsing the argument list

  const Usage: string := "select [from|to parameter]+"

  /**
   * What `SelectFilters::parse_from_args` returns when it starts from the
   * bounds `from` and `to`; None when it would index past the end (a
   * keyword with no argument after it).
   */
  function Parse(du: DateUtil, args: seq<string>, from: SelectFilterFrom, to: SelectFilterTo): Option<Result<SelectFilters>>
    decreases |args|
  {
    if args == [] then Some(Ok(SelectFilters(from, to)))
    else if args[0] == "from" then
      if |args| < 2 then None
      else match ParseFrom(du, args[1])
        case Err(e) => Some(Err(e))
        case Ok(f) => Parse(du, args[2..], CombineFrom(du, from, f), to)
    else if args[0] == "to" then
      if |args| < 2 then None
      else match ParseTo(du, args[1])
        case Err(e) => Some(Err(e))
        case Ok(t) => Parse(du, args[2..], from, CombineTo(du, to, t))
    else if args[0] == "in" || args[0] == "on" then
      if |args| < 2 then None
      else match ParseFrom(du, args[1])
        case Err(e) => Some(Err(e))
        case Ok(f) =>
          match ParseTo(du, args[1])
          case Err(e) => Some(Err(e))
          case Ok(t) => Parse(du, args[2..], CombineFrom(du, from, f), CombineTo(du, to, t))
    else Some(Err(Usage))
  }

  /** Both bounds unset, as `Default` makes them. */
  function Defaults(du: DateUtil): SelectFilters
  {
    SelectFilters(FromDate(du, None), ToDate(du, None))
  }

  /** `SelectFilters::parse_from_args`: consume the arguments two at a time, tightening the bounds. */
  method ParseFromArgs(du: DateUtil, args: seq<string>) returns (r: Result<SelectFilters>)
    requires Parse(du, args, FromDate(du, None), ToDate(du, None)).Some?
    ensures r == Parse(du, args, FromDate(du, None), ToDate(du, None)).value
  {
    var from := FromDate(du, None);
    var to := ToDate(du, None);
    var rest := args;
    while rest != []
      invariant Parse(du, rest, from, to) == Parse(du, args, FromDate(du, None), ToDate(du, None))
      decreases |rest|
    {
      if rest[0] == "from" {
        var f := ParseFrom(du, rest[1]);
        if f.Err? {
          return Err(f.error);
        }
        from := CombineFrom(du, from, f.value);
        rest := rest[2..];
      } else if rest[0] == "to" {
        var t := ParseTo(du, rest[1]);
        if t.Err? {
          return Err(t.error);
        }
        to := CombineTo(du, to, t.value);
        rest := rest[2..];
      } else if rest[0] == "in" || rest[0] == "on" {
        var f := ParseFrom(du, rest[1]);
        if f.Err? {
          return Err(f.error);
        }
        from := CombineFrom(du, from, f.value);
        var t := ParseTo(du, rest[1]);
        if t.Err? {
          return Err(t.error);
        }
        to := CombineTo(du, to, t.value);
        rest := rest[2..];
      } else {
        return Err(Usage);
      }
    }
    r := Ok(SelectFilters(from, to));
  }

  /** No arguments leave both bounds unset; a first word that is no keyword is refused. */
  lemma ParseEdges(du: DateUtil, args: seq<string>)
    ensures Parse(du, [], FromDate(du, None), ToDate(du, None)) == Some(Ok(Defaults(du)))
    ensures args != [] && args[0] !in {"from", "to", "in", "on"} ==>
              Parse(du, args, FromDate(du, None), ToDate(du, None)) == Some(Err(Usage))
  {
  }

  /** `in d` (and `on d`) sets both bounds to the day `d` names, when it is a plain date. */
  lemma InSetsBoth(du: DateUtil, d: string, day: Date)
    requires du.dateFromStr(d) == Some(day)
    ensures Parse(du, ["in", d], FromDate(du, None), ToDate(du, None))
            == Some(Ok(SelectFilters(FromDate(du, Some(day)), ToDate(du, Some(day)))))
    ensures Parse(du, ["on", d], FromDate(du, None), ToDate(du, None))
            == Some(Ok(SelectFilters(FromDate(du, Some(day)), ToDate(du, Some(day)))))
  {
    assert ["in", d][2..] == [] && ["on", d][2..] == [];
  }

  /** Every bound the parser produces names the bucket of its own date. */
  lemma {:induction false} ParseAgrees(du: DateUtil, args: seq<string>, from: SelectFilterFrom, to: SelectFilterTo)
    requires FromAgrees(du, from) && ToAgrees(du, to)
    requires Parse(du, args, from, to).Some? && Parse(du, args, from, to).value.Ok?
    ensures FromAgrees(du, Parse(du, args, from, to).value.value.from)
    ensures ToAgrees(du, Parse(du, args, from, to).value.value.to)
    decreases |args|
  {
    if args != [] {
      if args[0] == "from" {
        ParseAgrees(du, args[2..], CombineFrom(du, from, ParseFrom(du, args[1]).value), to);
      } else if args[0] == "to" {
        ParseAgrees(du, args[2..], from, CombineTo(du, to, ParseTo(du, args[1]).value));
      } else {
        ParseAgrees(du, args[2..], CombineFrom(du, from, ParseFrom(du, args[1]).value),
                    CombineTo(du, to, ParseTo(du, args[1]).value));
      }
    }
  }

  /**
   * The parsed bounds are the tightest of all given: a day lies within
   * them iff it lies within the starting bounds and within each bound
   * given by a `from`/`to`/`in`/`on` pair.
   */
  lemma {:induction false} ParseIsTightest(du: DateUtil, args: seq<string>, from: SelectFilterFrom, to: SelectFilterTo, day: Date)
    requires Parse(du, args, from, to).Some? && Parse(du, args, from, to).value.Ok?
    ensures var r := Parse(du, args, from, to).value.value;
            (FromIncludes(r.from, day) <==> FromIncludes(from, day) && AllFromInclude(du, args, day))
            && (ToIncludes(r.to, day) <==> ToIncludes(to, day) && AllToInclude(du, args, day))
    decreases |args|
  {
    if args != [] {
      if args[0] == "from" {
        ParseIsTightest(du, args[2..], CombineFrom(du, from, ParseFrom(du, args[1]).value), to, day);
      } else if args[0] == "to" {
        ParseIsTightest(du, args[2..], from, CombineTo(du, to, ParseTo(du, args[1]).value), day);
      } else {
        ParseIsTightest(du, args[2..], CombineFrom(du, from, ParseFrom(du, args[1]).value),
                        CombineTo(du, to, ParseTo(du, args[1]).value), day);
      }
    }
  }

  /** Every lower bound given by a pair of `args` includes `day` (pairs read from the front, as the parser does). */
  predicate AllFromInclude(du: DateUtil, args: seq<string>, day: Date)
    decreases |args|
  {
    if |args| < 2 then true
    else (args[0] in {"from", "in", "on"} && ParseFrom(du, args[1]).Ok? ==> FromIncludes(ParseFrom(du, args[1]).value, day))
         && AllFromInclude(du, args[2..], day)
  }

  /** Every upper bound given by a pair of `args` includes `day`. */
  predicate AllToInclude(du: DateUtil, args: seq<string>, day: Date)
    decreases |args|
  {
    if |args| < 2 then true
    else (args[0] in {"to", "in", "on"} && ParseTo(du, args[1]).Ok? ==> ToIncludes(ParseTo(du, args[1]).value, day))
         && AllToInclude(du, args[2..], day)
  }

  // ---------------------------------------------------------------------
  // Event predicates

  /** `predicate_line_is_from`: the lower bound includes the local date of the event's start (which must exist). */
  predicate LineIsFrom(s: SelectFilters, e: IcalVEvent, localOffset: int)
    requires DtStartUnix(e).Some?
  {
    FromIncludes(s.from, DtStartDate(e, localOffset).value)
  }

  /** `predicate_line_is_to`: the upper bound includes the local date of the event's end (which must exist). */
  predicate LineIsTo(s: SelectFilters, e: IcalVEvent, localOffset: int)
    requires DtEndUnix(e).Some?
  {
    ToIncludes(s.to, DtEndDate(e, localOffset).value)
  }

  /**
   * An event passing both predicates of parsed filters lies within every
   * bound given: it starts on or after each lower bound and ends on or
   * before each upper bound.
   */
  lemma EventWithinBounds(du: DateUtil, args: seq<string>, e: IcalVEvent, localOffset: int)
    requires Parse(du, args, FromDate(du, None), ToDate(du, None)).Some?
    requires Parse(du, args, FromDate(du, None), ToDate(du, None)).value.Ok?
    requires DtStartUnix(e).Some? && DtEndUnix(e).Some?
    ensures var s := Parse(du, args, FromDate(du, None), ToDate(du, None)).value.value;
            LineIsFrom(s, e, localOffset) <==> AllFromInclude(du, args, DtStartDate(e, localOffset).value)
    ensures var s := Parse(du, args, FromDate(du, None), ToDate(du, None)).value.value;
            LineIsTo(s, e, localOffset) <==> AllToInclude(du, args, DtEndDate(e, localOffset).value)
  {
    ParseIsTightest(du, args, FromDate(du, None), ToDate(du, None), DtStartDate(e, localOffset).value);
    ParseIsTightest(du, args, FromDate(du, None), ToDate(du, None), DtEndDate(e, localOffset).value);
  }
}
