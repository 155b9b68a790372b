/**
 * The `select` action: parse `from <date>` / `to <date>` pairs, pick the
 * index buckets that can hold matching lines, keep the index lines whose
 * event overlaps the range, and emit them sorted without duplicates.
 *
 * Index buckets all sit in the index directory, so they are named by their
 * file names; sorting the paths sorts those names. Reading the directory,
 * reading a bucket's lines and turning an index line into its calendar's
 * principal event are helpers outside this model, passed in as `SelectUtil`.
 */
module Select {
  import opened Wrappers
  import opened Strings
  import opened Times
  import opened IcalWrap
  import opened VEvent

  /**
   * `utils::date_from_str` (with the error's text), `utils::get_bucket_for_date`,
   * `utils::read_lines_from_file` (None for Err), and `utils::read_khaleesi_line`
   * followed by `get_principal_event` (None for Err).
   */
  datatype SelectUtil = SelectUtil(
    dateFromStr: string -> Result<Date>,
    bucketForDate: Date -> string,
    readLines: string -> Option<seq<string>>,
    lineEvent: string -> Option<IcalVEvent>)

  datatype SelectFilters = SelectFilters(from: Option<Date>, to: Option<Date>)

  const Usage: string := "select [from|to parameter]+"

  // ---------------------------------------------------------------------
  // Parsing

  /**
   * What `SelectFilters::parse_from_args` returns, reading `args` two at a
   * time from the bounds `from` and `to`: each pair's date is parsed before
   * its keyword is looked at, and a later pair overrides an earlier one.
   */
  function ParseChunks(su: SelectUtil, args: seq<string>, from: Option<Date>, to: Option<Date>): Result<SelectFilters>
    decreases |args|
  {
    if args == [] then Ok(SelectFilters(from, to))
    else if |args| == 1 then Err(Usage)
    else match su.dateFromStr(args[1])
      case Err(e) => Err(e)
      case Ok(d) =>
        if args[0] == "from" then ParseChunks(su, args[2..], Some(d), to)
        else if args[0] == "to" then ParseChunks(su, args[2..], from, Some(d))
        else Err(Usage)
  }

  /** `SelectFilters::parse_from_args`: a loop over `args.chunks(2)`. */
  method ParseFromArgs(su: SelectUtil, args: seq<string>) returns (r: Result<SelectFilters>)
    ensures r == ParseChunks(su, args, None, None)
  {
    var fromarg: Option<Date> := None;
    var toarg: Option<Date> := None;
    var k := 0;
    while k < |args|
      invariant 0 <= k <= |args| && k % 2 == 0
      invariant ParseChunks(su, args[k..], fromarg, toarg) == ParseChunks(su, args, None, None)
    {
      if k + 2 <= |args| {
        var datearg := su.dateFromStr(args[k + 1]);
        if datearg.Err? {
          return Err(datearg.error);
        }
        if args[k] == "from" {
          fromarg := Some(datearg.value);
        } else if args[k] == "to" {
          toarg := Some(datearg.value);
        } else {
          return Err(Usage);
        }
        assert args[k..][2..] == args[k + 2..];
        k := k + 2;
      } else {
        return Err(Usage);
      }
    }
    r := Ok(SelectFilters(fromarg, toarg));
  }

  /** An unpaired last word is refused, whatever comes before it. */
  lemma {:induction false} OddLengthIsError(su: SelectUtil, args: seq<string>, from: Option<Date>, to: Option<Date>)
    requires |args| % 2 == 1
    ensures ParseChunks(su, args, from, to).Err?
    decreases |args|
  {
    if |args| > 1 && su.dateFromStr(args[1]).Ok? && (args[0] == "from" || args[0] == "to") {
      var d := su.dateFromStr(args[1]).value;
      OddLengthIsError(su, args[2..], if args[0] == "from" then Some(d) else from, if args[0] == "to" then Some(d) else to);
    }
  }

  /** A bad date is reported before a bad keyword. */
  lemma DateCheckedFirst(su: SelectUtil, args: seq<string>, from: Option<Date>, to: Option<Date>)
    requires |args| >= 2 && su.dateFromStr(args[1]).Err?
    ensures ParseChunks(su, args, from, to) == Err(su.dateFromStr(args[1]).error)
  {
  }

  /** The index of a pair whose keyword is `key`, with no such pair after it. */
  ghost predicate LastPairAt(args: seq<string>, key: string, i: int)
  {
    0 <= i < |args| && i % 2 == 0 && args[i] == key
    && forall j :: i < j < |args| && j % 2 == 0 ==> args[j] != key
  }

  /** A last pair past the first pair is a last pair of the rest. */
  lemma LastPairShift(args: seq<string>, key: string)
    requires |args| >= 2
    ensures forall i :: 2 <= i && LastPairAt(args, key, i) ==> LastPairAt(args[2..], key, i - 2)
  {
    var rest := args[2..];
    forall i | 2 <= i && LastPairAt(args, key, i)
      ensures LastPairAt(rest, key, i - 2)
    {
      forall j | i - 2 < j < |rest| && j % 2 == 0
        ensures rest[j] != key
      {
        assert args[j + 2] != key;
      }
    }
  }

  /**
   * A successful parse holds, for each bound, the date of the last pair
   * naming it, or the starting bound when no pair does.
   */
  lemma {:induction false} LastPairWins(su: SelectUtil, args: seq<string>, from: Option<Date>, to: Option<Date>)
    requires ParseChunks(su, args, from, to).Ok?
    ensures var b := ParseChunks(su, args, from, to).value;
            (forall i :: LastPairAt(args, "from", i) ==> i + 1 < |args| && b.from.Some? && su.dateFromStr(args[i + 1]) == Ok(b.from.value))
            && ((forall j :: 0 <= j < |args| && j % 2 == 0 ==> args[j] != "from") ==> b.from == from)
            && (forall i :: LastPairAt(args, "to", i) ==> i + 1 < |args| && b.to.Some? && su.dateFromStr(args[i + 1]) == Ok(b.to.value))
            && ((forall j :: 0 <= j < |args| && j % 2 == 0 ==> args[j] != "to") ==> b.to == to)
    decreases |args|
  {
    if args != [] {
      var d := su.dateFromStr(args[1]).value;
      var from' := if args[0] == "from" then Some(d) else from;
      var to' := if args[0] == "to" then Some(d) else to;
      var rest := args[2..];
      LastPairWins(su, rest, from', to');
      forall i | 2 <= i < |args| ensures args[i] == rest[i - 2] {}
      LastPairShift(args, "from");
      LastPairShift(args, "to");
      if forall j :: 0 <= j < |rest| && j % 2 == 0 ==> rest[j] != "from" {
        forall j | 2 <= j < |args| && j % 2 == 0 ensures args[j] != "from" {
          assert rest[j - 2] != "from";
        }
      } else {
        var j :| 0 <= j < |rest| && j % 2 == 0 && rest[j] == "from";
        assert args[j + 2] == "from";
      }
      if forall j :: 0 <= j < |rest| && j % 2 == 0 ==> rest[j] != "to" {
        forall j | 2 <= j < |args| && j % 2 == 0 ensures args[j] != "to" {
          assert rest[j - 2] != "to";
        }
      } else {
        var j :| 0 <= j < |rest| && j % 2 == 0 && rest[j] == "to";
        assert args[j + 2] == "to";
      }
    }
  }

  // ---------------------------------------------------------------------
  // Choosing buckets

  /** `predicate_path_is_not_from`: the bucket sorts before the bucket of the lower bound. */
  predicate PathIsNotFrom(su: SelectUtil, b: SelectFilters, name: string)
  {
    b.from.Some? && Below(name, su.bucketForDate(b.from.value))
  }

  /** `predicate_path_is_to`: no upper bound, or the bucket sorts at or before its bucket. */
  predicate PathIsTo(su: SelectUtil, b: SelectFilters, name: string)
  {
    b.to.None? || AtMost(name, su.bucketForDate(b.to.value))
  }

  /** A bucket between the bounds' buckets, both ends included. */
  predicate InRange(su: SelectUtil, b: SelectFilters, name: string)
  {
    !PathIsNotFrom(su, b, name) && PathIsTo(su, b, name)
  }

  /** `skip_while(predicate_path_is_not_from)`. */
  function SkipNotFrom(su: SelectUtil, b: SelectFilters, s: seq<string>): (r: seq<string>)
  {
    if s == [] || !PathIsNotFrom(su, b, s[0]) then s else SkipNotFrom(su, b, s[1..])
  }

  /** `take_while(predicate_path_is_to)`. */
  function TakeTo(su: SelectUtil, b: SelectFilters, s: seq<string>): (r: seq<string>)
  {
    if s == [] || !PathIsTo(su, b, s[0]) then [] else [s[0]] + TakeTo(su, b, s[1..])
  }

  /** The buckets of `s` in range, in order. */
  function FilterInRange(su: SelectUtil, b: SelectFilters, s: seq<string>): (r: seq<string>)
    ensures forall x :: x in r <==> x in s && InRange(su, b, x)
  {
    if s == [] then []
    else (if InRange(su, b, s[0]) then [s[0]] else []) + FilterInRange(su, b, s[1..])
  }

  /** The buckets the pipeline reads: sort, skip those before the range, take those up to its end. */
  function Prune(su: SelectUtil, b: SelectFilters, buckets: seq<string>): seq<string>
  {
    TakeTo(su, b, SkipNotFrom(su, b, Sort(buckets)))
  }

  lemma SortedTail(s: seq<string>)
    requires Sorted(s) && s != []
    ensures Sorted(s[1..]) && forall x :: x in s[1..] ==> AtMost(s[0], x)
  {
    forall x | x in s[1..] ensures AtMost(s[0], x) {
      var i :| 0 <= i < |s[1..]| && s[1..][i] == x;
      assert s[i + 1] == x;
    }
  }

  /** In a sorted list past the end of the range, nothing is in range. */
  lemma {:induction false} NoneInRangeAfter(su: SelectUtil, b: SelectFilters, s: seq<string>)
    requires Sorted(s) && s != [] && !PathIsTo(su, b, s[0])
    ensures FilterInRange(su, b, s) == []
  {
    SortedTail(s);
    forall x | x in s
      ensures !InRange(su, b, x)
    {
      if x != s[0] && PathIsTo(su, b, x) {
        AtMostTransitive(s[0], x, su.bucketForDate(b.to.value));
      }
    }
    if FilterInRange(su, b, s) != [] {
      assert FilterInRange(su, b, s)[0] in FilterInRange(su, b, s);
    }
  }

  /** In a sorted list starting at or after the lower bound's bucket, taking up to the end keeps the range. */
  lemma {:induction false} TakeToKeepsRange(su: SelectUtil, b: SelectFilters, s: seq<string>)
    requires Sorted(s)
    requires s != [] ==> !PathIsNotFrom(su, b, s[0])
    ensures TakeTo(su, b, s) == FilterInRange(su, b, s)
    decreases |s|
  {
    if s != [] {
      if !PathIsTo(su, b, s[0]) {
        NoneInRangeAfter(su, b, s);
      } else {
        SortedTail(s);
        if s[1..] != [] && PathIsNotFrom(su, b, s[1..][0]) {
          var c := su.bucketForDate(b.from.value);
          if s[0] == s[1..][0] {
          } else {
            BelowTransitive(s[0], s[1..][0], c);
          }
        }
        TakeToKeepsRange(su, b, s[1..]);
      }
    }
  }

  /**
   * On a sorted list, skipping the buckets before the range and taking
   * those up to its end selects exactly the buckets in range, in order.
   */
  lemma {:induction false} PruneSelectsRange(su: SelectUtil, b: SelectFilters, s: seq<string>)
    requires Sorted(s)
    ensures TakeTo(su, b, SkipNotFrom(su, b, s)) == FilterInRange(su, b, s)
    decreases |s|
  {
    if s != [] {
      if PathIsNotFrom(su, b, s[0]) {
        SortedTail(s);
        PruneSelectsRange(su, b, s[1..]);
      } else {
        TakeToKeepsRange(su, b, s);
      }
    }
  }

  /** The buckets read are exactly those given whose names lie in the range. */
  lemma PruneMembers(su: SelectUtil, b: SelectFilters, buckets: seq<string>)
    ensures forall x :: x in Prune(su, b, buckets) <==> x in buckets && InRange(su, b, x)
  {
    PruneSelectsRange(su, b, Sort(buckets));
    forall x ensures x in Sort(buckets) <==> x in buckets {
      assert x in Sort(buckets) <==> x in multiset(Sort(buckets));
      assert x in buckets <==> x in multiset(buckets);
    }
  }

  // ---------------------------------------------------------------------
  // Choosing lines

  /**
   * The lower-bound test on an event: no bound, or the bound is on or
   * before its start day or its end day; a missing start or end passes.
   */
  predicate FromPasses(from: Option<Date>, start: Option<Date>, end: Option<Date>)
  {
    from.None? || (start.None? || from.value <= start.value) || (end.None? || from.value <= end.value)
  }

  /** The upper-bound test: no bound, or its start day or end day is on or before the bound. */
  predicate ToPasses(to: Option<Date>, start: Option<Date>, end: Option<Date>)
  {
    to.None? || (start.None? || start.value <= to.value) || (end.None? || end.value <= to.value)
  }

  /** For an event with both days known, the two tests together mean its days overlap the range. */
  lemma PassesIffOverlaps(from: Option<Date>, to: Option<Date>, start: Date, end: Date)
    requires start <= end
    ensures FromPasses(from, Some(start), Some(end)) && ToPasses(to, Some(start), Some(end))
            <==> (from.None? || from.value <= end) && (to.None? || start <= to.value)
  {
  }

  /** `predicate_line_is_from` (reading the line's event must succeed). */
  predicate LineIsFrom(su: SelectUtil, b: SelectFilters, localOffset: int, line: string)
    requires su.lineEvent(line).Some?
  {
    var e := su.lineEvent(line).value;
    FromPasses(b.from, DtStartDate(e, localOffset), DtEndDate(e, localOffset))
  }

  /** `predicate_line_is_to` (reading the line's event must succeed). */
  predicate LineIsTo(su: SelectUtil, b: SelectFilters, localOffset: int, line: string)
    requires su.lineEvent(line).Some?
  {
    var e := su.lineEvent(line).value;
    ToPasses(b.to, DtStartDate(e, localOffset), DtEndDate(e, localOffset))
  }

  /** Every line of every readable bucket in `buckets` names an event. */
  ghost predicate LinesReadable(su: SelectUtil, buckets: seq<string>)
  {
    forall n, line :: n in buckets && su.readLines(n).Some? && line in su.readLines(n).value ==> su.lineEvent(line).Some?
  }

  /** The lines of `lines` that pass both tests, in order. */
  function KeepLines(su: SelectUtil, b: SelectFilters, localOffset: int, lines: seq<string>): (r: seq<string>)
    requires forall line :: line in lines ==> su.lineEvent(line).Some?
    ensures forall x :: x in r <==> x in lines && LineIsFrom(su, b, localOffset, x) && LineIsTo(su, b, localOffset, x)
  {
    if lines == [] then []
    else
      var init := lines[..|lines| - 1];
      var last := lines[|lines| - 1];
      assert forall x :: x in lines <==> x in init || x == last;
      KeepLines(su, b, localOffset, init)
      + (if LineIsFrom(su, b, localOffset, last) && LineIsTo(su, b, localOffset, last) then [last] else [])
  }

  /** The passing lines of the readable buckets among `buckets`, bucket after bucket. */
  function Collected(su: SelectUtil, b: SelectFilters, localOffset: int, buckets: seq<string>): (r: seq<string>)
    requires LinesReadable(su, buckets)
    ensures forall x :: x in r <==> exists n :: n in buckets && su.readLines(n).Some? && x in su.readLines(n).value
                                              && LineIsFrom(su, b, localOffset, x) && LineIsTo(su, b, localOffset, x)
  {
    if buckets == [] then []
    else
      var init := buckets[..|buckets| - 1];
      var last := buckets[|buckets| - 1];
      assert forall n :: n in buckets <==> n in init || n == last;
      Collected(su, b, localOffset, init)
      + (if su.readLines(last).Some? then KeepLines(su, b, localOffset, su.readLines(last).value) else [])
  }

  /** The lines of one bucket that pass both tests, gathered by a loop. */
  method FilterBucket(su: SelectUtil, b: SelectFilters, localOffset: int, lines: seq<string>) returns (kept: seq<string>)
    requires forall line :: line in lines ==> su.lineEvent(line).Some?
    ensures kept == KeepLines(su, b, localOffset, lines)
  {
    kept := [];
    var i := 0;
    while i < |lines|
      invariant 0 <= i <= |lines|
      invariant kept == KeepLines(su, b, localOffset, lines[..i])
    {
      assert lines[..i + 1][..i] == lines[..i];
      if LineIsFrom(su, b, localOffset, lines[i]) && LineIsTo(su, b, localOffset, lines[i]) {
        kept := kept + [lines[i]];
      }
      i := i + 1;
    }
    assert lines[..i] == lines;
  }

  /** What `select_by_args` demands: parsed filters, and every line of every bucket it reads names an event. */
  ghost predicate SelectReady(su: SelectUtil, args: seq<string>, buckets: seq<string>)
  {
    ParseChunks(su, args, None, None).Ok? ==> LinesReadable(su, Prune(su, ParseChunks(su, args, None, None).value, buckets))
  }

  /**
   * `select_by_args`: the parse error, or the printed lines — every line of
   * a bucket in range whose event overlaps the range, sorted, each once.
   */
  method SelectByArgs(su: SelectUtil, args: seq<string>, buckets: seq<string>, localOffset: int) returns (r: Result<seq<string>>)
    requires SelectReady(su, args, buckets)
    ensures r.Err? <==> ParseChunks(su, args, None, None).Err?
    ensures r.Err? ==> r.error == ParseChunks(su, args, None, None).error
    ensures r.Ok? ==>
              var b := ParseChunks(su, args, None, None).value;
              StrictlySorted(r.value)
              && forall x :: x in r.value <==> x in Collected(su, b, localOffset, Prune(su, b, buckets))
  {
    var parsed := ParseFromArgs(su, args);
    if parsed.Err? {
      return Err(parsed.error);
    }
    var b := parsed.value;
    var selected := Prune(su, b, buckets);
    var lines: seq<string> := [];
    var k := 0;
    while k < |selected|
      invariant 0 <= k <= |selected|
      invariant LinesReadable(su, selected[..k])
      invariant lines == Collected(su, b, localOffset, selected[..k])
    {
      assert selected[..k + 1][..k] == selected[..k];
      var read := su.readLines(selected[k]);
      if read.Some? {
        assert selected[k] in selected;
        var kept := FilterBucket(su, b, localOffset, read.value);
        lines := lines + kept;
      }
      k := k + 1;
    }
    assert selected[..k] == selected;
    var sorted := Sort(lines);
    var unique := DedupInPlace(sorted);
    DedupKeepsElements(sorted);
    forall x ensures x in unique <==> x in lines {
      assert x in sorted <==> x in multiset(sorted);
      assert x in lines <==> x in multiset(lines);
    }
    r := Ok(unique);
  }
}
