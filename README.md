# khaleesi core, modelled in Dafny

khaleesi is a command-line calendar manager built on libical. It keeps
one iCalendar file per event, plus an index of "bucket" files. Each bucket
holds one line per event: the start time in Unix seconds, zero-padded to
ten digits, then the path of the event's file. This project models:

- the calendar document `IcalVCalendar` (parsing and validation, distinct
  UIDs, `with_uid`, `with_keep_uid`, deep clone versus shared copy, the
  principal event, the calendar name);
- the `IcalComponent` operations (property lookup, and removing every
  property of one kind from the whole tree);
- the event views `IcalVEvent` and `KhEvent` (start, end, last relevant
  date, recurrence master, recurrence validity, recurrence instances, the
  index line);
- the `select` and `list` actions and the date selectors (argument
  parsing, bucket pruning, overlap tests, the final sort and dedup).

libical's parse tree is a Dafny datatype `IcalComponent(kind, props,
subs)`. The document that owns a tree is a class `ComponentOwner` whose
`tree` field is updated in place, so a shallow copy shares the owner and a
clone gets a fresh one. Dates are integer day numbers. Timestamps are
integer Unix seconds. The local time zone is a fixed offset in seconds.
Several helpers are not shown and stay abstract, passed in as function
values:
- recurrence expansion (section 3.8.5.3 of RFC 5545);
- the date parsers;
- the bucket naming;
- reading a bucket's lines;
- turning an index line back into its calendar.

Files: `wrappers.dfy` (Option, Result), `strings.dfy` (string order,
sorting, dedup, decimal formatting), `paths.dfy` (path handling),
`times.dfy` (libical times, Unix seconds, local dates),
`component.dfy`, `calendar.dfy`, `vevent.dfy`, `khevent.dfy`,
`selectors.dfy`, `select.dfy`, `list.dfy`.

Where the two wrappers of `IcalVEvent` differ, both are covered by one
model. The older one is in `src/icalwrap.rs` (`get_dtstart_unix`,
`has_recur`, `get_khaleesi_line`); the newer one is in
`src/icalwrap/icalvevent.rs`. `KhEvent` uses a newer `IcalTime`/`IcalDuration`
API of the event that is not part of this model. Its start and end are
modelled through the event's DTSTART, DTEND and DURATION as libical
reports them.

Two behaviours of the source are modelled as written and stated as
lemmas, because they look deliberate:
- Validation counts X-LIC-ERROR properties at every depth, but its message
  lists only the root's texts and its direct children's
  (`IcalWrap.DeepErrorUnlisted`).
- Combining a set upper bound with an unset one unsets it, because Rust's
  `min` on `Option` puts `None` first (`Selectors.CombineTo`).

## Model

| member | source | states |
|---|---|---|
| Component.KindFromName | src/component.rs:40-54 | never the any-kind query; a table kind only when its table name is the upper-cased name; a named RFC 5545 kind exactly when the upper-cased name is that kind's name; the extension kind only for a name starting with `X-` |
| Component.OrganizerHasKind | src/component.rs:40-54 | "ORGANIZER" and "organizer" both name the ORGANIZER kind |
| Component.KindNameRoundTrip | src/component.rs:40-54 | every kind in the name table is found again from its own name |
| Component.KindFromNameIgnoresCase | src/component.rs:48-54 | "summary" names SUMMARY |
| Component.UnknownNameHasNoKind | src/component.rs:139-147 | "NONSENSE" names no property kind |
| Component.GetProperty | src/component.rs:9-17 | None iff no property matches the kind; otherwise the matching property at the lowest index |
| Component.GetPropertyIsFirstOfList | src/component.rs:9-34 | the single lookup is the head of the list lookup, and None iff that list is empty |
| Component.GetProperties | src/component.rs:19-34 | the loop collects exactly the matching properties, in document order |
| Component.KeepMembers | src/component.rs:19-34 | a property is collected iff it is in the component and matches |
| Component.GetPropertiesAll | src/component.rs:36-38 | the any-kind query returns every property, in order |
| Component.GetPropertiesByName | src/component.rs:40-46 | the result holds exactly the properties whose kind the name resolves to; a name resolving to no kind yields nothing |
| Component.GetPropertyByName | src/component.rs:48-54 | Some only with a property of the named kind; None iff the component has none of that kind |
| Component.RemoveMatching | src/component.rs:61-67 | the intended property loop leaves exactly the non-matching properties and counts the matching ones |
| Component.RemovePropertyInner | src/component.rs:57-80 | the recursive removal returns the tree with every property of the kind stripped, and the number of such properties in the tree |
| Component.RemoveFromChildren | src/component.rs:68-78 | the loop over sub-components strips each child and sums the children's counts |
| Component.StripLeavesNone | src/component.rs:56-84 | after removal no property of the kind remains anywhere in the tree |
| Component.StripKeepsOthers | src/component.rs:56-84 | after removal the properties of every other kind, and their counts at every depth, are unchanged |
| Component.StripAccounts | src/component.rs:56-84 | the properties before removal are the properties kept plus the properties counted |
| Component.RemovePropertyInnerAsWritten | src/component.rs:57-80 | the removal as written truncates each component's property list at the first match and counts everything truncated |
| Component.RemoveWithCursor | src/component.rs:61-67 | the cursor loop as written removes the first match and every property after it |
| Component.RemoveAsWrittenTakesFollowers | src/component.rs:61-67 | removing DTSTART from [UID, DTSTART, SUMMARY] as written also drops SUMMARY and reports 2 removals, while the tree holds one DTSTART |
| Component.GetUid | src/icalwrap.rs:515-520 | a UID found is the text of a UID property of the inner component (a VCALENDAR's first real sub-component) |
| Component.GetUidIsFirstUid | src/icalwrap.rs:515-520 | a UID is read iff the inner component's first UID property exists and holds text; the UID is that text |
| Component.SetUid | src/icalwrap.rs:244-248 | setting the UID makes it read back as given and leaves every other kind's properties unchanged |
| Component.GetDuration | src/khevent.rs:45-47 | a duration exists iff exactly one of DTEND and DURATION is set; it is the DURATION's seconds, or DTEND minus DTSTART read as wall-clock times with both zones ignored |
| Component.StartEndDuration | src/khevent.rs:45-47 | an event with just DTSTART and DTEND lasts the wall-clock difference from DTSTART to DTEND |
| Component.DurationIgnoresZones | src/khevent.rs:45-47 | 01:00 at UTC+1 to 04:00 at UTC+2 lasts three hours, though two hours pass in UTC |
| IcalWrap.ComponentOwner.RemovePropertyAll | src/component.rs:56-84 | the owner's tree becomes the stripped tree; the count returned is the number of matching properties before removal; none are left |
| IcalWrap.ErrorTexts | src/icalwrap.rs:360-369 | one error text per X-LIC-ERROR property of the component |
| IcalWrap.GetErrors | src/icalwrap.rs:360-369 | the loop collects the error texts in document order |
| IcalWrap.GetChildErrors | src/icalwrap.rs:339-343 | the loop appends each direct sub-component's error texts in order |
| IcalWrap.CheckUid | src/icalwrap.rs:351-358 | Ok iff the component has a UID; otherwise the error "missing required property: UID" |
| IcalWrap.CheckIcalComponent | src/icalwrap.rs:329-349 | with any X-LIC-ERROR in the tree, the error lists the root's texts then each direct child's, joined by spaces; otherwise the UID check |
| IcalWrap.ParseOrder | src/icalwrap.rs:201-221 | parse failure, then validation errors, then a missing UID, then a non-VCALENDAR root; the document is accepted iff it passes all of them, and it is the parsed tree |
| IcalWrap.DeepErrorUnlisted | src/icalwrap.rs:329-346 | an X-LIC-ERROR two levels down rejects the calendar with an empty error list |
| IcalWrap.FromStr | src/icalwrap.rs:201-221 | Err with the first failing check's message; Ok gives a new owner holding the tree, the path given, and no instance timestamp |
| IcalWrap.UidlessSecondEventAccepted | src/icalwrap.rs:351-358 | a calendar whose first event has a UID and whose second has none passes `from_str`, yet not every event has a UID |
| IcalWrap.UniqueUidCount | src/icalwrap.rs:540-547 | gathering, sorting and deduplicating the event UIDs counts the distinct UIDs |
| IcalWrap.UidsCollected | src/icalwrap.rs:540-547 | after sort and dedup the list holds exactly the set of event UIDs |
| IcalWrap.RenamedEvents | src/icalwrap.rs:244-249 | renaming keeps the events' positions, gives each the new UID and leaves other components untouched; the UID set becomes {uid}, or {} with no events |
| IcalWrap.WithUid | src/icalwrap.rs:237-253 | with more than one distinct UID: the error naming the file, and the tree unchanged, whatever the new UID holds; otherwise every event renamed and the path renamed to `<uid>.ics` |
| IcalWrap.RenamedIsRenamable | src/icalwrap.rs:237-253 | a renamed document has at most one UID, so renaming it again succeeds |
| IcalWrap.RenamedPathFileName | src/icalwrap.rs:251 | the renamed path keeps its directory and has file name `<uid>.ics` |
| IcalWrap.KeepUid | src/icalwrap.rs:263-286 | never more than the original sub-components, and a sub-component is kept iff it has no UID or has the UID to keep |
| IcalWrap.WithKeepUid | src/icalwrap.rs:263-286 | the cursor loop leaves the document holding exactly the kept sub-components, in order, and changes nothing else |
| IcalWrap.KeepUidLeavesOne | src/icalwrap.rs:790-802 | after keeping a UID that is present, the document's events carry only that UID |
| IcalWrap.KeepUidCalendarUid | src/icalwrap.rs:790-802 | after keeping a present UID, the first event's UID is that UID |
| IcalWrap.Clone | src/icalwrap.rs:167-177 | a fresh owner with an equal tree, the same path and the same instance timestamp |
| IcalWrap.ShallowCopy | src/icalwrap.rs:188-194 | the copy shares the owner, path and timestamp |
| IcalWrap.RenameClone | src/icalwrap.rs:804-811 | renaming a clone leaves the original's tree unchanged and works on a different owner |
| IcalWrap.WithInternalTimestamp | src/icalwrap.rs:196-199 | only the instance timestamp changes |
| IcalWrap.GetCalendarName | src/icalwrap.rs:296-299 | Some iff there is a path with a parent directory whose name is neither ".." nor "."; it is that directory's name |
| IcalWrap.FirstEvent | src/icalwrap.rs:305-311 | the first VEVENT sub-component, or the null component when there is none |
| IcalWrap.GetFirstEvent | src/icalwrap.rs:305-316 | a view of the first VEVENT belonging to this calendar, with no instance timestamp |
| IcalWrap.GetPrincipalEvent | src/icalwrap.rs:318-324 | the first event, carrying the calendar's instance timestamp |
| IcalWrap.WithUidCalendarUid | src/icalwrap.rs:765-777 | after renaming a document with an event, its first event has the new UID |
| VEvent.DtStartUnix | src/icalwrap.rs:405-417 | the instance timestamp if set; otherwise DTSTART in Unix seconds, or None when DTSTART is the null time |
| VEvent.DtEndUnix | src/icalwrap/icalvevent.rs:45-63 | for an instance, its timestamp plus the duration, None outside chrono's range; otherwise DTEND, or None when null |
| VEvent.LastRelevantDate | src/icalwrap/icalvevent.rs:98-104 | None iff there is no end; otherwise the end date, one day earlier for an all-day event |
| VEvent.HasRecurIsRecurMaster | src/icalwrap.rs:437-440 | `has_recur` holds iff an RRULE exists and no instance timestamp is set, the same as `is_recur_master` |
| VEvent.RecurWindowEnd | src/icalwrap/icalvevent.rs:119-123 | the expansion window ends at DTEND with the year one higher and nothing else changed |
| VEvent.RecurDatetimes | src/icalwrap/icalvevent.rs:114-129 | one datetime per reported span, its start, in reported order |
| VEvent.GetRecurDatetimes | src/icalwrap/icalvevent.rs:114-129 | the callback loop builds exactly those datetimes |
| VEvent.IsRecurValidCases | src/icalwrap/icalvevent.rs:131-141 | a view without an instance timestamp is valid; one with a timestamp is valid iff the event recurs and the timestamp is an expanded datetime |
| VEvent.RecurInstances | src/icalwrap/icalvevent.rs:151-155 | one instance per expanded datetime |
| VEvent.RecurInstancesAreValid | src/icalwrap/icalvevent.rs:151-155 | each instance has the same event and parent and starts at its span's start; it is not a master, and it is valid iff the event recurs |
| VEvent.WithTimestampStart | src/icalwrap/icalvevent.rs:143-149 | re-wrapping starts at the timestamp, is never a master and keeps the event's RRULE status |
| VEvent.KhaleesiLine | src/icalwrap.rs:475-480 | Some iff there is a start and a parent calendar |
| VEvent.KhaleesiLineRoundTrip | src/icalwrap.rs:475-480 | for a start of at least 0, at least ten digits (exactly ten below 10^10) reading back as the start, a space, then the path |
| VEvent.KhaleesiLineOrder | src/icalwrap.rs:475-480 | the lines of any two events, whichever files they are in, sort as their start times do |
| VEvent.FormatExample | src/icalwrap.rs:477 | 1182988800 is written as "1182988800" |
| VEvent.KhaleesiLineExample | src/icalwrap.rs:629-635 | an event starting at 1182988800 in the file whose path is built from "test/path" has the line "1182988800 test/path" |
| KhEvent.EventDtStart | src/khevent.rs:12-20 | the event's DTSTART, None iff it is the null time |
| KhEvent.EventDtEnd | src/khevent.rs:22-35 | the event's DTEND, None iff it is the null time |
| KhEvent.GetStart | src/khevent.rs:12-20 | the instance time if set, else the event's DTSTART |
| KhEvent.GetEnd | src/khevent.rs:22-35 | the instance time plus the event's duration if set, else the event's DTEND |
| KhEvent.GetLastRelevantDate | src/khevent.rs:65-73 | None iff there is no end; the end one day earlier for an all-day event; the end itself otherwise |
| KhEvent.RecurTimes | src/khevent.rs:95-97 | one UTC time per expanded datetime |
| KhEvent.IsRecurValidCases | src/khevent.rs:79-88 | valid iff there is no instance time, or the instance time is among the recurrence times |
| KhEvent.ExpandedTimesAreValid | src/khevent.rs:79-88 | a view at any expanded time is valid |
| KhEvent.GetCalendarName | src/khevent.rs:37-39 | None without a parent; otherwise the parent's calendar name |
| KhEvent.FromEvent | src/khevent.rs:99-104 | the event, with no instance time |
| KhEvent.FromEventWithTimestamp | src/khevent.rs:106-111 | the event, with the given instance time |
| KhEvent.FromEventUsesEvent | src/khevent.rs:99-104 | without an instance time, start and end are the event's own, the view is a master iff the event recurs, and it is valid |
| KhEvent.StartAgreesWithView | src/khevent.rs:12-20 | the view's start and the event's Unix start are both present or both absent, and they agree |
| KhEvent.InstanceEnd | src/khevent.rs:22-35 | an instance view is not a master; it starts at its time and ends its duration later |
| Selectors.OptMax | src/selectors.rs:35-43 | Rust's max on optional dates: one of the two, None only if both are, and no earlier than either |
| Selectors.OptMin | src/selectors.rs:54-61 | Rust's min on optional dates: one of the two, None if either is, and no later than either |
| Selectors.FromDate | src/selectors.rs:31-33 | the bound has the given date, and a bucket exactly when it has a date: the bucket of that date |
| Selectors.CombineFrom | src/selectors.rs:35-43 | the combined lower bound includes a day iff both bounds do |
| Selectors.ParseFrom | src/selectors.rs:67-76 | a plain date first, then a week's first day; otherwise "Could not parse date '<s>'" |
| Selectors.ToDate | src/selectors.rs:50-52 | the bound has the given date, and a bucket exactly when it has a date: the bucket of that date |
| Selectors.CombineTo | src/selectors.rs:54-61 | the combined upper bound includes a day iff both do, unless a set bound meets an unset one, which unsets it |
| Selectors.ParseTo | src/selectors.rs:81-90 | a plain date first, then a week's last day; otherwise "Could not parse date '<s>'" |
| Selectors.ParseFromArgs | src/selectors.rs:105-130 | the loop returns what the pairwise parse defines |
| Selectors.ParseEdges | src/selectors.rs:92-130 | no arguments leave both bounds unset; a first word that is not from/to/in/on gives the usage error |
| Selectors.InSetsBoth | src/selectors.rs:119-123 | `in d` and `on d` set both bounds to d |
| Selectors.ParseAgrees | src/selectors.rs:104-130 | every parsed bound carries the bucket of its own date |
| Selectors.ParseIsTightest | src/selectors.rs:104-130 | a day lies within the parsed bounds iff it lies within every bound given |
| Selectors.EventWithinBounds | src/selectors.rs:131-141 | an event passes the from test iff every lower bound includes its start date, and passes the to test iff every upper bound includes its end date |
| Select.ParseFromArgs | src/select.rs:12-35 | the chunk loop returns what the pairwise parse defines |
| Select.OddLengthIsError | src/select.rs:30-32 | an unpaired last word is an error |
| Select.DateCheckedFirst | src/select.rs:18-23 | a bad date is reported before the keyword is looked at |
| Select.LastPairWins | src/select.rs:25-28 | each bound is the date of its last pair, or the starting bound when there is no such pair |
| Select.FilterInRange | src/select.rs:37-55 | a bucket is kept iff it is not before the lower bound's bucket and not after the upper bound's |
| Select.PruneSelectsRange | src/select.rs:103-105 | on a sorted list, skip_while then take_while keeps exactly the buckets in range, in order |
| Select.PruneMembers | src/select.rs:101-105 | the buckets read are exactly the given buckets whose names are in range |
| Select.PassesIffOverlaps | src/select.rs:57-85 | for an event with start ≤ end, passing both line tests means its days overlap the range |
| Select.KeepLines | src/select.rs:107-112 | a line is kept iff it passes both line tests |
| Select.Collected | src/select.rs:107-112 | a line is collected iff it is in a readable bucket and passes both tests |
| Select.FilterBucket | src/select.rs:107-112 | the loop keeps the passing lines of a bucket, in order |
| Select.SelectByArgs | src/select.rs:88-120 | the parse error, or the collected lines of the in-range buckets, strictly sorted and so each once |
| List.ParseFromArgs | src/list.rs:13-44 | the loop returns what the parse defines |
| List.ShortArgs | src/list.rs:18-28 | no arguments is the usage error; one argument is Ok, with only `num` set, iff it parses as usize |
| List.PairsNeverCount | src/list.rs:30-43 | longer lists never set `num`, and an odd length is an error |
| List.KeywordCheckedFirst | src/list.rs:32-37 | an unknown keyword gives "Incorrect!" before its argument is read |
| List.LastCalWins | src/list.rs:35 | the calendar filter is the argument of the last `cal` pair |
| List.InCalendarByDirectory | src/list.rs:74-84 | a plain calendar name matches iff the file's directory has that name |
| List.Kept | src/list.rs:102-106 | the calendars kept are exactly those passing all three tests |
| List.FilterCalendars | src/list.rs:102-106 | the filter chain keeps the passing calendars in input order |
| List.ListByArgs | src/list.rs:91-106 | with `num`, the num-th file name and no filtering; otherwise the passing calendars in order |
| Strings.Sort | src/select.rs:114 | the result is sorted and a permutation of the input |
| Strings.SortedIsUnique | src/select.rs:114 | two sorted permutations of one list are equal, so an unstable sort's order is determined |
| Strings.DedupKeepsElements | src/select.rs:115 | dedup keeps exactly the elements present; on a sorted list the result is strictly sorted |
| Strings.DedupInPlace | src/select.rs:115 | the loop drops each element equal to its predecessor |
| Strings.StrictlySortedCardinality | src/icalwrap.rs:544-546 | a strictly sorted list has as many entries as distinct values |
| Strings.PadToRoundTrip | src/icalwrap.rs:477 | a number below 10^width is written as width digits that read back as the number |
| Strings.PadToOrder | src/icalwrap.rs:477 | zero-padded numbers sort as the numbers do |
| Strings.Format010RoundTrip | src/icalwrap.rs:477 | a non-negative number is written as at least ten digits, exactly ten below 10^10, reading back as the number |
| Strings.ParseUsizeRoundTrip | src/list.rs:23 | the decimal writing of any usize parses back to it |
| Paths.Parent | src/icalwrap.rs:297 | Some iff the path has a component; the path is the parent plus its last component |
| Paths.FromStr | src/icalwrap.rs:251 | no empty component, and "." only as the first component of a relative path |
| Paths.SplitSlashTwo | src/icalwrap.rs:251 | two names joined by one '/' split back into the two names |
| Paths.FileName | src/icalwrap.rs:297 | Some iff there is a last component other than ".." and "."; that component |
| Paths.WithFileName | src/icalwrap.rs:251 | a plain name other than "." replaces the last component |
| Times.CheckedAdd | src/icalwrap/icalvevent.rs:50 | Some iff the sum is within chrono's range; the sum |
| Times.UtcTime | src/icalwrap/icalvevent.rs:67 | a date-time in UTC on a real month and day: its date is the timestamp's day, its time of day the seconds into that day, and (unless it is libical's null time) it converts back to the timestamp |
| Times.CivilRoundTrip | src/icalwrap/icalvevent.rs:67 | the civil date of a day number has a month in 1..12 and a day in 1..31 and numbers back to that day |

## Left out

- libical itself is not part of this model: the text parser, the serialiser, `icalrestriction_check` and its X-LIC-ERROR generation. The parsed tree, or None for a parse failure, is an input.
- Recurrence expansion is a function parameter (`Expander`). The test's ten weekly instances depend on it and are not restated.
- `icaltime_as_timet_with_zone` is modelled by a fixed UTC offset per time. Time-zone tables are not modelled.
- Local time is a fixed offset. Daylight-saving changes are not modelled.
- Times.AsUnix: `AsUnix(UtcTime(t))` is proved to be `t` (except where `UtcTime(t)` is libical's null time), but the other direction, `UtcTime(AsUnix(x))`, is not, because libical's normalisation of out-of-range fields is not modelled.
- VEvent.DtEndUnix: the duration is an unbounded integer. libical's `icaldurationtype_as_int` returns a 32-bit int, and its wrap-around is not modelled.
- KhEvent.GetEnd: `IcalTime + IcalDuration` is modelled as adding seconds to the wall-clock time. The newer `IcalTime`/`IcalDuration` API is not part of this model.
- KhEvent.Pred: `IcalTime::pred` is modelled as one day (86400 seconds) earlier.
- KhEvent `get_recur_instances` wraps each `IcalVEvent` instance with `from_event`. It is covered by `VEvent.RecurInstances` and `KhEvent.FromEvent`, not restated.
- Select: bucket paths are modelled by their file names. Every bucket sits in the index directory, so sorting the paths sorts the names. The `expect` on a path without a file name cannot fail there.
- Select.SelectByArgs: reading the index directory, reading lines and printing are left out. The buckets, their lines and the line-to-event reader are inputs, and the method returns the lines it would print.
- List.ListByArgs: `read_calendars_from_files` and printing are left out. The calendars read are an input. `index_line` is not shown, so the printed lines are not modelled.
- List.ListByArgs: `nth` on an iterator that is too short panics. It becomes a precondition, as does the `unwrap` of the parse result.
- Panics are preconditions throughout. This covers:
  - `args[1]` after a trailing keyword in `src/selectors.rs` (`Selectors.ParseFromArgs` requires the parse to be defined);
  - the `unwrap`s on a missing start, end or duration;
  - `get_path_as_string` without a path;
  - `CString::new` on a string containing NUL.
- `Rc` reference counting, the `Drop` impls and raw-pointer lifetimes are not modelled. A document is a class instance shared by reference.
- IcalWrap.IcalVEvent: an event view holds a copy of the event component as it is when the view is taken. In Rust it points into the shared tree, so a later `with_uid`, `with_keep_uid` or `remove_property_all` on the calendar shows through a live view; in the model it does not. No modelled operation relies on a view seeing later changes.
- Summary, description and location getters, `to_string`, `with_dtstamp_now` (reads the clock) and `get_property`'s value formatting (`get_value`, `as_ical_string`, `get_value_as_date`) are outside the modelled core.
- Strings.Format010: for negative starts, the minus sign counts toward the ten-character width, as Rust's `{:010}` does; negative starts have no proved property.
- VEvent.KhaleesiLineOrder: proved for starts in [0, 10^10) only. Starts from 10^10 (the year 2286) up to chrono's limit are written with eleven or more digits, which text order sorts before some shorter lines.
- `get_first_event` logs a warning when there are several UIDs. Logging is not modelled; the UID count it calls keeps its preconditions (a path to name in the message, and a UID on every event).
- IcalWrap.AllEventsHaveUid: `get_uid` hands libical's UID pointer to `CStr::from_ptr`. For an event without a UID that pointer is null, which is undefined behaviour rather than a panic. `check_uid` looks only at the first event, so a parsed file can reach it (`IcalWrap.UidlessSecondEventAccepted`). The model makes a UID on every event a precondition of `UniqueUidCount`, `WithUid`, `RenameClone`, `GetFirstEvent` and `GetPrincipalEvent`, and so of the date filters in `list.dfy`.
- Component.KindFromName: the name table holds the property names of RFC 5545. libical also knows property names from other standards (RFC 7986, RFC 9073, the CalDAV scheduling extensions and its own X-LIC-* names); here those resolve to the extension kind when they start with "X-" and to no kind otherwise.
- Paths.Display: a path is kept as its components, not as the text it was built from. `display()` prints that text, so for a path written with a doubled '/', a trailing '/' or an inner "." the model's text differs from Rust's. This affects the path in `VEvent.KhaleesiLine` and in the `IcalWrap.WithUid` error message.

## Findings

| source | as written | input that shows it | evidently intended | confidence | as-written member | corrected member |
|---|---|---|---|---|---|---|
| src/component.rs:62-67 | after `icalcomponent_remove_property`, the loop reads `icalcomponent_get_current_property`. That is the property after the removed one, whatever its kind, so the loop removes the first match and everything after it, and counts all of it | an event with properties UID, DTSTART, SUMMARY and kind DTSTART: SUMMARY is removed too, and the count is 2 | remove and count only the properties of the given kind, at every depth | medium, not executed (depends on libical's cursor semantics) | Component.RemovePropertyInnerAsWritten, Component.RemoveAsWrittenTakesFollowers | Component.RemovePropertyInner, Component.StripLeavesNone |
